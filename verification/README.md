# my-fetch-client, modelled in Dafny

This project models the request pipeline of `my-fetch-client`, a thin
TypeScript wrapper around the WHATWG `fetch` function. It covers the
following pieces:

- the configuration merge: object spread, plus the header merge that makes
  a default header win over the caller's header of the same name;
- URL building: resolving against `baseURL`, then appending query
  parameters from a `URLSearchParams`, from a custom serializer or from the
  default serializer;
- body handling: inferring a Content-Type and serializing the body;
- response parsing, by response type;
- the four hook pipelines;
- `request`, the state machine: its order of stages, its routing of errors
  to `onResponseError` or `onRequestError`, and its rethrow;
- the seven per-verb entry points.

Some host capabilities the core treats as opaque. These are URL parsing,
`JSON.stringify`, `fetch`, the body reads and `JSON.parse`. Together with
the caller's `paramsSerializer`, they are fields of the `Types.Host` record.
Each is an arbitrary function, so the properties below hold for every
behaviour of those capabilities. Other host objects are modelled concretely:

- `Headers` follows the Fetch standard, without name or value validation
  or whitespace trimming.
- `URLSearchParams.set` and `append` follow the URL standard, on decoded
  pairs.
- `Response.clone()` is the identity.
- `Response.ok` is a test for a status from 200 to 299.

The header and query properties hold for a host whose `Headers` and
`URLSearchParams` behave like these models. A thrown
value is a `Types.Fault`, with three cases:

- a `FetchClientError`;
- another `Error`;
- anything else.

An async function that can throw is a function that returns a `Result`.
A request cycle returns its outcome together with a trace of the hook
calls and the send it made.

Modules:

- `Wrappers`: `Option` and `Result`.
- `HeaderList`: the parts of the WHATWG `Headers` class the code relies on.
  Names are compared case-insensitively (ASCII lower-casing, per section
  2.2.2 of the Fetch standard). `get` joins repeated values with ", ".
  `set` replaces the existing entries. `append` adds one.
- `Types`: the configuration, the request, the response, the errors, the
  hooks, and the trace.
- `ConfigMerge`, `UrlBuilder`, `BodyResolver`, `ResponseParser`: model
  `src/helpers.ts`.
- `HookRunner`: models `src/fetchClienthookRunner.ts`.
- `FetchClient`: models `src/fetchClient.ts`.

Behaviour a reader might not expect:

- In a header merge, the **default** value wins for a name both sides set.
  `mergeHeaders(options.headers, defaults.headers)` calls `set` for the
  defaults last.
- A URL_BUILD_ERROR is a `FetchClientError`. It therefore reaches the
  `onResponseError` hooks with no response, not the `onRequestError` hooks.
- A response counts as successful only with a 2xx status, because the code
  tests `Response.ok`. A 3xx status that reaches the client fails. It fails
  with HTTP_ERROR when its body parses. When a JSON body does not parse,
  the parse's plain `Error` comes first and goes to the `onRequestError`
  hooks.

## Model

| member | source | states |
|---|---|---|
| ConfigMerge.MergeConfig | src/helpers.ts:32-41 | Every option key that is present, even holding `undefined`, overrides the default. An absent key keeps the default. Keys outside the model are spread the same way. The merged headers are a `Headers` instance with one entry per name, and a name set by both sides reads the default's value. |
| ConfigMerge.MergedHeadersLaw | src/helpers.ts:8-30 | `MergeHeaders`, the model of `mergeHeaders`, gives at most one entry per name. Each name reads the value given by the last source that sets it, with absent sources skipped. |
| ConfigMerge.MergeIntoValues | src/helpers.ts:11-27 | Applying sources in order leaves, for each name, the existing values when no source sets it, and otherwise exactly the last value set. |
| ConfigMerge.MergedHeaders | src/helpers.ts:39 | The merged headers hold one entry per name. A name the defaults set reads the default's value, and any other name reads the caller's. |
| ConfigMerge.DefaultHeadersWinEverywhere | src/helpers.ts:39 | For every name, the merged headers read the default's value when the defaults set it, and the caller's value otherwise. |
| ConfigMerge.InstanceSourceValue | src/helpers.ts:14-17 | A header source that is a `Headers` object gives each name the value its `get` reads. |
| HeaderList.SetInValues | src/helpers.ts:16 | `Headers.set` leaves exactly one value for its name and changes no other name. |
| HeaderList.SetAllValues | src/helpers.ts:19-25 | Setting a list of entries leaves the last value given for each name, and leaves untouched the names not given. |
| HeaderList.CombinedValues | src/helpers.ts:15-17 | Iterating a `Headers` instance yields one entry per name, whose value is that name's values joined. |
| HeaderList.HeadersFromGet | src/fetchClient.ts:45 | `new Headers(init)` reads, for each name, the values of the init's entries for that name, joined. |
| HeaderList.CopyPreservesGet | src/fetchClient.ts:45 | Copying a `Headers` instance preserves every lookup. |
| UrlBuilder.DefaultSerializeValues | src/helpers.ts:47-61 | `DefaultSerializeParams`, the model of `defaultSerializeParams`, satisfies the following for distinct record keys. The query holds, for each key, the values of its entry. A scalar gives one value. An array gives its non-nullish items in order. A nullish value, or a key not in the record, gives nothing. |
| UrlBuilder.ArrayKeyOccurrences | src/helpers.ts:53-54 | An array parameter appears once per non-nullish item, in order. |
| UrlBuilder.SetNewKeyAppends | src/helpers.ts:56 | `URLSearchParams.set` on a key not yet present appends the pair. |
| UrlBuilder.BuildFullURL | src/helpers.ts:63-98 | Every failure is a URL_BUILD_ERROR with the fixed message, no response, no status, and the caught fault as cause. A resolve failure is wrapped. Success keeps the resolved location and extends its query. Without params, the URL is the resolved one. |
| UrlBuilder.AbsoluteIgnoresBase | src/helpers.ts:43-45 | A URL that `IsAbsoluteURL` accepts, one starting with `http://` or `https://` (case-sensitive), gives the same result whatever `baseURL` is. |
| UrlBuilder.ParamsPrecedence | src/helpers.ts:74-86 | This is the choice `QueryPairs` makes. A `URLSearchParams` is used as is, whatever serializer is given. Otherwise a custom serializer wins over the default one. Its pairs are appended after the URL's own query, and its failure becomes a URL_BUILD_ERROR. |
| UrlBuilder.UsersScenario | src/helpers.ts:63-86 | `/users` against `https://api.example.com` with `{ id: [1, 2] }` gives `https://api.example.com/users?id=1&id=2`. |
| BodyResolver.GetContentType | src/helpers.ts:100-133 | An existing Content-Type or a nullish body gives no type. Otherwise the type follows the body's shape: none for FormData; form-urlencoded for `URLSearchParams`; a Blob's own type, or octet-stream when that is empty; octet-stream for ArrayBuffer, view and stream bodies; `text/plain;charset=UTF-8` for strings; the JSON type for a plain object; none for a primitive. |
| BodyResolver.SerializeBody | src/helpers.ts:135-155 | A nullish or primitive body sends no body. A host body type is sent unchanged. A plain object is sent as its `JSON.stringify` text. Serialization fails only when `JSON.stringify` throws. |
| BodyResolver.ContentTypeMatchesWire | src/helpers.ts:100-155 | Without a preset Content-Type, the inferred type agrees with the serialized form: JSON text goes with the JSON type, and no body goes with no type. |
| ResponseParser.Preview | src/helpers.ts:173 | The preview in a JSON parse failure is the first 100 characters of the text, or all of it when shorter. |
| ResponseParser.ParseJsonBody | src/helpers.ts:166-175 | A read failure propagates. Empty text gives null. Parsable text gives its `JSON.parse` value, and a value comes from nowhere else. Unparsable non-empty text fails with a plain `Error` whose message is the fixed prefix followed by the preview. |
| ResponseParser.ParseResponse | src/helpers.ts:157-189 | An empty response (`IsEmptyResponse`: a 204 status or a `content-length` of "0") gives null without reading. "json" and "" take the JSON path, and only that path yields a JSON value. "text" gives the text. "blob", "arrayBuffer" and "formData" give the matching representation. A failed read propagates. |
| ResponseParser.ReadAs | src/helpers.ts:180-185 | `blob()`, `arrayBuffer()` and `formData()` each give a value of their own representation. A failed read propagates. |
| ResponseParser.UnrecognizedTypeReadsText | src/helpers.ts:177-188 | A response type outside the declared union reads the body as text. |
| HookRunner.FoldHooks | src/fetchClienthookRunner.ts:9-16 | The first hook gets the input. Hook i+1 gets hook i's output. The outcome is what the last hook called returned or threw. The run succeeds only after reaching every hook, and with no hooks it returns the input. |
| HookRunner.RunBeforeRequest | src/fetchClienthookRunner.ts:6-17 | The hooks are called in order, each on the previous hook's configuration, starting from the merged one. The result is the last hook's, or the input when there are none. |
| HookRunner.RunAfterResponse | src/fetchClienthookRunner.ts:19-31 | The hooks are called in order, each on the previous hook's response and always with the same configuration. |
| HookRunner.RunOnResponseError | src/fetchClienthookRunner.ts:33-43 | Every hook is called once, in order, with the same error, response and configuration, until one throws. That fault is the outcome. |
| HookRunner.RunOnRequestError | src/fetchClienthookRunner.ts:45-54 | Every hook is called once, in order, with the same error and configuration, until one throws. That fault is the outcome. |
| FetchClient.ResponseTypeOf | src/fetchClient.ts:38 | The parse uses "json" only when `responseType` reads as undefined. Any other value, the empty string included, is used as given. |
| FetchClient.OutgoingHeaders | src/fetchClient.ts:45-49 | The request headers copy the configured ones. An existing Content-Type is kept. Otherwise the inferred type is set, and no other header changes. |
| FetchClient.Decimal | src/fetchClient.ts:68 | A status is written as a non-empty string of decimal digits with no leading zero, and with one digit exactly when the status is below 10. |
| FetchClient.DecimalRoundTrip | src/fetchClient.ts:68 | Reading the status numeral back as decimal digits gives the status, so the message names the status exactly. |
| FetchClient.HttpFailure | src/fetchClient.ts:66-74 | The HTTP_ERROR carries "HTTP Error " followed by the decimal status, the response, the status, and the parsed body as cause. |
| FetchClient.Prepare | src/fetchClient.ts:34-57 | A request is prepared exactly when the URL builds and the body serializes. It comes from one configuration: its full URL, its method, its headers with the inferred Content-Type, its serialized body and its remaining keys. A URL failure is a URL_BUILD_ERROR `FetchClientError`. A body failure is the fault `JSON.stringify` threw. |
| FetchClient.Conclude | src/fetchClient.ts:64-76 | A 2xx response whose body parses returns that body, and only a 2xx response succeeds. A parse failure wins over the status check. A non-2xx response whose body parses fails with HTTP_ERROR. |
| FetchClient.Deliver | src/fetchClient.ts:53-76 | The send is the first event and happens once. After a successful `fetch`, the rest of the trace is the `afterResponse` calls. A failing `fetch` or `afterResponse` hook ends the cycle with its fault and no response. Otherwise the conclusion reads the response the last `afterResponse` hook returned. |
| FetchClient.Exchange | src/fetchClient.ts:43-76 | When the request cannot be prepared, nothing is sent and no hook runs. Otherwise the request sent is the one prepared from the given configuration, and the `afterResponse` hooks and the parse see that configuration. |
| FetchClient.HandleFault | src/fetchClient.ts:77-88 | A `FetchClientError` goes to every `onResponseError` hook with its own response, another `Error` to every `onRequestError` hook, and anything else to none. When every routed hook returns, the fault is rethrown unchanged. A changed fault is the one the last hook called threw. |
| FetchClient.ThrowingHookReplaces | src/fetchClient.ts:77-88 | Every error-hook call before the last returned normally. When a routed hook throws, the run stops at it and its fault is the one rethrown. |
| FetchClient.TryBlock | src/fetchClient.ts:29-76 | The try block calls no error hook and keeps the stage order. `interceptedConfig` is the `beforeRequest` output (`Intercept`), or the merged configuration when a `beforeRequest` hook threw. Once the `beforeRequest` hooks return, the outcome and the remaining events are exactly those of the exchange on their output. |
| FetchClient.Request | src/fetchClient.ts:25-90 | A cycle succeeds exactly when its try block does, with the same value and events, so the error hooks never turn a failure into a success. The trace runs `beforeRequest` calls, the send, `afterResponse` calls, then error-hook calls. Every error hook sees the try block's configuration. A failed try block is followed by the catch block (`HandleFault`), and the cycle throws what that block rethrows. |
| FetchClient.OkResponseReturnsBody | src/fetchClient.ts:64-76 | When every stage returns and the final response is 2xx with a parsable body, the cycle returns that body. Its events are the `beforeRequest` calls, the one send and the `afterResponse` calls. |
| FetchClient.JsonGetScenario | src/fetchClient.ts:92-97 | `get("/items")` with no defaults and no hooks, answered 200 with the JSON text "1", returns the parsed value. |
| FetchClient.FaultRouting | src/fetchClient.ts:77-88 | A stage's fault reaches only the hooks its kind selects, each with the fault's own arguments. When every such hook returns normally, each is called once and the fault is rethrown unchanged. |
| FetchClient.FailureOrigin | src/fetchClient.ts:77-89 | A failed cycle throws either the fault of the stage that failed or the fault of the last error hook called. |
| FetchClient.SentFromIntercepted | src/fetchClient.ts:33-57 | Every request a cycle sends is built from the configuration the `beforeRequest` hooks returned, and none is sent when one of them threw. |
| FetchClient.UrlBuildErrorRouting | src/fetchClient.ts:43 | An unbuildable URL sends nothing. Its URL_BUILD_ERROR goes to the `onResponseError` hooks with no response. |
| FetchClient.NotOkRouting | src/fetchClient.ts:64-85 | A non-2xx response fails the cycle. With a parsable body, the `onResponseError` hooks get the HTTP_ERROR and the after-hook response. With an unparsable JSON body, the plain `Error` goes to the `onRequestError` hooks instead. |
| FetchClient.NotFoundScenario | src/fetchClient.ts:64-74 | `get("/items")` with no defaults and no hooks, answered 404 with the JSON text "1", throws the HTTP_ERROR for that response, with the parsed body as cause. |
| FetchClient.VerbOptions | src/fetchClient.ts:92-157 | Each verb wrapper passes the options unchanged, adding its own method only when the options have no `method` key. |
| FetchClient.CallerMethodWins | src/fetchClient.ts:96 | With no `beforeRequest` hook, `get(url, { method: "POST" })` sends a POST. |

## Left out

- The transport is the host function `send`. Nothing about timing,
  redirects, aborts or CORS is modelled.
- Response internals are left out, and `clone()` is the identity on the
  response value, so body-already-used errors are not modelled.
- URL parsing, percent-encoding, and the round trip of a query string
  through `toString` and `new URLSearchParams` are left out. A query is a
  list of decoded pairs. A custom serializer is a host function that
  returns those pairs directly.
- `String(v)` of a parameter value is not modelled. A parameter carries its
  string form already.
- JSON text and values are opaque. `JSON.stringify` and `JSON.parse` are
  host functions. `JSON.stringify` returning `undefined` is not
  distinguished from a string.
- Header name and value validation, whitespace trimming, and the sorted
  iteration order of a real `Headers` object are left out. The model
  iterates in first-occurrence order, which gives the same lookups.
- `Set-Cookie` handling is left out.
- ResponseParser.Preview counts characters, not UTF-16 code units.
- A `null` response type is left out. Response types are strings, and
  `undefined` reads as "json".
- The `hooks` key that `mergeConfig` spreads into the configuration and on
  into `fetch` is not modelled. Hooks come from the client only, fixed at
  construction, as in the code.
- Hooks are modelled as pure functions of their arguments. In the code
  every hook receives the same objects by reference. The first
  `beforeRequest` hook gets the merged configuration itself, which the catch
  block also reads until the runner returns. Every `afterResponse` and error
  hook gets the one intercepted configuration, and the error hooks share the
  one error object. In-place mutation of these shared objects (for example
  `config.headers.set(...)` inside a hook) is not modelled. So the claims
  about the configuration the error hooks and later hooks see hold for hooks
  that do not mutate their arguments.
- Async scheduling and TypeScript generics are not modelled. Each `await`
  is a call whose result is a `Result`.
- NETWORK_ERROR and TIMEOUT_ERROR exist as error kinds, but nothing in the
  code constructs them. A failing `fetch` is whatever fault the host
  returns.
- src/index.ts (re-exports) is not part of this model.
- FetchClient.Get, FetchClient.Post, FetchClient.Put, FetchClient.Delete,
  FetchClient.Patch, FetchClient.Options and FetchClient.Head carry no
  contract of their own. Each is `Request` on `VerbOptions`, and
  FetchClient.VerbOptions and FetchClient.CallerMethodWins state their
  behaviour.
