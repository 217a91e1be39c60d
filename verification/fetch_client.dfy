/**
 * The client facade: one request cycle (`request`) as a sequence of stages,
 * and the seven per-verb entry points over it.
 *
 * A cycle merges the options with the client defaults, runs the
 * `beforeRequest` hooks (their output is the configuration every later stage
 * reads), builds the URL, the outgoing headers and the wire body, sends the
 * request, runs the `afterResponse` hooks on the (cloned) response, parses
 * that hook response, and fails with HTTP_ERROR when it is not ok. A fault
 * anywhere is routed by what it is: a `FetchClientError` to the
 * `onResponseError` hooks, any other `Error` to the `onRequestError` hooks,
 * anything else to no hook; then it is rethrown unchanged, unless an error
 * hook throws, whose fault then replaces it.
 */
module FetchClient {
  import opened Wrappers
  import HeaderList
  import opened Types
  import opened ConfigMerge
  import opened UrlBuilder
  import opened BodyResolver
  import opened ResponseParser
  import opened HookRunner

  /** A client: its default configuration, and the hook registry taken from it at construction. */
  datatype Client = Client(defaults: Config, hooks: Hooks)

  /** What the stages after the `beforeRequest` hooks produced, and the after-hook response once there is one. */
  datatype Attempt = Attempt(result: Result<Value, Fault>, trace: seq<Event>, response: Option<Response>)

  /** The fault a failed cycle ends with, and the error-hook calls made on the way. */
  datatype Raised = Raised(fault: Fault, trace: seq<Event>)

  /** The response type the parse uses: "json" only when the option reads as undefined. */
  function ResponseTypeOf(config: Config): (t: string)
    ensures config.responseType.Get().None? ==> t == ResponseTypeName(JsonType)
    ensures config.responseType.Get().Some? ==> t == config.responseType.Get().value
  {
    match config.responseType.Get()
    case None => "json"
    case Some(t) => t
  }

  /**
   * The outgoing headers: a copy of the configured headers, with the inferred
   * Content-Type set when there is one. A Content-Type already present is
   * never replaced, and no other header changes.
   */
  function OutgoingHeaders(init: Option<HeaderList.HeaderSource>, body: Option<Body>): (h: HeaderList.Headers)
    ensures HeaderList.Has(HeaderList.HeadersFrom(init), "Content-Type") ==> h == HeaderList.HeadersFrom(init)
    ensures GetContentType(body, HeaderList.HeadersFrom(init)).None? ==> h == HeaderList.HeadersFrom(init)
    ensures GetContentType(body, HeaderList.HeadersFrom(init)).Some? ==>
              HeaderList.Get(h, "Content-Type") == GetContentType(body, HeaderList.HeadersFrom(init))
    ensures forall name :: HeaderList.LowerName(name) != HeaderList.LowerName("Content-Type") ==>
              HeaderList.Get(h, name) == HeaderList.Get(HeaderList.HeadersFrom(init), name)
  {
    var copied := HeaderList.HeadersFrom(init);
    match GetContentType(body, copied)
    case None => copied
    case Some(contentType) =>
      HeaderList.SetGet(copied, "Content-Type", contentType, "Content-Type");
      SetLeavesOthers(copied, "Content-Type", contentType);
      HeaderList.Set(copied, "Content-Type", contentType)
  }

  lemma SetLeavesOthers(h: HeaderList.Headers, name: string, value: string)
    ensures forall other :: HeaderList.LowerName(other) != HeaderList.LowerName(name) ==>
              HeaderList.Get(HeaderList.Set(h, name, value), other) == HeaderList.Get(h, other)
  {
    forall other | HeaderList.LowerName(other) != HeaderList.LowerName(name) {
      HeaderList.SetGet(h, name, value, other);
    }
  }

  /** The decimal numeral of a status code, as string interpolation writes it. */
  function Decimal(n: nat): (s: string)
    ensures |s| > 0
    ensures forall i :: 0 <= i < |s| ==> '0' <= s[i] <= '9'
    ensures n < 10 <==> |s| == 1
    ensures |s| > 1 ==> s[0] != '0'
  {
    if n < 10 then [(48 + n) as char] else Decimal(n / 10) + [(48 + n % 10) as char]
  }

  /** The number a string of decimal digits denotes. */
  function DigitsValue(s: string): nat
    requires forall i :: 0 <= i < |s| ==> '0' <= s[i] <= '9'
  {
    if |s| == 0 then 0 else 10 * DigitsValue(s[..|s| - 1]) + (s[|s| - 1] as int - '0' as int)
  }

  /** Reading the numeral back gives the status: the message names the status exactly. */
  lemma {:induction false} DecimalRoundTrip(n: nat)
    ensures DigitsValue(Decimal(n)) == n
  {
    if n >= 10 {
      var s := Decimal(n);
      assert s[..|s| - 1] == Decimal(n / 10);
      DecimalRoundTrip(n / 10);
    }
  }

  /** The HTTP_ERROR for a non-ok response: its status in the message, the response, the parsed body as cause. */
  function HttpFailure(resp: Response, parsed: Value): (e: ClientError)
    ensures e.kind == HttpError && e.response == Some(resp) && e.status == Some(resp.status)
    ensures e.cause == BodyCause(parsed)
    ensures "HTTP Error " <= e.message && e.message[|"HTTP Error "|..] == Decimal(resp.status)
  {
    ClientError("HTTP Error " + Decimal(resp.status), HttpError, Some(resp), Some(resp.status), BodyCause(parsed))
  }

  /** The URL a configuration sends to. */
  function TargetURL(host: Host, url: string, config: Config): Result<Url, ClientError> {
    BuildFullURL(host, url, config.baseURL.Get(), config.params.Get(), config.paramsSerializer.Get())
  }

  /**
   * The request a configuration sends: the full URL, the outgoing headers,
   * the serialized body, the method and every remaining key. A URL failure
   * is a URL_BUILD_ERROR; a body failure is the fault `JSON.stringify`
   * threw.
   */
  function Prepare(host: Host, url: string, config: Config): (r: Result<Outgoing, Fault>)
    ensures TargetURL(host, url, config).Err? ==> r == Err(ClientFault(TargetURL(host, url, config).error))
    ensures TargetURL(host, url, config).Ok? && SerializeBody(config.body.Get(), host.stringify).Err? ==>
              r == Err(SerializeBody(config.body.Get(), host.stringify).error)
    ensures TargetURL(host, url, config).Ok? && SerializeBody(config.body.Get(), host.stringify).Ok? ==> r.Ok?
    ensures r.Ok? ==>
              TargetURL(host, url, config).Ok? && SerializeBody(config.body.Get(), host.stringify).Ok? &&
              r.value.url == TargetURL(host, url, config).value &&
              r.value.verb == config.verb.Get() &&
              r.value.headers == OutgoingHeaders(config.headers.Get(), config.body.Get()) &&
              r.value.body == SerializeBody(config.body.Get(), host.stringify).value &&
              r.value.options == config.rest
  {
    match TargetURL(host, url, config)
    case Err(e) => Err(ClientFault(e))
    case Ok(fullURL) =>
      var headers := OutgoingHeaders(config.headers.Get(), config.body.Get());
      match SerializeBody(config.body.Get(), host.stringify)
      case Err(f) => Err(f)
      case Ok(wire) => Ok(Outgoing(fullURL, config.verb.Get(), headers, wire, config.rest))
  }

  /**
   * The end of a cycle on the after-hook response: its parsed body when the
   * status is ok; HTTP_ERROR carrying the response and that body when it is
   * not; the parse's own fault when the body does not parse, whatever the
   * status.
   */
  function Conclude(host: Host, resp: Response, responseType: string): (r: Result<Value, Fault>)
    ensures r.Ok? ==> IsOkStatus(resp.status) && ParseResponse(host, resp, responseType) == r
    ensures IsOkStatus(resp.status) && ParseResponse(host, resp, responseType).Ok? ==> r == ParseResponse(host, resp, responseType)
    ensures ParseResponse(host, resp, responseType).Err? ==> r == ParseResponse(host, resp, responseType)
    ensures !IsOkStatus(resp.status) && ParseResponse(host, resp, responseType).Ok? ==>
              r == Err(ClientFault(HttpFailure(resp, ParseResponse(host, resp, responseType).value)))
  {
    match ParseResponse(host, resp, responseType)
    case Err(f) => Err(f)
    case Ok(parsed) =>
      if IsOkStatus(resp.status) then Ok(parsed) else Err(ClientFault(HttpFailure(resp, parsed)))
  }

  /**
   * The trace of an exchange: the send first and only there, then
   * `afterResponse` calls; so it is in stage order and calls no error hook.
   */
  ghost predicate SendShaped(t: seq<Event>) {
    InStageOrder(t) && NoErrorHook(t) &&
    forall i :: 0 <= i < |t| ==> (t[i].Sent? <==> i == 0) && (i > 0 ==> t[i].AfterResponseCalled?) && 1 <= Stage(t[i]) <= 2
  }

  /**
   * Sending a prepared request: `fetch`, then the `afterResponse` hooks on
   * (a clone of) the raw response, then the conclusion on their response. A
   * failing `fetch` or hook ends it with that fault.
   */
  function Deliver(hooks: Hooks, host: Host, request: Outgoing, config: Config): (x: Attempt)
    ensures SendShaped(x.trace) && |x.trace| > 0 && x.trace[0] == Sent(request)
    ensures host.send(request).Err? ==> x == Attempt(Err(host.send(request).error), [Sent(request)], None)
    ensures host.send(request).Ok? ==>
              x.trace == [Sent(request)] + RunAfterResponse(hooks.afterResponse, host.send(request).value, config).trace
    ensures host.send(request).Ok? && RunAfterResponse(hooks.afterResponse, host.send(request).value, config).result.Ok? ==>
              x.response == Some(RunAfterResponse(hooks.afterResponse, host.send(request).value, config).result.value)
    ensures host.send(request).Ok? && RunAfterResponse(hooks.afterResponse, host.send(request).value, config).result.Err? ==>
              x.response.None? &&
              x.result == Err(RunAfterResponse(hooks.afterResponse, host.send(request).value, config).result.error)
    ensures x.response.Some? ==>
              host.send(request).Ok? &&
              RunAfterResponse(hooks.afterResponse, host.send(request).value, config).result == Ok(x.response.value)
    ensures x.response.Some? ==> x.result == Conclude(host, x.response.value, ResponseTypeOf(config))
    ensures x.response.None? ==> x.result.Err?
  {
    match host.send(request)
    case Err(f) =>
      SendThenAfter(request, []);
      Attempt(Err(f), [Sent(request)], None)
    case Ok(raw) =>
      // the hooks get `raw.clone()`, an equal response
      var after := RunAfterResponse(hooks.afterResponse, raw, config);
      SendThenAfter(request, after.trace);
      var trace := [Sent(request)] + after.trace;
      match after.result
      case Err(f) => Attempt(Err(f), trace, None)
      case Ok(resp) => Attempt(Conclude(host, resp, ResponseTypeOf(config)), trace, Some(resp))
  }

  /**
   * The stages after the `beforeRequest` hooks, all reading the configuration
   * those hooks returned: nothing is sent when the request cannot be
   * prepared; otherwise the prepared request is delivered.
   */
  function Exchange(hooks: Hooks, host: Host, url: string, config: Config): (x: Attempt)
    ensures SendShaped(x.trace)
    ensures |x.trace| > 0 ==> Prepare(host, url, config) == Ok(x.trace[0].request)
    ensures Prepare(host, url, config).Err? ==> x == Attempt(Err(Prepare(host, url, config).error), [], None)
    ensures Prepare(host, url, config).Ok? ==> x == Deliver(hooks, host, Prepare(host, url, config).value, config)
  {
    match Prepare(host, url, config)
    case Err(f) => Attempt(Err(f), [], None)
    case Ok(request) => Deliver(hooks, host, request, config)
  }

  /** A send followed by `afterResponse` calls is in stage order and calls no error hook. */
  lemma SendThenAfter(request: Outgoing, t: seq<Event>)
    requires forall i :: 0 <= i < |t| ==> t[i].AfterResponseCalled?
    ensures SendShaped([Sent(request)] + t)
  {
    var s := [Sent(request)] + t;
    assert forall i :: 0 < i < |s| ==> s[i] == t[i - 1];
  }

  /** Every error hook the fault is routed to returns normally on it. */
  ghost predicate ErrorHooksPass(hooks: Hooks, fault: Fault, config: Config) {
    match fault
    case ClientFault(e) =>
      forall i :: 0 <= i < |Listed(hooks.onResponseError)| ==> Listed(hooks.onResponseError)[i](e, e.response, config).Ok?
    case PlainError(_) =>
      forall i :: 0 <= i < |Listed(hooks.onRequestError)| ==> Listed(hooks.onRequestError)[i](fault, config).Ok?
    case NonError(_) => true
  }

  /** The error-hook call `e` returned normally. */
  ghost predicate Returned(hooks: Hooks, e: Event) {
    match e
    case OnResponseErrorCalled(i, err, resp, c) =>
      i < |Listed(hooks.onResponseError)| && Listed(hooks.onResponseError)[i](err, resp, c).Ok?
    case OnRequestErrorCalled(i, f, c) =>
      i < |Listed(hooks.onRequestError)| && Listed(hooks.onRequestError)[i](f, c).Ok?
    case _ => false
  }

  /** The error-hook call `e` threw `g`. */
  ghost predicate Threw(hooks: Hooks, e: Event, g: Fault) {
    match e
    case OnResponseErrorCalled(i, err, resp, c) =>
      i < |Listed(hooks.onResponseError)| && Listed(hooks.onResponseError)[i](err, resp, c) == Err(g)
    case OnRequestErrorCalled(i, f, c) =>
      i < |Listed(hooks.onRequestError)| && Listed(hooks.onRequestError)[i](f, c) == Err(g)
    case _ => false
  }

  /**
   * The catch block: a `FetchClientError` goes to every `onResponseError`
   * hook with its own response (none for URL_BUILD_ERROR), another `Error`
   * to every `onRequestError` hook, anything else to none. The fault is
   * rethrown unchanged unless a hook throws, whose fault replaces it.
   */
  function HandleFault(hooks: Hooks, fault: Fault, config: Config): (r: Raised)
    ensures fault.NonError? ==> r == Raised(fault, [])
    ensures forall i :: 0 <= i < |r.trace| ==> IsErrorHookCall(r.trace[i]) && r.trace[i].config == config
    ensures fault.ClientFault? ==>
              forall i :: 0 <= i < |r.trace| ==>
                r.trace[i] == OnResponseErrorCalled(i, fault.error, fault.error.response, config)
    ensures fault.PlainError? ==>
              forall i :: 0 <= i < |r.trace| ==> r.trace[i] == OnRequestErrorCalled(i, fault, config)
    ensures ErrorHooksPass(hooks, fault, config) ==> r.fault == fault
    ensures ErrorHooksPass(hooks, fault, config) && fault.ClientFault? ==> |r.trace| == |Listed(hooks.onResponseError)|
    ensures ErrorHooksPass(hooks, fault, config) && fault.PlainError? ==> |r.trace| == |Listed(hooks.onRequestError)|
    ensures r.fault != fault ==> |r.trace| > 0 && Threw(hooks, r.trace[|r.trace| - 1], r.fault)
  {
    match fault
    case ClientFault(e) =>
      var n := RunOnResponseError(hooks.onResponseError, e, e.response, config);
      Raised(if n.result.Err? then n.result.error else fault, n.trace)
    case PlainError(_) =>
      var n := RunOnRequestError(hooks.onRequestError, fault, config);
      Raised(if n.result.Err? then n.result.error else fault, n.trace)
    case NonError(_) => Raised(fault, [])
  }

  /**
   * The runners never catch: error hooks run until the first one throws,
   * every call before the last returned normally, and when a routed hook
   * throws, the run stops at it and its fault is the one rethrown.
   */
  lemma {:induction false} ThrowingHookReplaces(hooks: Hooks, fault: Fault, config: Config)
    ensures var r := HandleFault(hooks, fault, config);
            (!ErrorHooksPass(hooks, fault, config) ==> |r.trace| > 0 && Threw(hooks, r.trace[|r.trace| - 1], r.fault)) &&
            forall i :: 0 <= i < |r.trace| - 1 ==> Returned(hooks, r.trace[i])
  {
    match fault
    case ClientFault(e) =>
      var n := RunOnResponseError(hooks.onResponseError, e, e.response, config);
      assert HandleFault(hooks, fault, config).trace == n.trace;
    case PlainError(_) =>
      var n := RunOnRequestError(hooks.onRequestError, fault, config);
      assert HandleFault(hooks, fault, config).trace == n.trace;
    case NonError(_) =>
  }

  /** The `beforeRequest` stage of a cycle: the hooks run on the merged configuration. */
  function Intercept(client: Client, options: Config): Run<Config> {
    RunBeforeRequest(client.hooks.beforeRequest, MergeConfig(options, client.defaults))
  }

  /** What the try block of a cycle ends with, and `interceptedConfig` as the catch block reads it. */
  datatype Attempted = Attempted(result: Result<Value, Fault>, trace: seq<Event>, config: Config)

  /**
   * The try block: the `beforeRequest` hooks, then the exchange on their
   * output. It calls no error hook. `interceptedConfig` is assigned only
   * once every `beforeRequest` hook has returned, so a fault from one of
   * them leaves it at the merged configuration. Its events keep the stage
   * order, and the only request it sends is the one prepared from the
   * intercepted configuration.
   */
  function TryBlock(client: Client, host: Host, url: string, options: Config): (o: Attempted)
    ensures NoErrorHook(o.trace)
    ensures InStageOrder(o.trace) && forall i :: 0 <= i < |o.trace| ==> Stage(o.trace[i]) <= 2
    ensures o.config == if Intercept(client, options).result.Ok? then Intercept(client, options).result.value
                        else MergeConfig(options, client.defaults)
    ensures Intercept(client, options).result.Err? ==>
              o.result == Err(Intercept(client, options).result.error) && o.trace == Intercept(client, options).trace
    ensures o.result.Ok? ==> Intercept(client, options).result.Ok?
    ensures Intercept(client, options).result.Ok? ==>
              o.result == Exchange(client.hooks, host, url, Intercept(client, options).result.value).result &&
              o.trace == Intercept(client, options).trace + Exchange(client.hooks, host, url, Intercept(client, options).result.value).trace
    ensures forall i :: 0 <= i < |o.trace| && o.trace[i].Sent? ==>
              Intercept(client, options).result.Ok? &&
              Prepare(host, url, Intercept(client, options).result.value) == Ok(o.trace[i].request)
  {
    var merged := MergeConfig(options, client.defaults);
    var before := RunBeforeRequest(client.hooks.beforeRequest, merged);
    assert before == Intercept(client, options);
    match before.result
    case Err(f) =>
      JoinTrace(before.trace, []);
      assert before.trace + [] == before.trace;
      Attempted(Err(f), before.trace, merged)
    case Ok(config) =>
      var x := Exchange(client.hooks, host, url, config);
      JoinTrace(before.trace, x.trace);
      Attempted(x.result, before.trace + x.trace, config)
  }

  /** `beforeRequest` calls followed by an exchange's events: stage order, no error hook, the send from the exchange. */
  lemma JoinTrace(b: seq<Event>, t: seq<Event>)
    requires forall i :: 0 <= i < |b| ==> b[i].BeforeRequestCalled?
    requires SendShaped(t)
    ensures NoErrorHook(b + t) && InStageOrder(b + t)
    ensures forall i :: 0 <= i < |b + t| ==> Stage((b + t)[i]) <= 2
    ensures forall i :: 0 <= i < |b + t| && (b + t)[i].Sent? ==> (b + t)[i] == t[0]
  {
    BeforeStage(b);
    ConcatInOrder(b, t, 0);
    ConcatConfigs(b, t, NoOptions);
  }

  /**
   * `request(url, options)`: the try block, and on a fault the catch block
   * with the configuration the try block left. A cycle succeeds exactly
   * when its try block does, with the same value and trace: the error hooks
   * never turn a failure into a success. Its events keep the stage order,
   * and every error hook sees the try block's configuration.
   */
  function Request(client: Client, host: Host, url: string, options: Config): (r: Run<Value>)
    ensures r.result.Ok? <==> TryBlock(client, host, url, options).result.Ok?
    ensures r.result.Ok? ==> r == Run(TryBlock(client, host, url, options).result, TryBlock(client, host, url, options).trace)
    ensures InStageOrder(r.trace)
    ensures HookConfigs(r.trace, TryBlock(client, host, url, options).config)
    ensures TryBlock(client, host, url, options).trace <= r.trace
    ensures forall i :: |TryBlock(client, host, url, options).trace| <= i < |r.trace| ==> IsErrorHookCall(r.trace[i])
    ensures TryBlock(client, host, url, options).result.Err? ==>
              var o := TryBlock(client, host, url, options);
              r == Run(Err(HandleFault(client.hooks, o.result.error, o.config).fault),
                       o.trace + HandleFault(client.hooks, o.result.error, o.config).trace)
  {
    var attempt := TryBlock(client, host, url, options);
    match attempt.result
    case Ok(v) => Run(Ok(v), attempt.trace)
    case Err(f) =>
      var raised := HandleFault(client.hooks, f, attempt.config);
      ErrorStage(raised.trace);
      ConcatInOrder(attempt.trace, raised.trace, 2);
      ConcatConfigs(attempt.trace, raised.trace, attempt.config);
      Run(Err(raised.fault), attempt.trace + raised.trace)
  }

  lemma BeforeStage(t: seq<Event>)
    requires forall i :: 0 <= i < |t| ==> t[i].BeforeRequestCalled?
    ensures InStageOrder(t) && NoErrorHook(t)
    ensures forall i :: 0 <= i < |t| ==> Stage(t[i]) == 0 && !t[i].Sent?
  {
  }

  lemma ErrorStage(t: seq<Event>)
    requires forall i :: 0 <= i < |t| ==> IsErrorHookCall(t[i])
    ensures InStageOrder(t) && forall i :: 0 <= i < |t| ==> Stage(t[i]) == 3
  {
  }

  lemma ConcatInOrder(a: seq<Event>, b: seq<Event>, k: nat)
    requires InStageOrder(a) && InStageOrder(b)
    requires forall i :: 0 <= i < |a| ==> Stage(a[i]) <= k
    requires forall j :: 0 <= j < |b| ==> k <= Stage(b[j])
    ensures InStageOrder(a + b)
    ensures forall i :: 0 <= i < |a + b| ==> (a + b)[i] == if i < |a| then a[i] else b[i - |a|]
  {
    forall i, j | 0 <= i < j < |a + b| ensures Stage((a + b)[i]) <= Stage((a + b)[j]) {
      if j < |a| {
      } else if i >= |a| {
        assert (a + b)[i] == b[i - |a|] && (a + b)[j] == b[j - |a|];
      } else {
        assert (a + b)[i] == a[i] && (a + b)[j] == b[j - |a|];
      }
    }
  }

  /** Every error-hook call in the trace sees `c`. */
  ghost predicate HookConfigs(t: seq<Event>, c: Config) {
    forall i :: 0 <= i < |t| && IsErrorHookCall(t[i]) ==> t[i].config == c
  }

  ghost predicate NoErrorHook(t: seq<Event>) {
    forall i :: 0 <= i < |t| ==> !IsErrorHookCall(t[i])
  }

  lemma ConcatConfigs(a: seq<Event>, b: seq<Event>, c: Config)
    requires HookConfigs(a, c) && HookConfigs(b, c)
    ensures HookConfigs(a + b, c)
    ensures NoErrorHook(a) && NoErrorHook(b) ==> NoErrorHook(a + b)
  {
    forall i | 0 <= i < |a + b| ensures (a + b)[i] == if i < |a| then a[i] else b[i - |a|] {
    }
  }

  /**
   * A failed cycle is its try block's events followed by the catch block's
   * calls, and it throws what the catch block rethrows: the try block's
   * fault, or the fault of the last error hook called.
   */
  lemma {:induction false} FailureOrigin(client: Client, host: Host, url: string, options: Config)
    ensures var r := Request(client, host, url, options);
            var o := TryBlock(client, host, url, options);
            r.result.Err? ==>
              r == Run(Err(HandleFault(client.hooks, o.result.error, o.config).fault),
                       o.trace + HandleFault(client.hooks, o.result.error, o.config).trace) &&
              (r.result.error == o.result.error ||
               (|r.trace| > 0 && Threw(client.hooks, r.trace[|r.trace| - 1], r.result.error)))
  {
    var o := TryBlock(client, host, url, options);
    if o.result.Err? {
      CaughtFault(client.hooks, o.result.error, o.config, o.trace);
    }
  }

  /** A catch block after the events `pre` throws the caught fault or the fault of the last error hook called. */
  lemma CaughtFault(hooks: Hooks, fault: Fault, config: Config, pre: seq<Event>)
    ensures var raised := HandleFault(hooks, fault, config);
            var t := pre + raised.trace;
            raised.fault == fault || (|t| > 0 && Threw(hooks, t[|t| - 1], raised.fault))
  {
    var raised := HandleFault(hooks, fault, config);
    if raised.fault != fault {
      assert (pre + raised.trace)[|pre + raised.trace| - 1] == raised.trace[|raised.trace| - 1];
    }
  }

  /**
   * Where a failed try block's fault goes: a `FetchClientError` to the
   * `onResponseError` hooks with its own response, another `Error` to the
   * `onRequestError` hooks, anything else to no hook. When every hook it
   * reaches returns normally, each is called once and the cycle rethrows
   * the fault itself.
   */
  lemma {:induction false} FaultRouting(client: Client, host: Host, url: string, options: Config)
    requires TryBlock(client, host, url, options).result.Err?
    ensures var f := TryBlock(client, host, url, options).result.error;
            var t := Request(client, host, url, options).trace;
            forall i :: 0 <= i < |t| && IsErrorHookCall(t[i]) ==>
              !f.NonError? &&
              (f.ClientFault? ==> t[i].OnResponseErrorCalled? && t[i].error == f.error && t[i].errorResponse == f.error.response) &&
              (f.PlainError? ==> t[i].OnRequestErrorCalled? && t[i].fault == f)
    ensures var o := TryBlock(client, host, url, options);
            ErrorHooksPass(client.hooks, o.result.error, o.config) ==>
              Request(client, host, url, options).result == Err(o.result.error) &&
              |ErrorCalls(Request(client, host, url, options).trace)| == RoutedCount(client.hooks, o.result.error)
  {
    var o := TryBlock(client, host, url, options);
    var r := Request(client, host, url, options);
    var raised := HandleFault(client.hooks, o.result.error, o.config);
    FailureOrigin(client, host, url, options);
    assert r.trace == o.trace + raised.trace;
    forall i | 0 <= i < |r.trace| && IsErrorHookCall(r.trace[i])
      ensures i >= |o.trace| && r.trace[i] == raised.trace[i - |o.trace|]
    {
    }
    ErrorCallsSplit(o.trace, raised.trace);
  }

  /** How many error hooks a fault is routed to. */
  ghost function RoutedCount(hooks: Hooks, fault: Fault): nat {
    match fault
    case ClientFault(_) => |Listed(hooks.onResponseError)|
    case PlainError(_) => |Listed(hooks.onRequestError)|
    case NonError(_) => 0
  }

  /** The error-hook calls of a trace, in order. */
  ghost function ErrorCalls(t: seq<Event>): (calls: seq<Event>)
    ensures |calls| <= |t|
  {
    if t == [] then []
    else (if IsErrorHookCall(t[0]) then [t[0]] else []) + ErrorCalls(t[1..])
  }

  lemma {:induction false} ErrorCallsSplit(stages: seq<Event>, calls: seq<Event>)
    requires forall i :: 0 <= i < |stages| ==> !IsErrorHookCall(stages[i])
    requires forall i :: 0 <= i < |calls| ==> IsErrorHookCall(calls[i])
    ensures ErrorCalls(stages + calls) == calls
    decreases |stages| + |calls|
  {
    if stages == [] {
      assert stages + calls == calls;
      if calls != [] {
        ErrorCallsSplit([], calls[1..]);
        assert [] + calls[1..] == calls[1..];
      }
    } else {
      assert (stages + calls)[1..] == stages[1..] + calls;
      ErrorCallsSplit(stages[1..], calls);
    }
  }

  /** The only request a cycle sends is the one prepared from the configuration the `beforeRequest` hooks returned. */
  lemma {:induction false} SentFromIntercepted(client: Client, host: Host, url: string, options: Config)
    ensures var t := Request(client, host, url, options).trace;
            forall i :: 0 <= i < |t| && t[i].Sent? ==>
              Intercept(client, options).result.Ok? &&
              Prepare(host, url, Intercept(client, options).result.value) == Ok(t[i].request)
  {
    SentInPrefix(TryBlock(client, host, url, options).trace, Request(client, host, url, options).trace);
  }

  /** A trace that extends `o` only by error-hook calls has no send beyond `o`. */
  lemma SentInPrefix(o: seq<Event>, t: seq<Event>)
    requires o <= t
    requires forall i :: |o| <= i < |t| ==> IsErrorHookCall(t[i])
    ensures forall i :: 0 <= i < |t| && t[i].Sent? ==> i < |o| && t[i] == o[i]
  {
  }

  /**
   * The success path end to end: when the `beforeRequest` hooks, the
   * request's preparation, `fetch` and the `afterResponse` hooks all return,
   * and the final response is 2xx with a body that parses, the cycle returns
   * that parsed body; its events are the `beforeRequest` calls, the one send
   * and the `afterResponse` calls, and no error hook runs.
   */
  lemma {:induction false} OkResponseReturnsBody(client: Client, host: Host, url: string, options: Config,
                                                   config: Config, request: Outgoing, raw: Response, resp: Response, body: Value)
    requires Intercept(client, options).result == Ok(config)
    requires Prepare(host, url, config) == Ok(request)
    requires host.send(request) == Ok(raw)
    requires RunAfterResponse(client.hooks.afterResponse, raw, config).result == Ok(resp)
    requires IsOkStatus(resp.status)
    requires ParseResponse(host, resp, ResponseTypeOf(config)) == Ok(body)
    ensures Request(client, host, url, options).result == Ok(body)
    ensures Request(client, host, url, options).trace ==
              Intercept(client, options).trace + ([Sent(request)] + RunAfterResponse(client.hooks.afterResponse, raw, config).trace)
  {
  }

  /**
   * The host of the scenarios below: every URL resolves to
   * https://api.example.com/items, `fetch` answers `status` with no headers,
   * and the body is the JSON text "1".
   */
  function ScenarioHost(status: nat): (host: Host)
    ensures forall r: Outgoing :: host.send(r) == Ok(Response(status, HeaderList.Empty, Opaque(0)))
    ensures forall r: Response :: host.readText(r) == Ok("1")
    ensures host.parseJson("1") == Some(Opaque(1))
  {
    Host((u: string, b: Option<string>) => Ok(Url("https://api.example.com/items", [])),
         (s: SerializerRef, e: seq<(string, ParamValue)>) => Ok([]),
         (o: Opaque) => Ok(""),
         (r: Outgoing) => Ok(Response(status, HeaderList.Empty, Opaque(0))),
         (r: Response) => Ok("1"),
         (r: Response, how: BinaryRead) => Ok(Opaque(0)),
         (t: string) => Some(Opaque(1)))
  }

  /**
   * `get("/items")` on a client with no defaults and no hooks, against a host
   * where every call succeeds, the server answers 200 and the body is the
   * JSON text "1": the call returns the parsed value.
   */
  lemma JsonGetScenario()
    ensures var host := ScenarioHost(200);
            Get(Client(NoOptions, NoHooks), host, "/items", None).result == Ok(JsonValue(Opaque(1)))
  {
    var host := ScenarioHost(200);
    var client := Client(NoOptions, NoHooks);
    var options := VerbOptions(GET, None);
    var config := MergeConfig(options, NoOptions);
    assert Intercept(client, options).result == Ok(config);
    assert ResponseTypeOf(config) == "json";
    var request := Prepare(host, "/items", config).value;
    var raw := Response(200, HeaderList.Empty, Opaque(0));
    assert RunAfterResponse(client.hooks.afterResponse, raw, config).result == Ok(raw);
    assert HeaderList.Get(HeaderList.Empty, "content-length") == None;
    assert ParseResponse(host, raw, "json") == Ok(JsonValue(Opaque(1)));
    OkResponseReturnsBody(client, host, "/items", options, config, request, raw, raw, JsonValue(Opaque(1)));
  }

  /**
   * A URL that cannot be built sends nothing, and its URL_BUILD_ERROR, a
   * `FetchClientError`, goes to the `onResponseError` hooks with no
   * response.
   */
  lemma {:induction false} UrlBuildErrorRouting(client: Client, host: Host, url: string, options: Config)
    requires Intercept(client, options).result.Ok?
    requires TargetURL(host, url, Intercept(client, options).result.value).Err?
    ensures var e := TargetURL(host, url, Intercept(client, options).result.value).error;
            var t := Request(client, host, url, options).trace;
            e.kind == UrlBuildError &&
            forall i :: 0 <= i < |t| ==>
              !t[i].Sent? &&
              (IsErrorHookCall(t[i]) ==> t[i].OnResponseErrorCalled? && t[i].error == e && t[i].errorResponse.None?)
  {
    var config := Intercept(client, options).result.value;
    var e := TargetURL(host, url, config).error;
    assert Prepare(host, url, config) == Err(ClientFault(e));
    assert TryBlock(client, host, url, options).result == Err(ClientFault(e));
    FaultRouting(client, host, url, options);
    SentFromIntercepted(client, host, url, options);
  }

  /**
   * A non-ok response whose body parses fails with HTTP_ERROR, and the
   * `onResponseError` hooks get it with the after-hook response; one whose
   * JSON body does not parse fails with a plain `Error` instead, which goes
   * to the `onRequestError` hooks, whatever the status.
   */
  lemma {:induction false} NotOkRouting(client: Client, host: Host, url: string, options: Config,
                                         config: Config, request: Outgoing, raw: Response, resp: Response)
    requires Intercept(client, options).result == Ok(config)
    requires Prepare(host, url, config) == Ok(request)
    requires host.send(request) == Ok(raw)
    requires RunAfterResponse(client.hooks.afterResponse, raw, config).result == Ok(resp)
    requires !IsOkStatus(resp.status)
    ensures var parsed := ParseResponse(host, resp, ResponseTypeOf(config));
            var t := Request(client, host, url, options).trace;
            Request(client, host, url, options).result.Err? &&
            (parsed.Ok? ==>
              forall i :: 0 <= i < |t| && IsErrorHookCall(t[i]) ==>
                t[i].OnResponseErrorCalled? && t[i].error == HttpFailure(resp, parsed.value) && t[i].errorResponse == Some(resp)) &&
            (parsed.Err? && parsed.error.PlainError? ==>
              forall i :: 0 <= i < |t| && IsErrorHookCall(t[i]) ==> t[i].OnRequestErrorCalled? && t[i].fault == parsed.error)
  {
    var x := Exchange(client.hooks, host, url, config);
    assert x == Deliver(client.hooks, host, request, config);
    assert x.result == Conclude(host, resp, ResponseTypeOf(config));
    assert TryBlock(client, host, url, options).result == x.result;
    FaultRouting(client, host, url, options);
  }

  /**
   * `get("/items")` on a client with no defaults and no hooks, answered 404
   * with the JSON text "1": the call throws the HTTP_ERROR for that response,
   * carrying the parsed body.
   */
  lemma NotFoundScenario()
    ensures var host := ScenarioHost(404);
            Get(Client(NoOptions, NoHooks), host, "/items", None).result ==
              Err(ClientFault(HttpFailure(Response(404, HeaderList.Empty, Opaque(0)), JsonValue(Opaque(1)))))
  {
    var host := ScenarioHost(404);
    var client := Client(NoOptions, NoHooks);
    var options := VerbOptions(GET, None);
    var config := MergeConfig(options, NoOptions);
    assert Intercept(client, options).result == Ok(config);
    assert ResponseTypeOf(config) == "json";
    var request := Prepare(host, "/items", config).value;
    var raw := Response(404, HeaderList.Empty, Opaque(0));
    assert RunAfterResponse(client.hooks.afterResponse, raw, config).result == Ok(raw);
    assert HeaderList.Get(HeaderList.Empty, "content-length") == None;
    assert ParseResponse(host, raw, "json") == Ok(JsonValue(Opaque(1)));
    NotOkRouting(client, host, "/items", options, config, request, raw, raw);
    var f := ClientFault(HttpFailure(raw, JsonValue(Opaque(1))));
    assert Exchange(client.hooks, host, "/items", config).result == Err(f);
    assert TryBlock(client, host, "/items", options).result == Err(f);
    assert ErrorHooksPass(client.hooks, f, TryBlock(client, host, "/items", options).config);
    FaultRouting(client, host, "/items", options);
  }

  /** `{ method: verb, ...options }`: the verb unless the options carry a `method` key, even an undefined one. */
  function VerbOptions(verb: RequestMethod, options: Option<Config>): (c: Config)
    ensures options.Some? && options.value.verb.Present? ==> c.verb == options.value.verb
    ensures options.None? || options.value.verb.Absent? ==> c.verb == Present(Some(verb))
    ensures options.Some? ==> c.(verb := options.value.verb) == options.value
    ensures options.None? ==> c.(verb := Absent) == NoOptions
  {
    var o := if options.Some? then options.value else NoOptions;
    if o.verb.Present? then o else o.(verb := Present(Some(verb)))
  }

  function Get(client: Client, host: Host, url: string, options: Option<Config>): Run<Value> {
    Request(client, host, url, VerbOptions(GET, options))
  }

  function Post(client: Client, host: Host, url: string, options: Option<Config>): Run<Value> {
    Request(client, host, url, VerbOptions(POST, options))
  }

  function Put(client: Client, host: Host, url: string, options: Option<Config>): Run<Value> {
    Request(client, host, url, VerbOptions(PUT, options))
  }

  function Delete(client: Client, host: Host, url: string, options: Option<Config>): Run<Value> {
    Request(client, host, url, VerbOptions(DELETE, options))
  }

  function Patch(client: Client, host: Host, url: string, options: Option<Config>): Run<Value> {
    Request(client, host, url, VerbOptions(PATCH, options))
  }

  function Options(client: Client, host: Host, url: string, options: Option<Config>): Run<Value> {
    Request(client, host, url, VerbOptions(OPTIONS, options))
  }

  function Head(client: Client, host: Host, url: string, options: Option<Config>): Run<Value> {
    Request(client, host, url, VerbOptions(HEAD, options))
  }

  /**
   * `get(url, { method: "POST" })` and its kin send the caller's method: with
   * no `beforeRequest` hook to change it, every request the cycle sends
   * carries the method key of the options, not the wrapper's verb.
   */
  lemma {:induction false} CallerMethodWins(client: Client, host: Host, url: string, verb: RequestMethod, options: Config)
    requires options.verb.Present?
    requires Listed(client.hooks.beforeRequest) == []
    ensures var t := Request(client, host, url, VerbOptions(verb, Some(options))).trace;
            forall i :: 0 <= i < |t| && t[i].Sent? ==> t[i].request.verb == options.verb.value
  {
    var merged := MergeConfig(VerbOptions(verb, Some(options)), client.defaults);
    assert merged.verb == options.verb;
    assert Intercept(client, VerbOptions(verb, Some(options))) == Run(Ok(merged), []);
    SentFromIntercepted(client, host, url, VerbOptions(verb, Some(options)));
  }
}
