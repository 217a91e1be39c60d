/**
 * The data the fetch wrapper works on: per-call options and the merged
 * configuration, bodies and query parameters as tagged variants, the request
 * handed to the transport, the response, the error taxonomy and what may be
 * thrown, the hook registry, the host capabilities the core calls into, and
 * the trace one request cycle leaves.
 */
module Types {
  import opened Wrappers
  import opened HeaderList

  /** A host value the core passes along without looking inside it
      (a parsed JSON value, a Blob's bytes, a stream, an abort signal, ...). */
  datatype Opaque = Opaque(id: nat)

  /**
   * One property of a JavaScript options object. The key may be missing, be
   * present holding `undefined` (`Present(None)`), or hold a value. Object
   * spread copies a key whenever it is present, whatever it holds.
   */
  datatype Field<T> = Absent | Present(value: Option<T>) {
    /** What destructuring reads: a missing key and `undefined` both read as None. */
    function Get(): Option<T> {
      if Present? then value else None
    }
  }

  /** The `method` option (`method` is a keyword here, so the fields holding it are named `verb`). */
  datatype RequestMethod = GET | POST | PUT | DELETE | PATCH | OPTIONS | HEAD

  /** The declared response types. At run time the option is a string and is compared as one. */
  datatype ResponseType = JsonType | TextType | BlobType | ArrayBufferType | FormDataType

  function ResponseTypeName(t: ResponseType): string {
    match t
    case JsonType => "json"
    case TextType => "text"
    case BlobType => "blob"
    case ArrayBufferType => "arrayBuffer"
    case FormDataType => "formData"
  }

  /** One (key, value) pair of a query string. */
  type Pair = (string, string)

  /**
   * A value of a params record, seen through `String(v)`: null or undefined,
   * an array (each element null/undefined or its string form), or a scalar's
   * string form.
   */
  datatype ParamValue = Nullish | List(items: seq<Option<string>>) | Scalar(text: string)

  /** `params`: a `URLSearchParams` (its pairs) or a plain record (its entries, in property order). */
  datatype Params =
    | SearchParams(pairs: seq<Pair>)
    | ParamsRecord(entries: seq<(string, ParamValue)>)

  /** A caller-supplied `paramsSerializer`; the host applies it (see `Host.serializeWith`). */
  datatype SerializerRef = SerializerRef(fn: Opaque)

  /** The runtime shapes a request body is told apart by. */
  datatype Body =
    | NullBody                              // null
    | FormBody(form: Opaque)                // FormData
    | SearchParamsBody(pairs: seq<Pair>)    // URLSearchParams
    | BlobBody(mime: string, data: Opaque)  // Blob, with its `type`
    | BufferBody(data: Opaque)              // ArrayBuffer
    | ViewBody(data: Opaque)                // an ArrayBuffer view (typed array, DataView)
    | StreamBody(data: Opaque)              // ReadableStream
    | StringBody(text: string)              // string
    | ObjectBody(obj: Opaque)               // any other object
    | PrimitiveBody(value: Opaque)          // number, boolean, bigint, symbol, function

  /**
   * Request options, client defaults and the merged configuration share one
   * shape: object spread copies every key of either side. `rest` holds the
   * pass-through `RequestInit` keys (credentials, redirect, signal, ...).
   */
  datatype Config = Config(
    baseURL: Field<string>,
    headers: Field<HeaderSource>,
    verb: Field<RequestMethod>,
    body: Field<Body>,
    responseType: Field<string>,
    params: Field<Params>,
    paramsSerializer: Field<SerializerRef>,
    rest: map<string, Opaque>)

  /** An options object with no keys at all. */
  const NoOptions: Config :=
    Config(Absent, Absent, Absent, Absent, Absent, Absent, Absent, map[])

  /** A parsed URL: everything but the query (as the resolver produced it), and the query pairs. */
  datatype Url = Url(location: string, query: seq<Pair>)

  /** What `serializeBody` hands to the transport: the body itself, or its JSON text. */
  datatype Wire = Passthrough(body: Body) | JsonText(text: string)

  /** The request handed to the transport. */
  datatype Outgoing = Outgoing(
    url: Url,
    verb: Option<RequestMethod>,
    headers: Headers,
    body: Option<Wire>,
    options: map<string, Opaque>)

  /** A response: its status, its headers, and a handle on its body. */
  datatype Response = Response(status: nat, headers: Headers, content: Opaque)

  /** `Response.ok`: the "ok status" range 200 to 299 of section 2.2.3 of the WHATWG Fetch Standard. */
  predicate IsOkStatus(status: nat) {
    200 <= status <= 299
  }

  /** A materialized response body. */
  datatype Value =
    | NullValue
    | JsonValue(json: Opaque)
    | TextValue(text: string)
    | BlobValue(blob: Opaque)
    | BufferValue(buffer: Opaque)
    | FormValue(form: Opaque)

  datatype ErrorKind = UrlBuildError | HttpError | NetworkError | TimeoutError

  /** A `FetchClientError`: message, type, optional response and status, and `cause`. */
  datatype ClientError = ClientError(
    message: string,
    kind: ErrorKind,
    response: Option<Response>,
    status: Option<nat>,
    cause: Cause)

  datatype Cause = FaultCause(fault: Fault) | BodyCause(parsed: Value)

  /**
   * A thrown value, by how the client's catch block tells it apart: a
   * `FetchClientError`, any other `Error`, or a value that is not an `Error`.
   */
  datatype Fault =
    | ClientFault(error: ClientError)
    | PlainError(message: string)
    | NonError(thrown: Opaque)

  datatype BinaryRead = ReadBlob | ReadArrayBuffer | ReadFormData

  /**
   * The host capabilities the core calls: URL resolution (`new URL(url, base)`),
   * a caller's params serializer (its output already split back into pairs),
   * `JSON.stringify`, the `fetch` transport, the response body reads and
   * `JSON.parse` (None when the text is not JSON). Each may throw.
   */
  datatype Host = Host(
    resolve: (string, Option<string>) -> Result<Url, Fault>,
    serializeWith: (SerializerRef, seq<(string, ParamValue)>) -> Result<seq<Pair>, Fault>,
    stringify: Opaque -> Result<string, Fault>,
    send: Outgoing -> Result<Response, Fault>,
    readText: Response -> Result<string, Fault>,
    readBinary: (Response, BinaryRead) -> Result<Opaque, Fault>,
    parseJson: string -> Option<Opaque>)

  type BeforeHook = Config -> Result<Config, Fault>
  type AfterHook = (Response, Config) -> Result<Response, Fault>
  type ResponseErrorHook = (ClientError, Option<Response>, Config) -> Result<(), Fault>
  type RequestErrorHook = (Fault, Config) -> Result<(), Fault>

  /** The hook registry: four optional ordered lists. */
  datatype Hooks = Hooks(
    beforeRequest: Option<seq<BeforeHook>>,
    afterResponse: Option<seq<AfterHook>>,
    onResponseError: Option<seq<ResponseErrorHook>>,
    onRequestError: Option<seq<RequestErrorHook>>)

  const NoHooks: Hooks := Hooks(None, None, None, None)

  /** One step of a request cycle: a hook called (its index and arguments) or the request sent. */
  datatype Event =
    | BeforeRequestCalled(index: nat, config: Config)
    | Sent(request: Outgoing)
    | AfterResponseCalled(index: nat, response: Response, config: Config)
    | OnResponseErrorCalled(index: nat, error: ClientError, errorResponse: Option<Response>, config: Config)
    | OnRequestErrorCalled(index: nat, fault: Fault, config: Config)

  predicate IsErrorHookCall(e: Event) {
    e.OnResponseErrorCalled? || e.OnRequestErrorCalled?
  }

  /** The stage of the request cycle an event belongs to. */
  function Stage(e: Event): nat {
    match e
    case BeforeRequestCalled(_, _) => 0
    case Sent(_) => 1
    case AfterResponseCalled(_, _, _) => 2
    case OnResponseErrorCalled(_, _, _, _) => 3
    case OnRequestErrorCalled(_, _, _) => 3
  }

  /** Events never go back to an earlier stage. */
  predicate InStageOrder(t: seq<Event>) {
    forall i, j :: 0 <= i < j < |t| ==> Stage(t[i]) <= Stage(t[j])
  }

  /** What a pipeline step returns or throws, and the trace it leaves. */
  datatype Run<T> = Run(result: Result<T, Fault>, trace: seq<Event>)
}
