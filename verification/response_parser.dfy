/**
 * Materializing a response body (`parseResponse`): an empty response (204,
 * or a content-length of exactly "0") is null whatever the type asked for;
 * "json" (or no type) reads the text, gives null for empty text and parses it
 * otherwise, throwing a plain error with a preview of at most 100 characters
 * when it is not JSON (RFC 8259); the other types read the matching
 * representation, and an unrecognized type reads text.
 */
module ResponseParser {
  import opened Wrappers
  import opened HeaderList
  import opened Types

  const JsonFailurePrefix: string := "Failed to parse JSON response: "

  /** How many characters of the offending text a parse failure shows. */
  const PreviewLength: nat := 100

  /** `text.slice(0, 100)`. */
  function Preview(text: string): (p: string)
    ensures p <= text
    ensures |p| == if |text| < PreviewLength then |text| else PreviewLength
  {
    if |text| <= PreviewLength then text else text[..PreviewLength]
  }

  /** A response that is null for every response type: status 204 or content-length exactly "0". */
  predicate IsEmptyResponse(resp: Response) {
    resp.status == 204 || Get(resp.headers, "content-length") == Some("0")
  }

  /** The JSON branch: read the text; empty text is null; otherwise parse it. */
  function ParseJsonBody(host: Host, resp: Response): (r: Result<Value, Fault>)
    ensures host.readText(resp).Err? ==> r == Err(host.readText(resp).error)
    ensures host.readText(resp) == Ok("") ==> r == Ok(NullValue)
    ensures host.readText(resp).Ok? && host.readText(resp).value != "" && host.parseJson(host.readText(resp).value).Some? ==>
              r == Ok(JsonValue(host.parseJson(host.readText(resp).value).value))
    ensures host.readText(resp).Ok? && host.readText(resp).value != "" && host.parseJson(host.readText(resp).value).None? ==>
              r == Err(PlainError(JsonFailurePrefix + Preview(host.readText(resp).value)))
    ensures r.Ok? && !r.value.NullValue? ==>
              r.value.JsonValue? && host.readText(resp).Ok? && host.parseJson(host.readText(resp).value) == Some(r.value.json)
    ensures r.Err? && host.readText(resp).Ok? ==>
              var text := host.readText(resp).value;
              text != "" && host.parseJson(text).None? && r.error == PlainError(JsonFailurePrefix + Preview(text))
  {
    var text :- host.readText(resp);
    if text == "" then Ok(NullValue)
    else
      match host.parseJson(text)
      case Some(json) => Ok(JsonValue(json))
      case None => Err(PlainError(JsonFailurePrefix + Preview(text)))
  }

  /** `parseResponse(response, responseType)`, with the response type as the string it is at run time. */
  function ParseResponse(host: Host, resp: Response, responseType: string): (r: Result<Value, Fault>)
    ensures IsEmptyResponse(resp) ==> r == Ok(NullValue)
    ensures !IsEmptyResponse(resp) && (responseType == "json" || responseType == "") ==> r == ParseJsonBody(host, resp)
    ensures r.Ok? && r.value.JsonValue? ==> responseType == "json" || responseType == ""
    ensures !IsEmptyResponse(resp) && responseType == "text" ==>
              r == (match host.readText(resp) case Ok(text) => Ok(TextValue(text)) case Err(f) => Err(f))
    ensures !IsEmptyResponse(resp) && responseType == "blob" ==> r == ReadAs(host, resp, ReadBlob)
    ensures !IsEmptyResponse(resp) && responseType == "arrayBuffer" ==> r == ReadAs(host, resp, ReadArrayBuffer)
    ensures !IsEmptyResponse(resp) && responseType == "formData" ==> r == ReadAs(host, resp, ReadFormData)
    ensures r.Err? && r.error.PlainError? && host.readText(resp).Ok? && (responseType == "json" || responseType == "") ==>
              var text := host.readText(resp).value;
              host.parseJson(text).None? && r.error.message == JsonFailurePrefix + Preview(text)
  {
    if IsEmptyResponse(resp) then Ok(NullValue)
    else if responseType == "json" || responseType == "" then ParseJsonBody(host, resp)
    else if responseType == "blob" then ReadAs(host, resp, ReadBlob)
    else if responseType == "arrayBuffer" then ReadAs(host, resp, ReadArrayBuffer)
    else if responseType == "formData" then ReadAs(host, resp, ReadFormData)
    else
      // "text", and every unrecognized type
      match host.readText(resp)
      case Ok(text) => Ok(TextValue(text))
      case Err(f) => Err(f)
  }

  /**
   * `response.blob()`, `response.arrayBuffer()` or `response.formData()`:
   * the host's read of that representation, wrapped as the matching value;
   * a failed read propagates.
   */
  function ReadAs(host: Host, resp: Response, how: BinaryRead): (r: Result<Value, Fault>)
    ensures host.readBinary(resp, how).Err? ==> r == Err(host.readBinary(resp, how).error)
    ensures host.readBinary(resp, how).Ok? && how == ReadBlob ==> r == Ok(BlobValue(host.readBinary(resp, how).value))
    ensures host.readBinary(resp, how).Ok? && how == ReadArrayBuffer ==> r == Ok(BufferValue(host.readBinary(resp, how).value))
    ensures host.readBinary(resp, how).Ok? && how == ReadFormData ==> r == Ok(FormValue(host.readBinary(resp, how).value))
  {
    match host.readBinary(resp, how)
    case Err(f) => Err(f)
    case Ok(v) =>
      Ok(match how
         case ReadBlob => BlobValue(v)
         case ReadArrayBuffer => BufferValue(v)
         case ReadFormData => FormValue(v))
  }

  /** A response type outside the declared union is read as text. */
  lemma UnrecognizedTypeReadsText(host: Host, resp: Response, responseType: string)
    requires forall t: ResponseType :: responseType != ResponseTypeName(t)
    requires responseType != ""
    ensures ParseResponse(host, resp, responseType) == ParseResponse(host, resp, "text")
  {
    assert responseType != ResponseTypeName(JsonType);
    assert responseType != ResponseTypeName(BlobType);
    assert responseType != ResponseTypeName(ArrayBufferType);
    assert responseType != ResponseTypeName(FormDataType);
  }

  /** A 204 is null for every response type, and no body is read. */
  lemma NoContentScenario(host: Host, headers: Headers, content: Opaque, responseType: string)
    ensures ParseResponse(host, Response(204, headers, content), responseType) == Ok(NullValue)
  {
  }
}
