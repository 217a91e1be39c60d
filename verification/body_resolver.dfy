/**
 * The two decision tables on the runtime shape of a request body:
 * `getContentType` picks the Content-Type to add (first match wins) and
 * `serializeBody` picks what is handed to the transport.
 */
module BodyResolver {
  import opened Wrappers
  import opened HeaderList
  import opened Types

  const FormUrlEncoded: string := "application/x-www-form-urlencoded;charset=UTF-8"
  const OctetStream: string := "application/octet-stream"
  const PlainText: string := "text/plain;charset=UTF-8"
  const JsonContent: string := "application/json;charset=UTF-8"

  /** A body that `== null` matches: a missing or undefined body, or null. */
  predicate IsNullish(body: Option<Body>) {
    body.None? || body.value.NullBody?
  }

  /** `getContentType(body, headers)`; None is the source's null. */
  function GetContentType(body: Option<Body>, headers: Headers): (r: Option<string>)
    ensures Has(headers, "Content-Type") ==> r.None?
    ensures IsNullish(body) ==> r.None?
    ensures r.Some? ==> r.value != ""
    ensures r == Some(JsonContent) && !body.value.BlobBody? <==> !Has(headers, "Content-Type") && body.Some? && body.value.ObjectBody?
    ensures !Has(headers, "Content-Type") && body.Some? && body.value.FormBody? ==> r.None?
    ensures !Has(headers, "Content-Type") && body.Some? && body.value.SearchParamsBody? ==> r == Some(FormUrlEncoded)
    ensures !Has(headers, "Content-Type") && body.Some? && body.value.BlobBody? ==>
              r == Some(if body.value.mime != "" then body.value.mime else OctetStream)
    ensures !Has(headers, "Content-Type") && body.Some? && (body.value.BufferBody? || body.value.ViewBody? || body.value.StreamBody?) ==>
              r == Some(OctetStream)
    ensures !Has(headers, "Content-Type") && body.Some? && body.value.StringBody? ==> r == Some(PlainText)
    ensures body.Some? && body.value.PrimitiveBody? ==> r.None?
  {
    if Has(headers, "Content-Type") || IsNullish(body) || body.value.FormBody? then None
    else
      match body.value
      case SearchParamsBody(_) => Some(FormUrlEncoded)
      case BlobBody(mime, _) => Some(if mime != "" then mime else OctetStream)
      case BufferBody(_) => Some(OctetStream)
      case ViewBody(_) => Some(OctetStream)
      case StreamBody(_) => Some(OctetStream)
      case StringBody(_) => Some(PlainText)
      case ObjectBody(_) => Some(JsonContent)
      case PrimitiveBody(_) => None
  }

  /** `serializeBody(body)`: Ok(None) is the source's null; a fault of `JSON.stringify` propagates. */
  function SerializeBody(body: Option<Body>, stringify: Opaque -> Result<string, Fault>): (r: Result<Option<Wire>, Fault>)
    ensures IsNullish(body) ==> r == Ok(None)
    ensures r.Ok? && r.value.Some? && r.value.value.Passthrough? ==> body == Some(r.value.value.body)
    ensures r.Ok? && r.value.Some? && r.value.value.JsonText? ==>
              body.Some? && body.value.ObjectBody? && stringify(body.value.obj) == Ok(r.value.value.text)
    ensures r.Err? ==> body.Some? && body.value.ObjectBody? && stringify(body.value.obj) == Err(r.error)
    ensures body.Some? && body.value.PrimitiveBody? ==> r == Ok(None)
    ensures body.Some? && !body.value.NullBody? && !body.value.ObjectBody? && !body.value.PrimitiveBody? ==>
              r == Ok(Some(Passthrough(body.value)))
  {
    match body
    case None => Ok(None)
    case Some(b) =>
      match b
      case NullBody => Ok(None)
      case ObjectBody(obj) =>
        (match stringify(obj)
         case Ok(text) => Ok(Some(JsonText(text)))
         case Err(f) => Err(f))
      case PrimitiveBody(_) => Ok(None)
      case _ => Ok(Some(Passthrough(b)))
  }

  /**
   * The two tables agree whenever no Content-Type is set yet: a type is
   * inferred exactly for the bodies that are sent and are not FormData (the
   * transport types those itself); the JSON type goes with JSON text, every
   * other inferred type with the body handed over unchanged; and bodies
   * without a type (null, undefined, numbers, booleans, ...) are dropped.
   */
  lemma ContentTypeMatchesWire(body: Option<Body>, headers: Headers, stringify: Opaque -> Result<string, Fault>)
    requires !Has(headers, "Content-Type")
    ensures var ct := GetContentType(body, headers);
            var wire := SerializeBody(body, stringify);
      && (ct.None? <==> IsNullish(body) || body.value.FormBody? || body.value.PrimitiveBody?)
      && (ct.None? && !(body.Some? && body.value.FormBody?) ==> wire == Ok(None))
      && (body.Some? && body.value.FormBody? ==> wire == Ok(Some(Passthrough(body.value))))
      && (ct == Some(JsonContent) && !body.value.BlobBody? ==> wire.Err? || (wire.value.Some? && wire.value.value.JsonText?))
      && (ct.Some? && ct != Some(JsonContent) ==> wire == Ok(Some(Passthrough(body.value))))
  {
  }

  /** A POST of a plain object with no headers gets the JSON type and its JSON text as body. */
  lemma JsonBodyScenario(obj: Opaque, text: string, stringify: Opaque -> Result<string, Fault>)
    requires stringify(obj) == Ok(text)
    ensures GetContentType(Some(ObjectBody(obj)), Empty) == Some(JsonContent)
    ensures SerializeBody(Some(ObjectBody(obj)), stringify) == Ok(Some(JsonText(text)))
  {
  }
}
