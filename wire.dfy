/**
 * The serialised form of the error types, as fixed by their serde attributes:
 *
 *   Status:          {"code": TOKEN, "message": ..., "error_details"?: [ErrorDetails...]}
 *   ErrorDetails:    {"type": "ERROR_INFO", "reason": ..., "domain": ..., "metadata"?: {...}}
 *   ErrorInfo:       {"reason": ..., "domain": ..., "metadata"?: {...}}
 *   ValidationError: {"type": "INVALID_FORMAT", "message": ...}
 *
 * The variant's fields sit beside the tag in one object. A key marked `?` is
 * left out when its collection is empty, and reads back as empty when absent.
 * Decoding ignores keys it does not know and, when a key is present, demands
 * the right JSON type (`null` is not an empty collection).
 */
module Wire {
  import opened Wrappers
  import opened JsonValue
  import opened Error

  /** Why a JSON value does not decode. */
  datatype DecodeError =
    | ExpectedObject
    | MissingField(field: string)
    | InvalidType(field: string)
    | UnknownVariant(tag: string)

  type Decoded<T> = Result<T, DecodeError>

  const ErrorInfoTag: string := "ERROR_INFO"

  // ---------------------------------------------------------------------------
  // Encoding
  // ---------------------------------------------------------------------------

  function EncodeMetadata(metadata: map<string, string>): (j: Json)
    ensures j.JObject? && j.fields.Keys == metadata.Keys
    ensures forall k :: k in metadata ==> j.fields[k] == JString(metadata[k])
  {
    JObject(map k | k in metadata :: JString(metadata[k]))
  }

  /** The fields of an ErrorInfo; `metadata` only when the map is non-empty. */
  function ErrorInfoFields(info: ErrorInfo): (fields: map<string, Json>)
    ensures fields.Keys == {"reason", "domain"} + (if info.metadata == map[] then {} else {"metadata"})
    ensures fields["reason"] == JString(info.reason) && fields["domain"] == JString(info.domain)
    ensures "metadata" in fields ==> fields["metadata"] == EncodeMetadata(info.metadata)
  {
    var base := map["reason" := JString(info.reason), "domain" := JString(info.domain)];
    if info.metadata == map[] then base else base["metadata" := EncodeMetadata(info.metadata)]
  }

  function EncodeErrorInfo(info: ErrorInfo): (j: Json)
    ensures j.JObject? && j.fields == ErrorInfoFields(info)
  {
    JObject(ErrorInfoFields(info))
  }

  /** The ErrorInfo variant: tag `type` beside the ErrorInfo's own fields. */
  function EncodeErrorDetails(d: ErrorDetails): (j: Json)
    ensures j.JObject?
    ensures j.fields.Keys == {"type"} + ErrorInfoFields(d.info).Keys
    ensures j.fields["type"] == JString(ErrorInfoTag)
    ensures forall k :: k in ErrorInfoFields(d.info) ==> j.fields[k] == ErrorInfoFields(d.info)[k]
  {
    match d
    case ErrorInfo(info) => JObject(ErrorInfoFields(info)["type" := JString(ErrorInfoTag)])
  }

  /** The detail list, element by element and in order. */
  function EncodeErrorDetailsList(ds: seq<ErrorDetails>): (items: seq<Json>)
    ensures |items| == |ds|
    ensures forall i :: 0 <= i < |ds| ==> items[i] == EncodeErrorDetails(ds[i])
  {
    if ds == [] then [] else [EncodeErrorDetails(ds[0])] + EncodeErrorDetailsList(ds[1..])
  }

  /** The fields of a payload; `error_details` only when the list is non-empty. */
  function StatusDetailsFields(d: StatusDetails): (fields: map<string, Json>)
    ensures fields.Keys == {"message"} + (if d.errorDetails == [] then {} else {"error_details"})
    ensures fields["message"] == JString(d.message)
    ensures "error_details" in fields ==> fields["error_details"] == JArray(EncodeErrorDetailsList(d.errorDetails))
  {
    var base := map["message" := JString(d.message)];
    if d.errorDetails == [] then base
    else base["error_details" := JArray(EncodeErrorDetailsList(d.errorDetails))]
  }

  /** Tag `code` holding the variant's token, beside the payload's fields. */
  function EncodeStatus(s: Status): (j: Json)
    ensures j.JObject?
    ensures j.fields.Keys == {"code", "message"} + (if s.details.errorDetails == [] then {} else {"error_details"})
    ensures j.fields["code"] == JString(Token(s))
    ensures j.fields["message"] == JString(s.details.message)
    ensures "error_details" in j.fields ==> j.fields["error_details"] == JArray(EncodeErrorDetailsList(s.details.errorDetails))
  {
    var token := Token(s);
    var fields := StatusDetailsFields(s.details);
    assert "code" !in fields;
    JObject(fields["code" := JString(token)])
  }

  /** Tag `type` holding the variant's token, beside `message`. */
  function EncodeValidationError(e: ValidationError): (j: Json)
    ensures j.JObject? && j.fields.Keys == {"type", "message"}
    ensures j.fields["type"] == JString("INVALID_FORMAT") && j.fields["message"] == JString(e.message)
  {
    match e
    case InvalidFormat(message) =>
      JObject(map["type" := JString(ValidationToken(e)), "message" := JString(message)])
  }

  // ---------------------------------------------------------------------------
  // Decoding
  // ---------------------------------------------------------------------------

  /** A required string field. */
  function StringField(fields: map<string, Json>, key: string): (r: Decoded<string>)
    ensures key !in fields ==> r == Failure(MissingField(key))
    ensures r.Success? <==> key in fields && fields[key].JString?
    ensures r.Success? ==> fields[key] == JString(r.value)
  {
    if key !in fields then Failure(MissingField(key))
    else match fields[key]
      case JString(s) => Success(s)
      case _ => Failure(InvalidType(key))
  }

  /** A metadata object: every value must be a string. */
  function DecodeMetadata(j: Json): (r: Decoded<map<string, string>>)
    ensures r.Success? <==> j.JObject? && forall k :: k in j.fields ==> j.fields[k].JString?
    ensures r.Success? ==> j.fields.Keys == r.value.Keys
    ensures r.Success? ==> forall k :: k in r.value ==> j.fields[k] == JString(r.value[k])
  {
    match j
    case JObject(fields) =>
      if forall k :: k in fields ==> fields[k].JString? then
        Success(map k | k in fields :: fields[k].str)
      else
        Failure(InvalidType("metadata"))
    case _ => Failure(InvalidType("metadata"))
  }

  /** The fields of an ErrorInfo; an absent `metadata` reads as the empty map. */
  function DecodeErrorInfoFields(fields: map<string, Json>): (r: Decoded<ErrorInfo>)
    ensures r.Success? <==>
              && StringField(fields, "reason").Success?
              && StringField(fields, "domain").Success?
              && ("metadata" in fields ==> DecodeMetadata(fields["metadata"]).Success?)
    ensures r.Success? ==> "reason" in fields && fields["reason"] == JString(r.value.reason)
    ensures r.Success? ==> "domain" in fields && fields["domain"] == JString(r.value.domain)
    ensures r.Success? && "metadata" in fields ==> DecodeMetadata(fields["metadata"]) == Success(r.value.metadata)
    ensures r.Success? && "metadata" !in fields ==> r.value.metadata == map[]
  {
    var reason :- StringField(fields, "reason");
    var domain :- StringField(fields, "domain");
    var metadata :- if "metadata" in fields then DecodeMetadata(fields["metadata"]) else Success(map[]);
    Success(ErrorInfo.ErrorInfo(reason, domain, metadata))
  }

  /** A standalone ErrorInfo: an object read through its fields. */
  function DecodeErrorInfo(j: Json): (r: Decoded<ErrorInfo>)
    ensures !j.JObject? ==> r == Failure(ExpectedObject)
    ensures j.JObject? ==> r == DecodeErrorInfoFields(j.fields)
  {
    match j
    case JObject(fields) => DecodeErrorInfoFields(fields)
    case _ => Failure(ExpectedObject)
  }

  /** The tag `type` picks the variant; the rest of the object is its ErrorInfo. */
  function DecodeErrorDetails(j: Json): (r: Decoded<ErrorDetails>)
    ensures !j.JObject? ==> r == Failure(ExpectedObject)
    ensures j.JObject? && "type" !in j.fields ==> r == Failure(MissingField("type"))
    ensures j.JObject? && "type" in j.fields && j.fields["type"].JString? && j.fields["type"].str != ErrorInfoTag
            ==> r == Failure(UnknownVariant(j.fields["type"].str))
    ensures j.JObject? && "type" in j.fields && j.fields["type"] == JString(ErrorInfoTag)
            ==> (r.Success? <==> DecodeErrorInfoFields(j.fields).Success?)
    ensures r.Success? ==> j.JObject? && "type" in j.fields && j.fields["type"] == JString(ErrorInfoTag)
    ensures r.Success? ==> DecodeErrorInfoFields(j.fields) == Success(r.value.info)
  {
    match j
    case JObject(fields) =>
      var tag :- StringField(fields, "type");
      if tag != ErrorInfoTag then Failure(UnknownVariant(tag))
      else
        var info :- DecodeErrorInfoFields(fields);
        Success(ErrorDetails.ErrorInfo(info))
    case _ => Failure(ExpectedObject)
  }

  /** Decodes a list element by element, stopping at the first element that fails. */
  function DecodeErrorDetailsList(items: seq<Json>): (r: Decoded<seq<ErrorDetails>>)
    ensures r.Success? <==> forall i :: 0 <= i < |items| ==> DecodeErrorDetails(items[i]).Success?
    ensures r.Success? ==> |r.value| == |items|
    ensures r.Success? ==> forall i :: 0 <= i < |items| ==> DecodeErrorDetails(items[i]) == Success(r.value[i])
  {
    if items == [] then Success([])
    else
      var head :- DecodeErrorDetails(items[0]);
      var tail :- DecodeErrorDetailsList(items[1..]);
      assert forall i :: 1 <= i < |items| ==> items[i] == items[1..][i - 1];
      Success([head] + tail)
  }

  /** The payload's fields; an absent `error_details` reads as the empty list. */
  function DecodeStatusDetailsFields(fields: map<string, Json>): (r: Decoded<StatusDetails>)
    ensures r.Success? ==> "message" in fields && fields["message"] == JString(r.value.message)
    ensures "error_details" in fields && !fields["error_details"].JArray? ==> r.Failure?
    ensures r.Success? && "error_details" in fields
            ==> DecodeErrorDetailsList(fields["error_details"].items) == Success(r.value.errorDetails)
    ensures r.Success? && "error_details" !in fields ==> r.value.errorDetails == []
    ensures StringField(fields, "message").Success? && "error_details" !in fields ==> r.Success?
    ensures (StringField(fields, "message").Success? && "error_details" in fields && fields["error_details"].JArray?
             && DecodeErrorDetailsList(fields["error_details"].items).Success?) ==> r.Success?
  {
    var message :- StringField(fields, "message");
    var errorDetails :-
      if "error_details" !in fields then Success([])
      else match fields["error_details"]
        case JArray(items) => DecodeErrorDetailsList(items)
        case _ => Failure(InvalidType("error_details"));
    Success(StatusDetails(message, errorDetails))
  }

  /**
   * The tag `code` is read first and must name one of the sixteen variants;
   * the remaining fields are then read as the payload.
   */
  function DecodeStatus(j: Json): (r: Decoded<Status>)
    ensures !j.JObject? ==> r == Failure(ExpectedObject)
    ensures j.JObject? && "code" !in j.fields ==> r == Failure(MissingField("code"))
    ensures j.JObject? && "code" in j.fields && j.fields["code"].JString? && j.fields["code"].str !in StatusTokens
            ==> r == Failure(UnknownVariant(j.fields["code"].str))
    ensures j.JObject? && "code" in j.fields && j.fields["code"].JString? && j.fields["code"].str in StatusTokens
            ==> (r.Success? <==> DecodeStatusDetailsFields(j.fields).Success?)
    ensures r.Success? ==> j.JObject? && "code" in j.fields && j.fields["code"] == JString(Token(r.value))
    ensures r.Success? ==> DecodeStatusDetailsFields(j.fields) == Success(r.value.details)
  {
    match j
    case JObject(fields) =>
      var tag :- StringField(fields, "code");
      if tag !in StatusTokens then Failure(UnknownVariant(tag))
      else
        var details :- DecodeStatusDetailsFields(fields);
        Success(FromToken(tag, details).value)
    case _ => Failure(ExpectedObject)
  }

  function DecodeValidationError(j: Json): (r: Decoded<ValidationError>)
    ensures !j.JObject? ==> r == Failure(ExpectedObject)
    ensures j.JObject? && "type" !in j.fields ==> r == Failure(MissingField("type"))
    ensures j.JObject? && "type" in j.fields && j.fields["type"].JString? && j.fields["type"].str != "INVALID_FORMAT"
            ==> r == Failure(UnknownVariant(j.fields["type"].str))
    ensures j.JObject? && "type" in j.fields && j.fields["type"] == JString("INVALID_FORMAT")
            ==> (r.Success? <==> StringField(j.fields, "message").Success?)
    ensures r.Success? ==> j.JObject? && "type" in j.fields && j.fields["type"] == JString("INVALID_FORMAT")
    ensures r.Success? ==> "message" in j.fields && j.fields["message"] == JString(r.value.message)
  {
    match j
    case JObject(fields) =>
      var tag :- StringField(fields, "type");
      if tag != "INVALID_FORMAT" then Failure(UnknownVariant(tag))
      else
        var message :- StringField(fields, "message");
        Success(InvalidFormat(message))
    case _ => Failure(ExpectedObject)
  }

  // ---------------------------------------------------------------------------
  // Round trips
  // ---------------------------------------------------------------------------

  lemma MetadataRoundTrip(metadata: map<string, string>)
    ensures DecodeMetadata(EncodeMetadata(metadata)) == Success(metadata)
  {
    var fields := EncodeMetadata(metadata).fields;
    var back := map k | k in fields :: fields[k].str;
    assert back.Keys == metadata.Keys;
    assert back == metadata;
  }

  /** Decoding an encoded ErrorInfo gives it back, also when its metadata is empty and so absent. */
  lemma ErrorInfoRoundTrip(info: ErrorInfo)
    ensures DecodeErrorInfo(EncodeErrorInfo(info)) == Success(info)
  {
    ErrorInfoFieldsRoundTrip(info, ErrorInfoFields(info));
  }

  /** The ErrorInfo's fields read back from any object that holds them, whatever else it holds. */
  lemma ErrorInfoFieldsRoundTrip(info: ErrorInfo, fields: map<string, Json>)
    requires forall k :: k in ErrorInfoFields(info) ==> k in fields && fields[k] == ErrorInfoFields(info)[k]
    requires "metadata" !in ErrorInfoFields(info) ==> "metadata" !in fields
    ensures DecodeErrorInfoFields(fields) == Success(info)
  {
    if info.metadata != map[] {
      MetadataRoundTrip(info.metadata);
    }
  }

  lemma ErrorDetailsRoundTrip(d: ErrorDetails)
    ensures DecodeErrorDetails(EncodeErrorDetails(d)) == Success(d)
  {
    ErrorInfoFieldsRoundTrip(d.info, EncodeErrorDetails(d).fields);
  }

  /** Decoding an encoded detail list gives back the same details in the same order. */
  lemma ErrorDetailsListRoundTrip(ds: seq<ErrorDetails>)
    ensures DecodeErrorDetailsList(EncodeErrorDetailsList(ds)) == Success(ds)
  {
    var items := EncodeErrorDetailsList(ds);
    forall i | 0 <= i < |ds|
      ensures DecodeErrorDetails(items[i]) == Success(ds[i])
    {
      ErrorDetailsRoundTrip(ds[i]);
    }
    assert DecodeErrorDetailsList(items).value == ds;
  }

  /**
   * Decoding an encoded status gives it back, for every variant and whether
   * or not it has details.
   */
  lemma StatusRoundTrip(s: Status)
    ensures DecodeStatus(EncodeStatus(s)) == Success(s)
  {
    var fields := EncodeStatus(s).fields;
    StatusDetailsFieldsRoundTrip(s.details, fields);
    TokenRoundTrip(s);
  }

  /** The payload is read back from any object holding the encoded payload's entries. */
  lemma StatusDetailsFieldsRoundTrip(d: StatusDetails, fields: map<string, Json>)
    requires "message" in fields && fields["message"] == JString(d.message)
    requires d.errorDetails == [] ==> "error_details" !in fields
    requires d.errorDetails != [] ==> "error_details" in fields && fields["error_details"] == JArray(EncodeErrorDetailsList(d.errorDetails))
    ensures DecodeStatusDetailsFields(fields) == Success(d)
  {
    if d.errorDetails != [] {
      ErrorDetailsListRoundTrip(d.errorDetails);
    }
  }

  lemma ValidationErrorRoundTrip(e: ValidationError)
    ensures DecodeValidationError(EncodeValidationError(e)) == Success(e)
  {
  }

  // ---------------------------------------------------------------------------
  // What the decoders read
  // ---------------------------------------------------------------------------

  /** A key outside `code`, `message` and `error_details` makes no difference to a status's decoding. */
  lemma DecodeStatusIgnoresUnknownKeys(fields: map<string, Json>, key: string, value: Json)
    requires key !in {"code", "message", "error_details"}
    ensures DecodeStatus(JObject(fields[key := value])) == DecodeStatus(JObject(fields))
  {
  }

  /** An explicit empty `error_details` array reads like an absent one. */
  lemma EmptyErrorDetailsReadAsAbsent(fields: map<string, Json>)
    requires "error_details" !in fields
    ensures DecodeStatus(JObject(fields["error_details" := JArray([])])) == DecodeStatus(JObject(fields))
  {
  }

  /** An explicit empty `metadata` object reads like an absent one. */
  lemma EmptyMetadataReadAsAbsent(fields: map<string, Json>)
    requires "metadata" !in fields
    ensures DecodeErrorInfoFields(fields["metadata" := JObject(map[])]) == DecodeErrorInfoFields(fields)
  {
  }

  /**
   * An ErrorInfo read from any object encodes back to entries of that object;
   * a `metadata` entry the re-encoding leaves out was the empty object.
   */
  lemma ErrorInfoDecodedIsCanonical(fields: map<string, Json>)
    requires DecodeErrorInfoFields(fields).Success?
    ensures forall k :: k in ErrorInfoFields(DecodeErrorInfoFields(fields).value) ==>
              k in fields && fields[k] == ErrorInfoFields(DecodeErrorInfoFields(fields).value)[k]
    ensures "metadata" in fields && "metadata" !in ErrorInfoFields(DecodeErrorInfoFields(fields).value)
            ==> fields["metadata"] == JObject(map[])
  {
    var info := DecodeErrorInfoFields(fields).value;
    if "metadata" in fields {
      var m := fields["metadata"];
      assert m.fields.Keys == info.metadata.Keys;
      assert m == EncodeMetadata(info.metadata);
    }
  }

  /**
   * A validation error read from any object encodes back to that object's
   * `type` and `message` entries, and nothing else.
   */
  lemma ValidationErrorDecodedIsCanonical(j: Json)
    requires DecodeValidationError(j).Success?
    ensures EncodeValidationError(DecodeValidationError(j).value).fields
            == map k | k in j.fields && k in {"type", "message"} :: j.fields[k]
  {
  }

  // ---------------------------------------------------------------------------
  // The unit tests' expectations about the serialised form
  // ---------------------------------------------------------------------------

  lemma SampleStatusSerialization()
    ensures EncodeStatus(SampleStatus()) == JObject(map[
      "code" := JString("UNKNOWN"),
      "message" := JString("Unsure about that"),
      "error_details" := JArray([
        JObject(map[
          "type" := JString("ERROR_INFO"),
          "reason" := JString("UNKNOWN_FAULT"),
          "domain" := JString("com.appbiotic.error")])])])
  {
    var s := SampleStatus();
    var detail := EncodeErrorDetails(s.details.errorDetails[0]);
    assert detail == JObject(map[
      "type" := JString("ERROR_INFO"),
      "reason" := JString("UNKNOWN_FAULT"),
      "domain" := JString("com.appbiotic.error")]);
    assert EncodeErrorDetailsList(s.details.errorDetails) == [detail];
  }

  /** The gRPC spelling of the misspelt code is no status tag. */
  lemma GrpcSpellingIsRejected()
    ensures DecodeStatus(JObject(map["code" := JString("RESOURCE_EXHAUSTED"), "message" := JString("m")]))
            == Failure(UnknownVariant("RESOURCE_EXHAUSTED"))
    ensures DecodeStatus(JObject(map["code" := JString("RESOURCE_EXHAUSED"), "message" := JString("m")]))
            == Success(ResourceExhaused(StatusDetails("m", [])))
  {
  }

  /** Inputs no encoder writes, with extra keys, still decode. */
  lemma ExtraKeysStillDecode()
    ensures DecodeStatusDetailsFields(map["message" := JString("m"), "error_details" := JArray([
              JObject(map["type" := JString("ERROR_INFO"), "reason" := JString("r"), "domain" := JString("d"), "x" := JNumber(1)])])])
            == Success(StatusDetails("m", [ErrorDetails.ErrorInfo(ErrorInfo.ErrorInfo("r", "d", map[]))]))
    ensures DecodeValidationError(JObject(map["type" := JString("INVALID_FORMAT"), "message" := JString("m"), "extra" := JNumber(0)]))
            == Success(InvalidFormat("m"))
  {
    var item := map["type" := JString("ERROR_INFO"), "reason" := JString("r"), "domain" := JString("d"), "x" := JNumber(1)];
    var info := ErrorInfo.ErrorInfo("r", "d", map[]);
    assert StringField(item, "reason") == Success("r");
    assert StringField(item, "domain") == Success("d");
    assert DecodeErrorInfoFields(item) == Success(info);
    assert DecodeErrorDetails(JObject(item)) == Success(ErrorDetails.ErrorInfo(info));
    var r := DecodeErrorDetailsList([JObject(item)]);
    assert r.Success? && |r.value| == 1 && r.value[0] == ErrorDetails.ErrorInfo(info);
    assert r.value == [ErrorDetails.ErrorInfo(info)];
  }

  lemma ValidationErrorSerialization()
    ensures EncodeValidationError(InvalidFormat("did not match regex")) == JObject(map[
      "type" := JString("INVALID_FORMAT"),
      "message" := JString("did not match regex")])
  {
  }
}
