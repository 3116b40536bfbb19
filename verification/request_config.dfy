/**
 * The enumerations of `LYBaseRequest.swift` and the default answers the
 * `LYRequestConfiguration` protocol extension gives a request that
 * overrides nothing.
 */
module RequestConfig {
  import opened Common

  /** `LYRequestMethod`, a Swift enum without raw values. */
  datatype Method = GET | POST | HEAD | PUT | DELETE | PATCH

  /**
   * The position of a method in its declaration; the cache file name
   * formats `requestMethod().rawValue` with `%ld`, and the enum has no raw
   * values, so the model uses this ordinal.
   */
  function MethodOrdinal(m: Method): (n: nat)
    ensures n < 6
  {
    match m
    case GET => 0
    case POST => 1
    case HEAD => 2
    case PUT => 3
    case DELETE => 4
    case PATCH => 5
  }

  /** Distinct methods have distinct ordinals. */
  lemma MethodOrdinalInjective(m1: Method, m2: Method)
    ensures MethodOrdinal(m1) == MethodOrdinal(m2) ==> m1 == m2
  {
  }

  datatype RequestSerializer = HttpRequestSerializer | JsonRequestSerializer
  datatype ResponseSerializer = HttpResponseSerializer | JsonResponseSerializer | XmlParserResponseSerializer

  /** `LYRequestPriority` and its `Int` raw values. */
  datatype Priority = Low | DefaultPriority | High

  function PriorityRawValue(p: Priority): int
  {
    match p
    case Low => -4
    case DefaultPriority => 0
    case High => 4
  }

  /** `LYRequestPriority(rawValue:)`. */
  function PriorityFromRawValue(raw: int): (p: Option<Priority>)
    ensures p.Some? <==> raw in {-4, 0, 4}
  {
    if raw == -4 then Some(Low)
    else if raw == 0 then Some(DefaultPriority)
    else if raw == 4 then Some(High)
    else None
  }

  /** The raw values round-trip, and order the priorities from low to high. */
  lemma PriorityRawValueRoundTrip(p: Priority, raw: int)
    ensures PriorityFromRawValue(PriorityRawValue(p)) == Some(p)
    ensures PriorityFromRawValue(raw).Some? ==> PriorityRawValue(PriorityFromRawValue(raw).value) == raw
    ensures PriorityRawValue(Low) < PriorityRawValue(DefaultPriority) < PriorityRawValue(High)
  {
  }

  /** `LYRequestValidationErrorType` and its `Int` raw values. */
  datatype ValidationErrorType = InvalidStatusCode | InvalidJSONFormat

  function ValidationErrorCode(t: ValidationErrorType): int
  {
    match t
    case InvalidStatusCode => -8
    case InvalidJSONFormat => -9
  }

  /** `LYRequestValidationErrorType(rawValue:)`. */
  function ValidationErrorFromCode(code: int): (t: Option<ValidationErrorType>)
    ensures t.Some? <==> code == -8 || code == -9
  {
    if code == -8 then Some(InvalidStatusCode)
    else if code == -9 then Some(InvalidJSONFormat)
    else None
  }

  lemma ValidationErrorCodeRoundTrip(t: ValidationErrorType, code: int)
    ensures ValidationErrorFromCode(ValidationErrorCode(t)) == Some(t)
    ensures ValidationErrorFromCode(code).Some? ==> ValidationErrorCode(ValidationErrorFromCode(code).value) == code
  {
  }

  /** A request argument dictionary (`[String: Any]`), values abstracted to their descriptions. */
  type Args = map<string, string>

  /** The answers a request gives to the configuration protocol. */
  datatype Configuration = Configuration(
    baseUrl: string,
    requestUrl: string,
    cdnUrl: string,
    argument: Option<Args>,
    httpMethod: Method,
    requestSerializer: RequestSerializer,
    responseSerializer: ResponseSerializer,
    useCDN: bool,
    allowsCellularAccess: bool,
    statusCodes: seq<int>,
    hasCustomUrlRequest: bool)

  /** `statusCodeValidator()`'s default, `Array(200..<300)`. */
  function DefaultStatusCodes(): (codes: seq<int>)
    ensures |codes| == 100
    ensures forall c :: c in codes <==> 200 <= c < 300
    ensures forall i :: 0 <= i < |codes| ==> codes[i] == 200 + i
  {
    var codes := seq(100, i => 200 + i);
    forall c | 200 <= c < 300
      ensures c in codes
    {
      assert codes[c - 200] == c;
    }
    codes
  }

  /** `cacheFileNameFilterForRequestArgument(_:)`'s default. */
  function DefaultArgumentFilter(a: Option<Args>): Option<Args>
  {
    a
  }

  /** The protocol extension's defaults: every member a request does not override. */
  function Defaults(): (c: Configuration)
    ensures c.httpMethod == GET
    ensures c.requestSerializer == HttpRequestSerializer && c.responseSerializer == HttpResponseSerializer
    ensures !c.useCDN && c.allowsCellularAccess
    ensures c.baseUrl == "" && c.requestUrl == "" && c.cdnUrl == "" && c.argument.None?
    ensures forall code :: code in c.statusCodes <==> 200 <= code < 300
    ensures !c.hasCustomUrlRequest
  {
    Configuration("", "", "", None, GET, HttpRequestSerializer, HttpResponseSerializer,
                  false, true, DefaultStatusCodes(), false)
  }
}
