/**
 * The create handler: decodes the request body, validates it, picks a short code, writes the
 * record under `<code>.json` and answers with the code and the shortened URL.
 */
module Creator {
  import opened Wrappers
  import opened Jdk
  import Json
  import CreatorDto
  import Store

  /** The two exception classes the handler tells apart. */
  datatype Failure = IllegalArgument(message: string) | Unexpected

  type BodyMap = map<string, Json.Value>

  const BODY := "body"
  const ORIGINAL_URL := "originalUrl"
  const EXPIRATION_TIME := "expirationTime"
  const CODE := "code"
  const SHORTENED_URL := "shortenedUrl"
  const ERROR := "error"

  const BODY_MISSING := "Request body is missing"
  const JSON_ERROR_PREFIX := "Error parsing JSON body: "
  const URL_MISSING := "Missing or empty 'originalUrl'"
  const EXPIRATION_MISSING := "Missing or empty 'expirationTime'"
  const EXPIRATION_INVALID := "Invalid 'expirationTime', must be a valid number"
  const INVALID_INPUT_PREFIX := "Invalid input: "
  const INTERNAL_ERROR := "Internal Server Error"
  const KEY_SUFFIX := ".json"

  /** True when `m` maps `key` to a non-empty string. */
  predicate HasText(m: BodyMap, key: string) {
    key in m && m[key].Str? && m[key].s != ""
  }

  /** True when the body text is a Java `null` or the empty string. */
  predicate BodyAbsent(input: map<string, Json.Value>) {
    BODY !in input || input[BODY] == Json.Null || input[BODY] == Json.Str("")
  }

  /**
   * `parseRequestBody`: the `body` entry cast to `String`, refused when null or empty,
   * then decoded as a map; the value `None` is the `null` a JSON `null` body decodes to.
   */
  function ParseRequestBody(mapper: Json.ObjectMapper, input: map<string, Json.Value>): (r: Result<Option<BodyMap>, Failure>)
    ensures BodyAbsent(input) ==> r == Failure(IllegalArgument(BODY_MISSING))
    ensures BODY in input && input[BODY].NonString? ==> r == Failure(Unexpected)
    ensures !BodyAbsent(input) && input[BODY].Str? && mapper.readBody(input[BODY].s).ParseError? ==>
              r == Failure(IllegalArgument(JSON_ERROR_PREFIX + mapper.readBody(input[BODY].s).message))
    ensures !BodyAbsent(input) && input[BODY].Str? && mapper.readBody(input[BODY].s).Object? ==>
              r == Success(Some(mapper.readBody(input[BODY].s).fields))
    ensures !BodyAbsent(input) && input[BODY].Str? && mapper.readBody(input[BODY].s).NullLiteral? ==>
              r == Success(None)
    ensures r.Success? ==>
              && !BodyAbsent(input) && input[BODY].Str?
              && (match mapper.readBody(input[BODY].s)
                  case Object(fields) => r.value == Some(fields)
                  case NullLiteral => r.value == None
                  case ParseError(_) => false)
  {
    var body := if BODY in input then input[BODY] else Json.Null;
    match body
    case NonString => Failure(Unexpected)
    case Null => Failure(IllegalArgument(BODY_MISSING))
    case Str(text) =>
      if text == "" then Failure(IllegalArgument(BODY_MISSING))
      else
        match mapper.readBody(text)
        case Object(fields) => Success(Some(fields))
        case NullLiteral => Success(None)
        case ParseError(message) => Failure(IllegalArgument(JSON_ERROR_PREFIX + message))
  }

  /**
   * `validateRequestBody`: the checks in source order, the first failing one deciding the
   * exception. Calling a method on a `null` map or value, or on a value that is not a string,
   * throws an exception other than `IllegalArgumentException`.
   */
  function ValidateRequestBody(bodyMap: Option<BodyMap>): (r: Outcome<Failure>)
    ensures r == Pass <==>
              bodyMap.Some? && HasText(bodyMap.value, ORIGINAL_URL) && HasText(bodyMap.value, EXPIRATION_TIME)
              && ParseLong(bodyMap.value[EXPIRATION_TIME].s).Some?
    ensures r == Fail(IllegalArgument(URL_MISSING)) <==>
              bodyMap.Some? && (ORIGINAL_URL !in bodyMap.value || bodyMap.value[ORIGINAL_URL] == Json.Str(""))
    ensures r == Fail(IllegalArgument(EXPIRATION_MISSING)) <==>
              bodyMap.Some? && HasText(bodyMap.value, ORIGINAL_URL)
              && (EXPIRATION_TIME !in bodyMap.value || bodyMap.value[EXPIRATION_TIME] == Json.Str(""))
    ensures r == Fail(IllegalArgument(EXPIRATION_INVALID)) <==>
              bodyMap.Some? && HasText(bodyMap.value, ORIGINAL_URL) && HasText(bodyMap.value, EXPIRATION_TIME)
              && ParseLong(bodyMap.value[EXPIRATION_TIME].s).None?
    ensures r == Fail(Unexpected) <==>
              || bodyMap.None?
              || (ORIGINAL_URL in bodyMap.value && !bodyMap.value[ORIGINAL_URL].Str?)
              || (HasText(bodyMap.value, ORIGINAL_URL)
                  && EXPIRATION_TIME in bodyMap.value && !bodyMap.value[EXPIRATION_TIME].Str?)
  {
    match bodyMap
    case None => Fail(Unexpected)
    case Some(m) =>
      if ORIGINAL_URL !in m then Fail(IllegalArgument(URL_MISSING))
      else if !m[ORIGINAL_URL].Str? then Fail(Unexpected)
      else if m[ORIGINAL_URL].s == "" then Fail(IllegalArgument(URL_MISSING))
      else if EXPIRATION_TIME !in m then Fail(IllegalArgument(EXPIRATION_MISSING))
      else if !m[EXPIRATION_TIME].Str? then Fail(Unexpected)
      else if m[EXPIRATION_TIME].s == "" then Fail(IllegalArgument(EXPIRATION_MISSING))
      else if ParseLong(m[EXPIRATION_TIME].s).None? then Fail(IllegalArgument(EXPIRATION_INVALID))
      else Pass
  }

  /** The first two steps of `handleRequest`: the body map, once decoded and validated. */
  function ValidatedRequest(mapper: Json.ObjectMapper, input: map<string, Json.Value>): (r: Result<BodyMap, Failure>)
    ensures r.Success? ==> ValidateRequestBody(Some(r.value)) == Pass
    ensures r.Success? ==> ParseRequestBody(mapper, input) == Success(Some(r.value))
    ensures r.Success? <==> ParseRequestBody(mapper, input).Success? && ValidateRequestBody(ParseRequestBody(mapper, input).value) == Pass
    ensures r.Failure? ==>
              r.error == if ParseRequestBody(mapper, input).Failure? then ParseRequestBody(mapper, input).error
                         else ValidateRequestBody(ParseRequestBody(mapper, input).value).error
  {
    match ParseRequestBody(mapper, input)
    case Failure(f) => Failure(f)
    case Success(bodyMap) =>
      match ValidateRequestBody(bodyMap)
      case Fail(f) => Failure(f)
      case Pass => Success(bodyMap.value)
  }

  /** `generateShortUrlCode`: the first eight characters of the random UUID's text. */
  function GenerateShortUrlCode(uuid: string): (code: string)
    requires IsUuidText(uuid)
    ensures |code| == 8
    ensures forall i :: 0 <= i < |code| ==> IsLowerHexDigit(code[i])
    ensures '/' !in code
  {
    uuid[..8]
  }

  /** `createUrlData`: the record holds the URL verbatim and the parsed expiration time. */
  function CreateUrlData(bodyMap: BodyMap): (d: CreatorDto.UrlData)
    requires ValidateRequestBody(Some(bodyMap)) == Pass
    ensures Json.Str(d.originalUrl) == bodyMap[ORIGINAL_URL] && d.originalUrl != ""
    ensures ParseLong(bodyMap[EXPIRATION_TIME].s) == Some(d.expirationTime)
  {
    CreatorDto.UrlData(bodyMap[ORIGINAL_URL].s, ParseLong(bodyMap[EXPIRATION_TIME].s).value)
  }

  /** `generateS3Key`: the object name of a short code. */
  function GenerateS3Key(code: string): (key: string)
    ensures |key| == |code| + |KEY_SUFFIX| && key[..|code|] == code && key[|code|..] == KEY_SUFFIX
  {
    code + KEY_SUFFIX
  }

  /** Distinct codes are stored under distinct keys. */
  lemma GenerateS3KeyInjective(a: string, b: string)
    requires GenerateS3Key(a) == GenerateS3Key(b)
    ensures a == b
  {
    assert a == GenerateS3Key(a)[..|a|];
  }

  /** `createResponse`: exactly the code and the base URL followed by the code. */
  function CreateResponse(code: string, baseUrl: string): (response: map<string, string>)
    ensures response.Keys == {CODE, SHORTENED_URL}
    ensures response[CODE] == code && response[SHORTENED_URL] == baseUrl + code
  {
    map[CODE := code, SHORTENED_URL := baseUrl + code]
  }

  /** `createErrorResponse`: exactly one `error` entry. */
  function CreateErrorResponse(message: string): (response: map<string, string>)
    ensures response.Keys == {ERROR} && response[ERROR] == message
  {
    map[ERROR := message]
  }

  /** The two `catch` clauses of `handleRequest`. */
  function FailureResponse(f: Failure): (response: map<string, string>)
    ensures response.Keys == {ERROR}
    ensures f.IllegalArgument? ==> response[ERROR] == INVALID_INPUT_PREFIX + f.message
    ensures f.Unexpected? ==> response[ERROR] == INTERNAL_ERROR
  {
    match f
    case IllegalArgument(message) => CreateErrorResponse(INVALID_INPUT_PREFIX + message)
    case Unexpected => CreateErrorResponse(INTERNAL_ERROR)
  }

  /** A missing or empty body is refused before the codec is consulted. */
  lemma MissingBodyNeverDecodes(m1: Json.ObjectMapper, m2: Json.ObjectMapper, input: map<string, Json.Value>)
    requires BodyAbsent(input)
    ensures ParseRequestBody(m1, input) == ParseRequestBody(m2, input) == Failure(IllegalArgument(BODY_MISSING))
    ensures ValidatedRequest(m1, input) == Failure(IllegalArgument(BODY_MISSING))
  {
  }

  /** Negative expiration times are accepted: only the `long` syntax and range are checked. */
  lemma NegativeExpirationAccepted(url: string)
    requires url != ""
    ensures ValidateRequestBody(Some(map[ORIGINAL_URL := Json.Str(url), EXPIRATION_TIME := Json.Str("-5")])) == Pass
  {
    ParseLongSigned();
  }

  /** The expiration field is accepted, once the URL is, exactly when `Long.parseLong` accepts it. */
  lemma ExpirationAcceptedIffLong(url: string, expiration: string)
    requires url != ""
    ensures var m := map[ORIGINAL_URL := Json.Str(url), EXPIRATION_TIME := Json.Str(expiration)];
      (ValidateRequestBody(Some(m)) == Pass <==> ParseLong(expiration).Some?)
      && (expiration == "" ==> ValidateRequestBody(Some(m)) == Fail(IllegalArgument(EXPIRATION_MISSING)))
      && (expiration != "" && ParseLong(expiration).None? ==>
            ValidateRequestBody(Some(m)) == Fail(IllegalArgument(EXPIRATION_INVALID)))
  {
    assert ParseLong("") == None;
  }

  /** The create handler (`Main` of the create function) with its configuration and collaborators. */
  class Main {
    const bucket: Store.Bucket
    const objectMapper: Json.ObjectMapper
    const baseUrl: string

    constructor (bucket: Store.Bucket, objectMapper: Json.ObjectMapper, baseUrl: string)
      ensures this.bucket == bucket && this.objectMapper == objectMapper && this.baseUrl == baseUrl
    {
      this.bucket := bucket;
      this.objectMapper := objectMapper;
      this.baseUrl := baseUrl;
    }

    /** `saveUrlDataToS3`: one write under the code's key; any failure is rethrown as a generic exception. */
    method SaveUrlDataToS3(code: string, urlData: CreatorDto.UrlData) returns (r: Outcome<Failure>)
      modifies bucket
      ensures r.Pass? ==> bucket.objects == old(bucket.objects)[GenerateS3Key(code) := objectMapper.writeRecord(urlData)]
      ensures r.Fail? ==> r.error == Unexpected && bucket.objects == old(bucket.objects)
    {
      var json := objectMapper.writeRecord(urlData);
      var ok := bucket.PutObject(GenerateS3Key(code), json);
      r := if ok then Pass else Fail(Unexpected);
    }

    /**
     * `handleRequest`: `uuid` is the text of the random UUID drawn for this request.
     * A refused request writes nothing; an accepted one writes exactly the code's key,
     * overwriting any record already there.
     */
    method HandleRequest(input: map<string, Json.Value>, uuid: string) returns (response: map<string, string>)
      requires IsUuidText(uuid)
      modifies bucket
      ensures match ValidatedRequest(objectMapper, input)
        case Failure(f) =>
          response == FailureResponse(f) && bucket.objects == old(bucket.objects)
        case Success(bodyMap) =>
          var code := GenerateShortUrlCode(uuid);
          || (response == CreateResponse(code, baseUrl)
              && bucket.objects == old(bucket.objects)[GenerateS3Key(code) := objectMapper.writeRecord(CreateUrlData(bodyMap))])
          || (response == FailureResponse(Unexpected) && bucket.objects == old(bucket.objects))
    {
      var parsed := ParseRequestBody(objectMapper, input);
      if parsed.Failure? {
        return FailureResponse(parsed.error);
      }
      var bodyMap := parsed.value;
      var checked := ValidateRequestBody(bodyMap);
      if checked.Fail? {
        return FailureResponse(checked.error);
      }
      var code := GenerateShortUrlCode(uuid);
      var urlData := CreateUrlData(bodyMap.value);
      var saved := SaveUrlDataToS3(code, urlData);
      if saved.Fail? {
        return FailureResponse(saved.error);
      }
      response := CreateResponse(code, baseUrl);
    }
  }
}
