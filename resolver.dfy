/**
 * The redirect handler: takes the code from the request path, reads `<code>.json`, decodes the
 * record and answers 302 to the original URL, or 410 once it has expired.
 */
module Resolver {
  import opened Wrappers
  import opened Jdk
  import Json
  import ResolverDto
  import Store
  import opened ResponseUtil

  /**
   * `BadRequest` covers the three exception classes answered with 400 and their message
   * (illegal argument, resource not found, invalid data); `Unexpected` is any other exception.
   */
  datatype Failure = BadRequest(message: string) | Unexpected

  const RAW_PATH := "rawPath"
  const KEY_SUFFIX := ".json"
  const INVALID_PATH := "Invalid path parameter"
  const NOT_FOUND := "Short URL not found."
  const MALFORMED := "Malformed URL data."
  const EXPIRED := "This URL has expired."
  const INTERNAL_ERROR := "Internal Server Error"

  /** `s.replace("/", "")`: every `/` deleted, the other characters kept in order. */
  function RemoveSlashes(s: string): (r: string)
    ensures '/' !in r
    ensures |r| <= |s|
  {
    if s == [] then []
    else if s[0] == '/' then RemoveSlashes(s[1..])
    else [s[0]] + RemoveSlashes(s[1..])
  }

  lemma {:induction false} RemoveSlashesAppend(a: string, b: string)
    ensures RemoveSlashes(a + b) == RemoveSlashes(a) + RemoveSlashes(b)
  {
    if a == [] {
      assert a + b == b;
    } else {
      assert (a + b)[0] == a[0] && (a + b)[1..] == a[1..] + b;
      RemoveSlashesAppend(a[1..], b);
    }
  }

  lemma {:induction false} RemoveSlashesKeepsSlashFree(s: string)
    requires '/' !in s
    ensures RemoveSlashes(s) == s
  {
    if s != [] {
      assert s == [s[0]] + s[1..];
      RemoveSlashesKeepsSlashFree(s[1..]);
    }
  }

  /** Removing the slashes twice is removing them once. */
  lemma RemoveSlashesIdempotent(s: string)
    ensures RemoveSlashes(RemoveSlashes(s)) == RemoveSlashes(s)
  {
    RemoveSlashesKeepsSlashFree(RemoveSlashes(s));
  }

  /** Slashes anywhere in the path are deleted, and the path `/` gives the empty code. */
  lemma RemoveSlashesExamples()
    ensures RemoveSlashes("/") == ""
    ensures RemoveSlashes("/ab/c/") == "abc"
  {
    assert "/ab/c/"[1..] == "ab/c/";
    assert "ab/c/"[1..] == "b/c/";
    assert "b/c/"[1..] == "/c/";
    assert "/c/"[1..] == "c/";
    assert "c/"[1..] == "/";
  }

  /** A leading slash in front of a slash-free code is the only thing removed. */
  lemma RemoveLeadingSlash(code: string)
    requires '/' !in code
    ensures RemoveSlashes("/" + code) == code
  {
    RemoveSlashesAppend("/", code);
    RemoveSlashesKeepsSlashFree(code);
  }

  /** True when the request's `rawPath` is a Java `null` or the empty string. */
  predicate PathAbsent(input: map<string, Json.Value>) {
    RAW_PATH !in input || input[RAW_PATH] == Json.Null || input[RAW_PATH] == Json.Str("")
  }

  /** `extractShortUrlCode`: `rawPath` cast to `String`, refused when null or empty, slashes removed. */
  function ExtractShortUrlCode(input: map<string, Json.Value>): (r: Result<string, Failure>)
    ensures r == Failure(BadRequest(INVALID_PATH)) <==> PathAbsent(input)
    ensures r == Failure(Unexpected) <==> RAW_PATH in input && input[RAW_PATH].NonString?
    ensures RAW_PATH in input && input[RAW_PATH].Str? && input[RAW_PATH].s != "" ==>
              r == Success(RemoveSlashes(input[RAW_PATH].s))
    ensures r.Success? ==> input[RAW_PATH].Str? && r.value == RemoveSlashes(input[RAW_PATH].s) && '/' !in r.value
  {
    var path := if RAW_PATH in input then input[RAW_PATH] else Json.Null;
    match path
    case NonString => Failure(Unexpected)
    case Null => Failure(BadRequest(INVALID_PATH))
    case Str(text) => if text == "" then Failure(BadRequest(INVALID_PATH)) else Success(RemoveSlashes(text))
  }

  /** The object name the handler reads: the code followed by `.json`. */
  function ObjectKey(code: string): (key: string)
    ensures |key| == |code| + |KEY_SUFFIX| && key[..|code|] == code && key[|code|..] == KEY_SUFFIX
  {
    code + KEY_SUFFIX
  }

  /** `parseUrlData`: any decoding exception becomes invalid data; `None` is a decoded `null`. */
  function ParseUrlData(mapper: Json.ObjectMapper, content: Json.Bytes): (r: Result<Option<ResolverDto.UrlData>, Failure>)
    ensures r.Failure? <==> mapper.readRecord(content).Malformed?
    ensures r.Failure? ==> r.error == BadRequest(MALFORMED)
    ensures r.Success? ==> (r.value.Some? <==> mapper.readRecord(content).Record?)
    ensures r.Success? && r.value.Some? ==> r.value.value == mapper.readRecord(content).data
  {
    match mapper.readRecord(content)
    case Record(data) => Success(Some(data))
    case NullRecord => Success(None)
    case Malformed => Failure(BadRequest(MALFORMED))
  }

  /** `System.currentTimeMillis() / 1000`: Java's `long` division truncates toward zero. */
  function CurrentTimeInSeconds(nowMillis: Long): (seconds: Long)
    ensures nowMillis >= 0 ==> 0 <= nowMillis - 1000 * seconds < 1000
    ensures nowMillis < 0 ==> -1000 < nowMillis - 1000 * seconds <= 0
  {
    if nowMillis >= 0 then nowMillis / 1000 else -((-(nowMillis as int)) / 1000)
  }

  /** The 302 answer: `Location` is the original URL; a record without one gets no headers. */
  function Redirect(originalUrl: Option<string>): Response
  {
    CreateResponse(302, originalUrl, None)
  }

  /** The 410 answer. */
  function Expired(): Response
  {
    CreateResponse(410, None, Some(EXPIRED))
  }

  /**
   * `generateResponse`: expired strictly after the expiration time. Reading a field of a
   * `null` record throws.
   */
  function GenerateResponse(urlData: Option<ResolverDto.UrlData>, nowSeconds: Long): (r: Result<Response, Failure>)
    ensures urlData.None? <==> r == Failure(Unexpected)
    ensures urlData.Some? && nowSeconds > urlData.value.expirationTime ==>
              r == Success(map[STATUS_CODE := Integer(410), BODY := Text(EXPIRED)])
    ensures urlData.Some? && nowSeconds <= urlData.value.expirationTime ==>
              r == Success(match urlData.value.originalUrl
                           case Some(url) => map[STATUS_CODE := Integer(302), HEADERS := StringMap(map[LOCATION := url])]
                           case None => map[STATUS_CODE := Integer(302)])
  {
    match urlData
    case None => Failure(Unexpected)
    case Some(d) =>
      if nowSeconds > d.expirationTime then Success(Expired()) else Success(Redirect(d.originalUrl))
  }

  /** The two `catch` clauses of `handleRequest`. */
  function FailureResponse(f: Failure): (response: Response)
    ensures f.BadRequest? ==> response == CreateResponse(400, None, Some(f.message))
    ensures f.Unexpected? ==> response == CreateResponse(500, None, Some(INTERNAL_ERROR))
    ensures HEADERS !in response && BODY in response
  {
    match f
    case BadRequest(message) => CreateResponse(400, None, Some(message))
    case Unexpected => CreateResponse(500, None, Some(INTERNAL_ERROR))
  }

  /** The answer once the stored object is in hand: decode, decide expiry, map exceptions. */
  function RespondWithObject(mapper: Json.ObjectMapper, content: Json.Bytes, nowSeconds: Long): (response: Response)
    ensures mapper.readRecord(content).Malformed? ==> response == FailureResponse(BadRequest(MALFORMED))
    ensures mapper.readRecord(content).NullRecord? ==> response == FailureResponse(Unexpected)
    ensures mapper.readRecord(content).Record? ==>
              var d := mapper.readRecord(content).data;
              response == if nowSeconds > d.expirationTime then Expired() else Redirect(d.originalUrl)
  {
    match ParseUrlData(mapper, content)
    case Failure(f) => FailureResponse(f)
    case Success(urlData) =>
      match GenerateResponse(urlData, nowSeconds)
      case Failure(f) => FailureResponse(f)
      case Success(response) => response
  }

  /** A record read from storage is still valid at its expiration time and expired one second later. */
  lemma ExpiryBoundary(d: ResolverDto.UrlData)
    requires d.expirationTime < MAX_LONG
    ensures GenerateResponse(Some(d), d.expirationTime) == Success(Redirect(d.originalUrl))
    ensures GenerateResponse(Some(d), d.expirationTime + 1) == Success(Expired())
  {
  }

  /**
   * A record whose stored object has no `originalUrl` decodes with the no-argument constructor's
   * `null` URL; while unexpired it is answered with a bare 302 that carries no `Location`.
   */
  lemma MissingUrlRedirectsNowhere(expirationTime: Long, nowSeconds: Long)
    requires nowSeconds <= expirationTime
    ensures var r := GenerateResponse(Some(ResolverDto.UrlData(None, expirationTime)), nowSeconds);
      r.Success? && r.value == map[STATUS_CODE := Integer(302)]
  {
  }

  /** The redirect handler (`Main` of the redirect function). */
  class Main {
    const bucket: Store.Bucket
    const objectMapper: Json.ObjectMapper

    constructor (bucket: Store.Bucket, objectMapper: Json.ObjectMapper)
      ensures this.bucket == bucket && this.objectMapper == objectMapper
    {
      this.bucket := bucket;
      this.objectMapper := objectMapper;
    }

    /**
     * `getObjectFromS3`: every failure of the `getObject` call, an absent key among them, becomes
     * "not found". The call yields a stream; its bytes are read later, while decoding.
     */
    method GetObjectFromS3(key: string) returns (r: Result<Json.Bytes, Failure>)
      ensures r.Success? ==> key in bucket.objects && r.value == bucket.objects[key]
      ensures r.Failure? ==> r.error == BadRequest(NOT_FOUND)
      ensures key !in bucket.objects ==> r.Failure?
    {
      var content := bucket.GetObject(key);
      r := if content.Some? then Success(content.value) else Failure(BadRequest(NOT_FOUND));
    }

    /**
     * `handleRequest` at the instant `nowMillis` (milliseconds since the epoch). It has no
     * `modifies` clause: resolving never changes the bucket. The object's stream may fail while
     * the decoder reads it, which the decoder's `catch` reports as malformed data.
     */
    method HandleRequest(input: map<string, Json.Value>, nowMillis: Long) returns (response: Response)
      ensures ExtractShortUrlCode(input).Failure? ==> response == FailureResponse(ExtractShortUrlCode(input).error)
      ensures ExtractShortUrlCode(input).Success? ==>
                var key := ObjectKey(ExtractShortUrlCode(input).value);
                || response == FailureResponse(BadRequest(NOT_FOUND))
                || (key in bucket.objects && response == FailureResponse(BadRequest(MALFORMED)))
                || (key in bucket.objects
                    && response == RespondWithObject(objectMapper, bucket.objects[key], CurrentTimeInSeconds(nowMillis)))
      ensures ExtractShortUrlCode(input).Success? && ObjectKey(ExtractShortUrlCode(input).value) !in bucket.objects ==>
                response == FailureResponse(BadRequest(NOT_FOUND))
    {
      var extracted := ExtractShortUrlCode(input);
      if extracted.Failure? {
        return FailureResponse(extracted.error);
      }
      var code := extracted.value;
      var fetched := GetObjectFromS3(ObjectKey(code));
      if fetched.Failure? {
        return FailureResponse(fetched.error);
      }
      var streamReadOk: bool := *;
      if !streamReadOk {
        return FailureResponse(BadRequest(MALFORMED));
      }
      response := RespondWithObject(objectMapper, fetched.value, CurrentTimeInSeconds(nowMillis));
    }
  }
}
