/**
 * The two handlers deployed together over one bucket: what the creator writes, the resolver
 * finds under the same key and answers with a redirect until the record expires.
 */
module UrlShortener {
  import opened Wrappers
  import opened Jdk
  import Json
  import Creator
  import Resolver
  import opened ResponseUtil

  /**
   * The codec-level round trip: the path `/<code>` of a freshly generated code names the key the
   * creator wrote, and the record written there is answered with a redirect to the submitted
   * URL up to and including its expiration time, and with 410 afterwards.
   */
  lemma CreateResolveRoundTrip(writer: Json.ObjectMapper, reader: Json.ObjectMapper,
                               bodyMap: Creator.BodyMap, uuid: string, nowSeconds: Long)
    requires Json.Compatible(writer, reader)
    requires Creator.ValidateRequestBody(Some(bodyMap)) == Pass
    requires IsUuidText(uuid)
    ensures var code := Creator.GenerateShortUrlCode(uuid);
            var d := Creator.CreateUrlData(bodyMap);
      && Resolver.ExtractShortUrlCode(map[Resolver.RAW_PATH := Json.Str("/" + code)]) == Success(code)
      && Resolver.ObjectKey(code) == Creator.GenerateS3Key(code)
      && Resolver.RespondWithObject(reader, writer.writeRecord(d), nowSeconds) ==
           if nowSeconds <= d.expirationTime
           then map[STATUS_CODE := Integer(302), HEADERS := StringMap(map[LOCATION := bodyMap[Creator.ORIGINAL_URL].s])]
           else map[STATUS_CODE := Integer(410), BODY := Text(Resolver.EXPIRED)]
  {
    var code := Creator.GenerateShortUrlCode(uuid);
    Resolver.RemoveLeadingSlash(code);
    var d := Creator.CreateUrlData(bodyMap);
    assert reader.readRecord(writer.writeRecord(d)) == Json.Record(Json.AsRead(d));
  }

  /**
   * A create request followed by a request for the path the client was given. The resolver
   * sees the creator's record, unless the store call fails ("not found") or the object's stream
   * fails while being read ("malformed data").
   */
  method CreateThenResolve(creator: Creator.Main, resolver: Resolver.Main,
                           input: map<string, Json.Value>, uuid: string, nowMillis: Long)
    returns (created: map<string, string>, resolved: Option<Response>)
    requires creator.bucket == resolver.bucket
    requires Json.Compatible(creator.objectMapper, resolver.objectMapper)
    requires IsUuidText(uuid)
    modifies creator.bucket
    ensures Creator.CODE in created <==> resolved.Some?
    ensures match Creator.ValidatedRequest(creator.objectMapper, input)
      case Failure(f) =>
        created == Creator.FailureResponse(f) && creator.bucket.objects == old(creator.bucket.objects)
      case Success(bodyMap) =>
        var url := bodyMap[Creator.ORIGINAL_URL].s;
        var expiration := Creator.CreateUrlData(bodyMap).expirationTime;
        resolved.Some? ==>
          || resolved.value == Resolver.FailureResponse(Resolver.BadRequest(Resolver.NOT_FOUND))
          || resolved.value == Resolver.FailureResponse(Resolver.BadRequest(Resolver.MALFORMED))
          || (Resolver.CurrentTimeInSeconds(nowMillis) <= expiration &&
              resolved.value == map[STATUS_CODE := Integer(302), HEADERS := StringMap(map[LOCATION := url])])
          || (Resolver.CurrentTimeInSeconds(nowMillis) > expiration &&
              resolved.value == map[STATUS_CODE := Integer(410), BODY := Text(Resolver.EXPIRED)])
  {
    ghost var before := creator.bucket.objects;
    created := creator.HandleRequest(input, uuid);
    if Creator.CODE !in created {
      return created, None;
    }
    var request := map[Resolver.RAW_PATH := Json.Str("/" + created[Creator.CODE])];
    var response := resolver.HandleRequest(request, nowMillis);
    resolved := Some(response);
    var validated := Creator.ValidatedRequest(creator.objectMapper, input);
    if validated.Success? {
      CreateResolveRoundTrip(creator.objectMapper, resolver.objectMapper, validated.value, uuid,
                             Resolver.CurrentTimeInSeconds(nowMillis));
    }
  }
}
