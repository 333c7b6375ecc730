/** The redirect handler's response map builder (`ResponseUtil.createResponse`). */
module ResponseUtil {
  import opened Wrappers

  /** The Java objects a response map holds: the status code, the headers map, the body text. */
  datatype Obj = Integer(n: int) | Text(s: string) | StringMap(entries: map<string, string>)

  type Response = map<string, Obj>

  const STATUS_CODE := "statusCode"
  const HEADERS := "headers"
  const BODY := "body"
  const LOCATION := "Location"

  /**
   * A new map holding the status code, then a `headers` map with only `Location` when a location
   * is given, then the body when a message is given.
   */
  function CreateResponse(statusCode: int, location: Option<string>, message: Option<string>): (response: Response)
    ensures STATUS_CODE in response && response[STATUS_CODE] == Integer(statusCode)
    ensures HEADERS in response <==> location.Some?
    ensures location.Some? ==> response[HEADERS] == StringMap(map[LOCATION := location.value])
    ensures BODY in response <==> message.Some?
    ensures message.Some? ==> response[BODY] == Text(message.value)
    ensures response.Keys <= {STATUS_CODE, HEADERS, BODY}
    ensures location.None? && message.None? ==> response.Keys == {STATUS_CODE}
  {
    var withStatus := map[STATUS_CODE := Integer(statusCode)];
    var withHeaders :=
      if location.Some? then withStatus[HEADERS := StringMap(map[LOCATION := location.value])] else withStatus;
    if message.Some? then withHeaders[BODY := Text(message.value)] else withHeaders
  }
}
