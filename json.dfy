/**
 * The JSON codec (Jackson's `ObjectMapper`) as seen by the two handlers. JSON syntax is not
 * modelled: each decoding the handlers perform is an abstract total function from text or bytes
 * to its possible outcomes.
 */
module Json {
  import opened Wrappers
  import CreatorDto
  import ResolverDto

  /** A decoded JSON value, or a Java object held in a `Map<String, Object>`, as the handlers test it. */
  datatype Value = Null | Str(s: string) | NonString

  /** The contents of a stored object. */
  type Bytes = seq<bv8>

  /** `readValue(body, Map.class)`: an object, the literal `null`, or a `JsonProcessingException`. */
  datatype BodyParse = Object(fields: map<string, Value>) | NullLiteral | ParseError(message: string)

  /** `readValue(stream, UrlData.class)`: a record, the literal `null`, or any decoding exception. */
  datatype RecordParse = Record(data: ResolverDto.UrlData) | NullRecord | Malformed

  datatype ObjectMapper = ObjectMapper(
    readBody: string -> BodyParse,
    writeRecord: CreatorDto.UrlData -> Bytes,
    readRecord: Bytes -> RecordParse)

  /** The resolver's view of a record the creator wrote: same field names, same types. */
  function AsRead(d: CreatorDto.UrlData): ResolverDto.UrlData
  {
    ResolverDto.UrlData(Some(d.originalUrl), d.expirationTime)
  }

  /**
   * The codec round trip between the two deployments: what `writer` encodes from the creator's
   * record, `reader` decodes into the resolver's record with equal fields.
   */
  ghost predicate Compatible(writer: ObjectMapper, reader: ObjectMapper)
  {
    forall d: CreatorDto.UrlData :: reader.readRecord(writer.writeRecord(d)) == Record(AsRead(d))
  }
}
