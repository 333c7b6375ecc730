/**
 * The record the resolver reads: `UrlData` of the redirect handler.
 * `originalUrl` is a nullable reference on that side, because the decoder starts from the
 * no-argument constructor and a stored object may lack the field.
 */
module ResolverDto {
  import opened Wrappers
  import opened Jdk

  datatype UrlData = UrlData(originalUrl: Option<string>, expirationTime: Long)

  /** The no-argument constructor: both fields at their Java defaults. */
  function Unpopulated(): (d: UrlData)
    ensures d.originalUrl == None
    ensures d.expirationTime == 0
  {
    UrlData(None, 0)
  }
}
