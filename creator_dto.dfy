/**
 * The record the creator builds and writes: `UrlData` of the create handler.
 * Its constructor stores both arguments as given and its getters read them back,
 * which a datatype's constructor and destructors do.
 */
module CreatorDto {
  import opened Jdk

  datatype UrlData = UrlData(originalUrl: string, expirationTime: Long)
}
