# URL shortener: a Dafny model of the create and redirect handlers

The system is two serverless handlers that share one object store bucket and nothing else.

- The **create handler** takes a request whose `body` is JSON text with `originalUrl` and `expirationTime`. It validates both fields and takes the first eight characters of a random UUID as the short code. It writes the record `{originalUrl, expirationTime}` under `<code>.json` and answers `{code, shortenedUrl}`. A refused request gets `{error: "Invalid input: …"}`. Any other failure gets `{error: "Internal Server Error"}`.
- The **redirect handler** deletes every `/` from the request's `rawPath` to get the code. It reads `<code>.json` and decodes the record. It answers 302 with a `Location` header until the expiration time has passed, and 410 after that. A failed store call, an absent key among them, is answered 400 "Short URL not found.". Contents that do not decode, or a stream that fails while being read, are answered 400 "Malformed URL data.". A bad path is answered 400 "Invalid path parameter". Any other failure is answered 500.

Modules, one per source unit:

- `Wrappers` (`wrappers.dfy`): `Option` (a Java `null`), `Result` and `Outcome` (a thrown exception).
- `Jdk` (`jdk.dfy`): the `long` range, `Long.parseLong` and the text shape of `UUID.toString()`.
- `CreatorDto`, `ResolverDto` (`creator_dto.dfy`, `resolver_dto.dfy`): the two `UrlData` records. Each Java constructor is the datatype constructor and each getter is a destructor. The redirect side's `originalUrl` is nullable.
- `Json` (`json.dfy`): the JSON codec as three abstract total functions. `Compatible(writer, reader)` is the codec round trip between the two deployments.
- `Store` (`store.dfy`): class `Bucket`, a `map` from object name to contents. A put or get may fail nondeterministically.
- `ResponseUtil` (`response_util.dfy`): the redirect handler's response map builder.
- `Creator` (`creator.dfy`): the create handler's steps as functions, and class `Main` with `HandleRequest`, which changes only the bucket.
- `Resolver` (`resolver.dfy`): the redirect handler's steps as functions, and class `Main` with a read-only `HandleRequest`. It has no `modifies` clause, so Dafny proves it never changes the bucket.
- `UrlShortener` (`shortener.dfy`): the two handlers over one bucket. It proves the create-then-resolve round trip.

Behaviour of the code worth noting:

- The code deletes every `/` in the path, not only a leading one.
- `expirationTime` must fit in a signed 64-bit `long`, not just be an integer.
- Negative expiration times are accepted.
- Short codes are not checked for uniqueness: on a collision the write replaces the earlier record.
- A stored object without `originalUrl` decodes with a `null` URL. While it is unexpired it is answered with a bare 302 that has no `Location` header.
- A JSON `null` request body or stored record raises an error other than an invalid-argument error. It is answered "Internal Server Error" or 500.

## Model

| member | source | states |
|---|---|---|
| `Jdk.ParseLong` | CreateUrlLambda/src/main/java/dev/giovannemendonca/createUrlShortner/Main.java:69-73 | an accepted literal is non-empty, has at least one character after an optional sign and only ASCII digits there; a negative value needs a leading `-`, and a `-` literal never yields a positive value |
| `Jdk.ParseLongOfDecimal` | CreateUrlLambda/src/main/java/dev/giovannemendonca/createUrlShortner/Main.java:70 | every `long` value has a decimal literal that is accepted and parses back to that value, so the accepted values are the whole 64-bit range |
| `Jdk.ParseLongRange` | CreateUrlLambda/src/main/java/dev/giovannemendonca/createUrlShortner/Main.java:70 | a digit string, alone or after `+`, parses to its decimal value exactly when that is at most 2^63-1 and is refused otherwise; after `-` it parses to the negated value exactly when the value is at most 2^63 |
| `Jdk.ParseLongLeadingZero` | CreateUrlLambda/src/main/java/dev/giovannemendonca/createUrlShortner/Main.java:70 | a leading zero changes neither the decimal value nor what `Long.parseLong` returns |
| `Jdk.ParseLongSigned` | CreateUrlLambda/src/main/java/dev/giovannemendonca/createUrlShortner/Main.java:70 | "-5" parses to -5, "+5" to 5, and "007" to 7 |
| `Jdk.ParseLongRejects` | CreateUrlLambda/src/main/java/dev/giovannemendonca/createUrlShortner/Main.java:70-72 | the empty string, a sign alone, a leading blank, a decimal point and an exponent are refused |
| `ResolverDto.Unpopulated` | RedirectUrlShortener/src/main/java/dev/giovannemendonca/redirectUrlShortener/dto/UrlData.java:9-10 | the no-argument constructor leaves `originalUrl` null and `expirationTime` 0 |
| `Store.Bucket.PutObject` | CreateUrlLambda/src/main/java/dev/giovannemendonca/createUrlShortner/Main.java:90-95 | a successful put replaces or creates exactly the object under the key and leaves every other key as it was; a failed put changes nothing |
| `Store.Bucket.GetObject` | RedirectUrlShortener/src/main/java/dev/giovannemendonca/redirectUrlShortener/Main.java:52-56 | a successful read returns the stored contents of the key; an absent key always fails |
| `ResponseUtil.CreateResponse` | RedirectUrlShortener/src/main/java/dev/giovannemendonca/redirectUrlShortener/utils/ResponseUtil.java:8-23 | `statusCode` is always present and equal to the argument; `headers` is present exactly when a location is given, and is then exactly `{Location: location}`; `body` is present exactly when a message is given, and then equals it; there are no other keys, and with neither argument the only key is `statusCode` |
| `Creator.ParseRequestBody` | CreateUrlLambda/src/main/java/dev/giovannemendonca/createUrlShortner/Main.java:48-59 | a null or empty body fails with "Request body is missing"; a body that is not a string fails with an error that is not an invalid-argument error; a non-empty string body the decoder refuses fails with an invalid-argument error whose message is exactly the JSON-error prefix followed by the decoder's message; a non-empty string body the decoder accepts yields the decoded map, or `null` for a JSON `null` |
| `Creator.ValidateRequestBody` | CreateUrlLambda/src/main/java/dev/giovannemendonca/createUrlShortner/Main.java:61-74 | for every outcome, the exact condition under which it occurs, in check order: URL missing or empty; then expiration missing or empty; then expiration rejected by `Long.parseLong`; a null map or a non-string value fails with an error that is not an invalid-argument error; otherwise it passes |
| `Creator.ValidatedRequest` | CreateUrlLambda/src/main/java/dev/giovannemendonca/createUrlShortner/Main.java:29-30 | succeeds exactly when decoding yields a map that passes validation, and then returns that decoded map; otherwise it returns the decoding failure, or else the validation failure |
| `Creator.GenerateShortUrlCode` | CreateUrlLambda/src/main/java/dev/giovannemendonca/createUrlShortner/Main.java:76-78 | the code has 8 characters, all lowercase hexadecimal digits, so it contains no `/` |
| `Creator.CreateUrlData` | CreateUrlLambda/src/main/java/dev/giovannemendonca/createUrlShortner/Main.java:80-84 | the record holds the submitted URL verbatim (non-empty), and `Long.parseLong` of the submitted expiration yields the record's expiration time |
| `Creator.GenerateS3Key` | CreateUrlLambda/src/main/java/dev/giovannemendonca/createUrlShortner/Main.java:101-103 | the key is the code followed by exactly `.json` |
| `Creator.GenerateS3KeyInjective` | CreateUrlLambda/src/main/java/dev/giovannemendonca/createUrlShortner/Main.java:101-103 | two codes share a key only if they are equal |
| `Creator.CreateResponse` | CreateUrlLambda/src/main/java/dev/giovannemendonca/createUrlShortner/Main.java:105-110 | the success answer has exactly the keys `code` and `shortenedUrl`, with `shortenedUrl` equal to the base URL followed by the code |
| `Creator.CreateErrorResponse` | CreateUrlLambda/src/main/java/dev/giovannemendonca/createUrlShortner/Main.java:112-116 | the error answer has exactly one key, `error`, holding the message |
| `Creator.FailureResponse` | CreateUrlLambda/src/main/java/dev/giovannemendonca/createUrlShortner/Main.java:39-45 | an invalid-argument failure is answered exactly `{error: "Invalid input: " + message}`; any other failure is answered exactly `{error: "Internal Server Error"}` |
| `Creator.MissingBodyNeverDecodes` | CreateUrlLambda/src/main/java/dev/giovannemendonca/createUrlShortner/Main.java:49-52 | with a missing or empty body the outcome is the same for every codec (decoding is not attempted) and the request fails with "Request body is missing" |
| `Creator.NegativeExpirationAccepted` | CreateUrlLambda/src/main/java/dev/giovannemendonca/createUrlShortner/Main.java:69-73 | a non-empty URL with expiration "-5" passes validation |
| `Creator.ExpirationAcceptedIffLong` | CreateUrlLambda/src/main/java/dev/giovannemendonca/createUrlShortner/Main.java:65-73 | once the URL is accepted, the body passes exactly when `Long.parseLong` accepts the expiration; an empty expiration is reported missing, any other refused literal is reported invalid |
| `Creator.Main.SaveUrlDataToS3` | CreateUrlLambda/src/main/java/dev/giovannemendonca/createUrlShortner/Main.java:86-99 | on success the bucket changes at exactly `<code>.json`, which then holds the encoded record; on failure the bucket is unchanged and the failure is not an invalid-argument error |
| `Creator.Main.HandleRequest` | CreateUrlLambda/src/main/java/dev/giovannemendonca/createUrlShortner/Main.java:27-46 | a refused request (decoding or validation) is answered with its failure response and writes nothing; an accepted one either writes exactly `<code>.json`, overwriting any earlier entry and keeping every other key, and answers with the code and shortened URL, or writes nothing and answers "Internal Server Error" |
| `Resolver.RemoveSlashes` | RedirectUrlShortener/src/main/java/dev/giovannemendonca/redirectUrlShortener/Main.java:47 | the result contains no `/` and is no longer than the path |
| `Resolver.RemoveSlashesAppend` | RedirectUrlShortener/src/main/java/dev/giovannemendonca/redirectUrlShortener/Main.java:47 | the deletion works on each part of a concatenation independently, so slashes are removed wherever they are |
| `Resolver.RemoveSlashesKeepsSlashFree` | RedirectUrlShortener/src/main/java/dev/giovannemendonca/redirectUrlShortener/Main.java:47 | a string without `/` is left unchanged |
| `Resolver.RemoveSlashesIdempotent` | RedirectUrlShortener/src/main/java/dev/giovannemendonca/redirectUrlShortener/Main.java:47 | extracting twice gives the same result as extracting once |
| `Resolver.RemoveSlashesExamples` | RedirectUrlShortener/src/main/java/dev/giovannemendonca/redirectUrlShortener/Main.java:47 | the path `/` gives the empty code, and `/ab/c/` gives `abc` |
| `Resolver.RemoveLeadingSlash` | RedirectUrlShortener/src/main/java/dev/giovannemendonca/redirectUrlShortener/Main.java:47 | `/` followed by a slash-free code gives back exactly that code |
| `Resolver.ExtractShortUrlCode` | RedirectUrlShortener/src/main/java/dev/giovannemendonca/redirectUrlShortener/Main.java:42-48 | fails with "Invalid path parameter" exactly when `rawPath` is null or empty; fails with an error that is not a bad-input error exactly when `rawPath` is not a string; any other path (a non-empty string) succeeds with the path's slashes removed, and the code contains no `/` |
| `Resolver.ObjectKey` | RedirectUrlShortener/src/main/java/dev/giovannemendonca/redirectUrlShortener/Main.java:29 | the key read is the code followed by exactly `.json`; `UrlShortener.CreateResolveRoundTrip` proves it equal to the creator's key |
| `Resolver.ParseUrlData` | RedirectUrlShortener/src/main/java/dev/giovannemendonca/redirectUrlShortener/Main.java:62-68 | fails exactly when the decoder throws, and then with "Malformed URL data."; otherwise it yields the decoded record, or `null` for a JSON `null` |
| `Resolver.CurrentTimeInSeconds` | RedirectUrlShortener/src/main/java/dev/giovannemendonca/redirectUrlShortener/Main.java:71 | milliseconds to seconds by Java `long` division: the quotient is truncated toward zero for negative and non-negative inputs alike |
| `Resolver.GenerateResponse` | RedirectUrlShortener/src/main/java/dev/giovannemendonca/redirectUrlShortener/Main.java:70-78 | a null record throws; when now is strictly after the expiration time the answer is exactly 410 with the expiry message and no headers; otherwise exactly 302 with `Location` set to the URL and no body (only the status when the URL is null) |
| `Resolver.FailureResponse` | RedirectUrlShortener/src/main/java/dev/giovannemendonca/redirectUrlShortener/Main.java:33-39 | a path, not-found or malformed-data failure is answered 400 with its message; any other failure 500 "Internal Server Error"; neither has headers |
| `Resolver.RespondWithObject` | RedirectUrlShortener/src/main/java/dev/giovannemendonca/redirectUrlShortener/Main.java:30-39 | undecodable contents are answered 400 "Malformed URL data."; a null record 500; a record 410 after expiry and 302 before |
| `Resolver.ExpiryBoundary` | RedirectUrlShortener/src/main/java/dev/giovannemendonca/redirectUrlShortener/Main.java:73-77 | at the expiration time itself the answer is the redirect; one second later it is 410 |
| `Resolver.MissingUrlRedirectsNowhere` | RedirectUrlShortener/src/main/java/dev/giovannemendonca/redirectUrlShortener/Main.java:77 | a record decoded with a null URL, read at or before its expiration time, is answered exactly `{statusCode: 302}` |
| `Resolver.Main.GetObjectFromS3` | RedirectUrlShortener/src/main/java/dev/giovannemendonca/redirectUrlShortener/Main.java:50-60 | success returns the stored contents of the key; every failure is "Short URL not found."; an absent key always fails |
| `Resolver.Main.HandleRequest` | RedirectUrlShortener/src/main/java/dev/giovannemendonca/redirectUrlShortener/Main.java:26-40 | a bad path is answered with its failure whatever the bucket holds; otherwise the key read is `<code>.json`; an absent key is always "not found"; a present one is "not found" (failed store call), "Malformed URL data." (stream failed while being read) or the answer for its contents at the current second; the bucket is never written |
| `UrlShortener.CreateResolveRoundTrip` | RedirectUrlShortener/src/main/java/dev/giovannemendonca/redirectUrlShortener/Main.java:28-32 | for a compatible codec, the path `/` + generated code extracts that code, the resolver's key equals the creator's key, and the written record is answered 302 to the submitted URL up to and including its expiration time and 410 afterwards |
| `UrlShortener.CreateThenResolve` | CreateUrlLambda/src/main/java/dev/giovannemendonca/createUrlShortner/Main.java:32-37 | after a create whose answer carries a code, resolving `/` + that code answers "not found" (failed store call), "Malformed URL data." (stream failed while being read), 302 to the submitted URL while unexpired, or 410 once expired; a refused create writes nothing and resolves nothing |

## Left out

- Jdk.ParseLong: only ASCII digits are modelled. Java's `Long.parseLong` also accepts other Unicode decimal digits, such as Arabic-Indic digits. The model refuses those literals.
- The JSON codec is not modelled: its three decodings are abstract functions. The round trip from the creator's record to the redirect handler's record is the predicate `Json.Compatible`. That predicate is assumed where needed, not proved, because JSON syntax and Jackson's data binding are outside the model. The UTF-8 encoding of the stored text is folded into `writeRecord`.
- UUID generation: the UUID's text is a parameter constrained to the `UUID.toString()` shape. Randomness and uniqueness are not modelled, and no uniqueness is claimed.
- The clock: the redirect handler takes the current time in milliseconds as a parameter.
- Store.Bucket.PutObject: a failed write leaves the bucket unchanged. A write that lands but reports failure is not modelled.
- Which store calls fail, and whether an object's stream fails while being read, are nondeterministic choices. Network, credentials and the bucket name are not modelled.
- Lambda plumbing (`RequestHandler`, `Context`, serialisation of the response map) and logging are not modelled. The base URL is a field of the create handler rather than a hard-coded constant.
- Java runtime exceptions (a `ClassCastException` on a non-string value, a `NullPointerException` on a `null` value or map) are modelled only as landing in the generic failure branch. A `null` input map is not modelled.
- ResponseUtil.CreateResponse: it returns a value, so "a fresh map per call" holds with no aliasing to model.
- Concurrent invocations and last-writer-wins races between processes are not modelled.
- The getters of both `UrlData` classes are the datatype's destructors. They read the stored field and change nothing, so they have no members of their own.
