# School Management API: input hardening and ranking, in Dafny

This project models the input-hardening and ranking pipeline of a small Node.js service.
The service stores schools (name, address, latitude, longitude) and lists them by distance from a point.
The model covers these parts of the service:

- **Field validation** (`utils/validator.js`). Two validators build ordered lists of error sentences:
  - `validateSchool` for a record;
  - `validateCoordinates` for a search point.
  The name also goes through a markup and SQL-keyword screen (`containsInvalidCharacters`).
- **SQL-injection screening** (`middleware/sqlInjectionProtection.js`).
  - Ten fixed signatures: quote and comment markers, the percent-encoded forms `%27`, `%23` and `%3B` of section 2.1 of RFC 3986, statement keywords, calls, timing functions, file operations, encoded quotes and comments.
  - A query middleware that stops at the first flagged parameter.
  - A recursive walk over the request body that names the first flagged leaf by its dotted path.
  The patterns are modelled as concrete string predicates ("contains, ignoring ASCII case", "A then later B on one line", "keyword, optional white space, `(`"), not as a regular-expression engine.
- **Parameter sanitisation** (`utils/dbSecurity.js`).
  - The page, limit and offset of paginated reads.
  - The clamping of numeric parameters.
  - The identifier filter.
- **Repository** (`repositories/schoolRepository.js`).
  - A store class holding the table rows and the auto-increment counter.
  - `create`: the harmful-input guard, the error wrapping, and the escaped row it inserts.
  - `findAll`.
  - `findAllPaginated`: the window, the count and `totalPages`.
  - `sanitizeInput`, proved equal to a single per-character escape map after trimming, and inverted by an entity decoder.
- **Service** (`services/schoolService.js`).
  - The bounded retry loop of `addSchool` and of `listSchoolsByDistance`. The repository is a scripted sequence of outcomes, and the delays are recorded rather than waited.
  - `isTransientError`.
  - The ranking of a fetched page: distances attached, then an in-place stable insertion sort on an array. The sort is proved equal to a functional stable sort, which is proved sorted, a permutation and stable.
- **Antimeridian correction** (`utils/distanceCalculator.js`): the longitude normalisation of `calculateShortestDistance`. The haversine distance is a function parameter.
- **Errors and responses**:
  - the error classes (`utils/errors.js`);
  - the envelopes (`utils/responseFormatter.js`);
  - the error handler's dispatch from error kind to status and body (`middleware/errorHandler.js`);
  - the list-to-throw validators and the two request middlewares (`middleware/validator.js`).

Modules follow the source files:
- `Wrappers` (Option, Result);
- `Text` and `TextLemmas` (ECMAScript white space, `trim`, UTF-16 length, the fixed pattern shapes);
- `JsValues` (JavaScript values, `String(v)`, `parseFloat`, `parseInt`; the decimal rendering of numbers is a function parameter);
- `Errors`, `ResponseFormatter`, `Middleware`, `SqlInjection`, `Validator`, `RequestValidator` and `ErrorHandler`;
- `DbSecurity`, `Distance`, `SchoolRepository` and `SchoolService`.

Behaviour of the code worth knowing, as the model states it:

- A name of exactly 255 UTF-16 units is accepted, although the message speaks of "less than 255 characters".
- The statement-keyword signature matches inside words, so "Created" is flagged.
- `validateSchool` screens the address for SQL only, so it refuses `<script>` as a name and accepts it as an address. `create` screens the address for markup as well, so it then refuses that record with the DatabaseError "Error creating school: Potentially harmful content detected in input".
- Only string coordinates are screened. A repeated query parameter arrives as an array, which `parseFloat` reads through its first element: `?latitude=1;drop&latitude=2&longitude=2` is accepted with latitude 1, although `1;drop` alone is refused.

Three more behaviours of the code a reader might not expect:

- `listSchoolsByDistance` retries transient failures too, not only `create`.
- `validateSchool` throws a TypeError, rather than returning a list, for a name or address that is truthy but not a string.
- The antimeridian correction moves the first longitude when it is negative, and otherwise the second one. For longitudes in [-180, 180] this is the negative one, as described.

## Model

| member | source | states |
|---|---|---|
| Errors.AppError.Message | utils/errors.js:1-21 | A ValidationError's message is "Validation failed"; a DatabaseError's message is its argument; a NotFoundError's message is the resource followed by " not found" |
| Errors.AppError.Name | utils/errors.js:1-21 | Each of the three classes sets `name` to its own class name |
| Errors.NotFoundMessageNamesResource | utils/errors.js:16-21 | Two NotFoundErrors with the same message name the same resource |
| ResponseFormatter.Success | utils/responseFormatter.js:1-7 | `success` is true; data and the possibly absent message are passed through unchanged |
| ResponseFormatter.Failure | utils/responseFormatter.js:9-15 | `success` is false; message and the possibly absent errors are passed through unchanged |
| ErrorHandler.HandleError | middleware/errorHandler.js:4-23 | One failure response: ValidationError gives 400 "Validation failed" with its list; DatabaseError gives 500 "Database error" with [message]; NotFoundError gives 404 with its message and no list; anything else gives 500 "Internal server error" and nothing of the error |
| ErrorHandler.StatusIdentifiesKind | middleware/errorHandler.js:10-22 | Status 400 iff ValidationError, 404 iff NotFoundError, 500 iff DatabaseError or another error |
| ErrorHandler.OtherErrorsConcealed | middleware/errorHandler.js:22 | Every unrecognised error gets the identical response |
| ErrorHandler.MessageForwarded | middleware/errorHandler.js:10-20 | The envelope message of a ValidationError or NotFoundError is the error's own message |
| Text.Trim | repositories/schoolRepository.js:95 | `trim` leaves no white space at either end, is empty iff the input is all white space, and never lengthens |
| Text.Utf16Length | utils/validator.js:10 | A string's `length` counts UTF-16 units: between its code-point count and twice that, equal to it without astral characters |
| JsValues.Get | middleware/validator.js:27-32 | A property read gives a value the object holds under that key, or `undefined` when no property has the key |
| JsValues.GetIn | middleware/validator.js:43 | Reading a key from a property list gives a value listed under it, or `undefined` when the key is absent |
| JsValues.Truncate | utils/dbSecurity.js:10 | `parseInt` of a number rounds toward zero: within 1 of it, on the side of zero |
| JsValues.ParsersBeforeComma | utils/validator.js:75-76 | `parseFloat` and `parseInt` stop at a comma: a string followed by text that starts with a comma reads as the string alone |
| JsValues.ArrayReadsFirst | utils/validator.js:75-76 | The string of a non-empty array reads as its first element's string, and as NaN when that element is null or undefined |
| JsValues.ParsersReadString | utils/dbSecurity.js:10 | `parseFloat(v)` and `parseInt(v, 10)` are the parsers applied to `String(v)`, for every value whose numbers render as text that reads back |
| JsValues.SingleDigitParses | utils/validator.js:75-76 | A digit followed by anything that cannot continue a number reads as that digit |
| JsValues.ParseIntRoundTrip | utils/dbSecurity.js:10 | `parseInt(String(n), 10)` and `parseInt(n, 10)` give back every integer n |
| JsValues.ParseFloatOfInteger | utils/dbSecurity.js:22 | `parseFloat(String(n))` gives back every integer n |
| SqlInjection.SomeSignatureFromIff | middleware/sqlInjectionProtection.js:32 | The in-order `some` over the patterns from k on is true iff one of those patterns matches |
| SqlInjection.FlaggedIffSomeSignature | middleware/sqlInjectionProtection.js:29-33 | `containsSqlInjection` is true iff the value is a non-empty string one of the ten patterns matches |
| SqlInjection.SignatureFlags | middleware/sqlInjectionProtection.js:29-33 | Any single matching pattern flags the string |
| SqlInjection.NonStringsNotFlagged | middleware/sqlInjectionProtection.js:30 | A non-string or empty value is never flagged |
| SqlInjection.MarkerFlagged | middleware/sqlInjectionProtection.js:7-9 | A string containing `'`, `--`, `#` or `;` anywhere is flagged |
| SqlInjection.KeywordFlagged | middleware/sqlInjectionProtection.js:13 | A string containing select, update, insert, delete, drop, alter, create or truncate in any case, even inside a word, is flagged |
| SqlInjection.CreatedIsFlagged | middleware/sqlInjectionProtection.js:13 | The word "Created" is flagged |
| SqlInjection.UnionQueryAnchor | middleware/sqlInjectionProtection.js:11 | Every match of the union pattern contains "union" |
| SqlInjection.DangerousCallAnchor | middleware/sqlInjectionProtection.js:15 | Every match of the call pattern contains one of its five keywords |
| SqlInjection.TimingAttackAnchor | middleware/sqlInjectionProtection.js:17 | Every match of the timing pattern contains waitfor, sleep or benchmark |
| SqlInjection.EncodedSeparatorAnchor | middleware/sqlInjectionProtection.js:23 | Every match of the encoded-separator pattern contains `%3B` |
| SqlInjection.TrailingOrBlockCommentAnchor | middleware/sqlInjectionProtection.js:25 | Every match of the comment pattern contains `--` or `/*` |
| SqlInjection.SignatureHasAnchor | middleware/sqlInjectionProtection.js:5-26 | Every string some pattern matches contains one of a fixed set of space-free anchors |
| SqlInjection.SqlAnchorSplitAtSpace | middleware/sqlInjectionProtection.js:5-26 | An anchor in two texts joined by a space lies in one of the two |
| SqlInjection.UnanchoredNotFlagged | middleware/sqlInjectionProtection.js:29-33 | A string with no anchor is not flagged |
| SqlInjection.SampleNameNotFlagged | test/unit/validator.test.js:8 | "Test School" is not flagged |
| SqlInjection.SampleAddressNotFlagged | test/unit/validator.test.js:9 | "123 Test Street" is not flagged |
| SqlInjection.NotANumberNotFlagged | test/unit/validator.test.js:49-52 | "not a number" is not flagged, so it reaches the parse check |
| SqlInjection.FlaggedPathsAreReachableLeaves | middleware/sqlInjectionProtection.js:60-73 | A dotted path is reported iff following it through nested objects reaches a flagged string; a non-object has none |
| SqlInjection.FlaggedPathsInAreReachableLeaves | middleware/sqlInjectionProtection.js:63-72 | The same, for the property list of an object |
| SqlInjection.RouteOfFlaggedPath | middleware/sqlInjectionProtection.js:63-72 | Every reported path has a route of property indices to a flagged leaf |
| SqlInjection.FlaggedPathOfRoute | middleware/sqlInjectionProtection.js:63-72 | Every route to a flagged leaf yields a reported path |
| SqlInjection.FieldError | middleware/sqlInjectionProtection.js:68 | The thrown ValidationError names the dotted path of the field |
| SqlInjection.CheckObjectForSqlInjection | middleware/sqlInjectionProtection.js:60-73 | The recursive for-in walk throws exactly when a flagged leaf exists, naming the first in visiting order; a null or non-object argument throws nothing |
| SqlInjection.ParameterError | middleware/sqlInjectionProtection.js:41 | The thrown ValidationError names the parameter |
| SqlInjection.SqlInjectionQueryProtection | middleware/sqlInjectionProtection.js:35-48 | `next()` iff no top-level query value is flagged; otherwise `next(error)` naming the first flagged key |
| SqlInjection.SqlInjectionBodyProtection | middleware/sqlInjectionProtection.js:50-58 | `next()` iff the body has no flagged leaf; otherwise `next(error)` naming the first flagged path |
| Validator.InvalidCharactersHaveAnchor | utils/validator.js:102-116 | Every string the name screen rejects holds a markup opener or one of OR, UNION, DROP, ALTER, DELETE |
| Validator.Texts | utils/validator.js:47 | The returned list holds each pushed message's sentence, in order |
| Validator.PushNameErrors | utils/validator.js:8-14 | The name's message, if any, is pushed after the earlier ones, or the TypeError of `trim` on a truthy non-string is thrown |
| Validator.PushAddressErrors | utils/validator.js:16-22 | The address's message, if any, is pushed after the earlier ones, or the TypeError of `trim` is thrown |
| Validator.SchoolErrorsSteps | utils/validator.js:4-48 | The record's result is the first thrown error, else the name, address, latitude and longitude messages in that order |
| Validator.ValidateSchool | utils/validator.js:4-48 | The method returns the sentences of the record's messages, or throws the same error |
| Validator.ValidateCoordinates | utils/validator.js:50-92 | The method returns the sentences of the coordinate messages |
| Validator.NameErrorsField | utils/validator.js:8-14 | The name draws at most one message, about the name |
| Validator.AddressErrorsField | utils/validator.js:16-22 | The address draws at most one message, about the address |
| Validator.LatitudeErrorsField | utils/validator.js:24-34 | The latitude draws at most one message, about the latitude |
| Validator.LongitudeErrorsField | utils/validator.js:36-45 | The longitude draws at most one message, about the longitude |
| Validator.AppendLaterField | utils/validator.js:4-48 | Appending at most one message about a later field keeps the fields strictly ascending |
| Validator.SchoolErrorsOrdered | utils/validator.js:4-48 | At most one message per field, in the order name, address, latitude, longitude, so at most four |
| Validator.NameAccepted | utils/validator.js:8-14 | The name draws no message iff it is a non-blank string of at most 255 units that neither screen flags |
| Validator.AddressAccepted | utils/validator.js:16-22 | The address draws no message iff it is a non-blank string of at most 255 units that the SQL screen passes |
| Validator.LatitudeAccepted | utils/validator.js:24-34 | The latitude draws no message iff it parses to a number strictly between -90 and 90 |
| Validator.LongitudeAccepted | utils/validator.js:36-45 | The longitude draws no message iff it parses to a number strictly between -180 and 180 |
| Validator.NoSchoolErrorsIffAcceptable | utils/validator.js:4-48 | The list is empty iff every field is acceptable |
| Validator.LatitudeMessagesOfSchool | utils/validator.js:24-34 | The record's latitude messages are exactly the latitude field's |
| Validator.LongitudeMessagesOfSchool | utils/validator.js:36-45 | The record's longitude messages are exactly the longitude field's |
| Validator.PoleLatitudeField | utils/validator.js:29-33 | A latitude of exactly ±90 draws the pole message and never the range message |
| Validator.DateLineLongitudeField | utils/validator.js:40-44 | A longitude of exactly ±180 draws the date-line message and never the range message |
| Validator.NameLengthLimit | utils/validator.js:10-11 | A non-blank name draws the length message iff it is longer than 255 units, so exactly 255 passes |
| Validator.AddressNotScreenedForMarkup | utils/validator.js:20-21 | A present address the SQL screen passes draws no message, whatever markup it holds |
| Validator.MarkupNameRefused | utils/validator.js:12-13 | `<script>` as a name draws the harmful-content message alone |
| Validator.MarkupAddressAccepted | utils/validator.js:20-21 | `<script>` as an address draws no message, since the address is screened for SQL only |
| Validator.CoordinateErrorsShape | utils/validator.js:54-91 | At most two messages; two only when both values parse, the latitude's first. An unflagged latitude with a flagged longitude gives the longitude-harmful message alone; unflagged values with an unparseable latitude give the latitude-required message alone; a parsed latitude with an unparseable longitude gives the longitude-required message alone |
| Validator.ArrayCoordinatesUnscreened | utils/validator.js:54-62 | An array coordinate never draws a harmful-content message, whatever its elements hold |
| Validator.ArrayLatitudeAccepted | utils/validator.js:54-91 | A latitude array whose first element reads inside (-90, 90), beside an unflagged longitude inside (-180, 180), is accepted, whatever text follows the number |
| Validator.RepeatedLatitudeExample | utils/validator.js:54-91 | The latitude array ["1;drop", "2"] with longitude "2" is accepted as (1, 2) |
| Validator.FlaggedFirstElement | utils/validator.js:54-57 | The text "1;drop" reads as the number 1, yet as a string latitude on its own it is flagged and refused with exactly "Latitude contains potentially harmful content" |
| Validator.HarmfulLatitudeFirst | utils/validator.js:54-57 | A flagged latitude string is reported alone, before anything about the longitude |
| Validator.NoCoordinateErrorsIffInRange | utils/validator.js:50-100 | The pair draws no message iff neither value is flagged and both parse strictly inside (-90, 90) and (-180, 180) |
| Validator.BothOutOfRangeExample | utils/validator.js:79-89 | (100, 200) draws both range messages, latitude first |
| Validator.SampleNameWordsUnanchored | test/unit/validator.test.js:8 | "Test" and "School" hold neither a markup opener nor a leading word of the name screen |
| Validator.SampleNameValid | test/unit/validator.test.js:8 | "Test School" passes the name screen |
| Validator.SampleNameAccepted | test/unit/validator.test.js:8 | "Test School" draws no name message |
| Validator.SampleAddressAccepted | test/unit/validator.test.js:9 | "123 Test Street" draws no address message |
| Validator.SampleCoordinatesAccepted | test/unit/validator.test.js:10-11 | 40.7128 and -74.0060 draw no message |
| Validator.ValidSchoolExample | test/unit/validator.test.js:6-16 | The sample record yields no errors |
| Validator.EmptyNameExample | test/unit/validator.test.js:18-28 | An empty name yields the name-required message |
| Validator.LatitudeOutOfRangeExample | test/unit/validator.test.js:30-40 | A latitude of 100 yields the latitude range message |
| Validator.ValidCoordinatesExample | test/unit/validator.test.js:44-47 | (40.7128, -74.0060) yields no errors |
| Validator.LatitudeNotANumberExample | test/unit/validator.test.js:49-52 | "not a number" as latitude yields only the latitude-required message |
| RequestValidator.CheckSchool | middleware/validator.js:4-12 | `true` iff the list is empty; otherwise a ValidationError carrying exactly that list, or the validator's own thrown error |
| RequestValidator.CheckSchoolIffAcceptable | middleware/validator.js:4-12 | The record passes iff every field is acceptable |
| RequestValidator.CheckCoordinates | middleware/validator.js:14-22 | `true` iff the list is empty; otherwise a ValidationError carrying exactly that list |
| RequestValidator.CheckCoordinatesIffInRange | middleware/validator.js:14-22 | The pair passes iff neither is flagged and both lie strictly inside the ranges |
| RequestValidator.ValidateAddSchoolRequest | middleware/validator.js:25-39 | `next()` iff the record of the four body fields passes; otherwise `next(error)` with the thrown error, including the TypeError of an absent body |
| RequestValidator.AddSchoolRequestPasses | middleware/validator.js:25-39 | A body is let through iff it is present and its four fields form an acceptable record |
| RequestValidator.AddSchoolRequestReadsFourFields | middleware/validator.js:27-32 | Bodies agreeing on name, address, latitude and longitude are treated alike |
| RequestValidator.ValidateListSchoolsRequest | middleware/validator.js:41-49 | `next()` iff the query's latitude and longitude pass; otherwise `next(error)` with the thrown error |
| RequestValidator.ListSchoolsRequestPasses | middleware/validator.js:41-49 | A query is let through iff its coordinates are unflagged and strictly inside the ranges |
| RequestValidator.MissingCoordinatesRefused | middleware/validator.js:41-49 | A query without coordinates is refused with the latitude-required message alone |
| DbSecurity.KeepWordChars | utils/dbSecurity.js:5 | The filter keeps only `[A-Za-z0-9_]` characters and never lengthens |
| DbSecurity.KeepWordCharsAppend | utils/dbSecurity.js:5 | Filtering distributes over concatenation, so order is kept |
| DbSecurity.KeepWordCharsOfWord | utils/dbSecurity.js:5 | A string of word characters passes unchanged |
| DbSecurity.KeepWordCharsCounts | utils/dbSecurity.js:5 | Each word character is kept as often as it occurs; every other character is dropped |
| DbSecurity.EscapeIdentifier | utils/dbSecurity.js:2-6 | '' for falsy input; the filtered string for a string; a TypeError for any other truthy value |
| DbSecurity.EscapeIdentifierIdempotent | utils/dbSecurity.js:2-6 | Escaping an escaped identifier changes nothing |
| DbSecurity.Offset | utils/dbSecurity.js:17 | The offset is non-negative and one limit short of page·limit |
| DbSecurity.SanitizePaginationParams | utils/dbSecurity.js:8-19 | Page ≥ 1, kept when it parses to ≥ 1; limit in [1, 100], kept when it parses into the range, 10 when NaN or 0, 1 when negative, 100 above 100; offset = (page-1)·limit ≥ 0 |
| DbSecurity.PaginationIdempotent | utils/dbSecurity.js:8-19 | Sanitising the sanitised page and limit gives the same pagination |
| DbSecurity.PagesAdjacent | utils/dbSecurity.js:17 | Page n+1 starts exactly where page n ends |
| DbSecurity.SanitizeNumericParam | utils/dbSecurity.js:21-37 | The default on NaN, `min` below min, `max` above max, otherwise the parsed value |
| DbSecurity.NumericParamWithinBounds | utils/dbSecurity.js:21-37 | With min ≤ max, a parsed value lands in [min, max], and so does the default when it lies inside |
| DbSecurity.NumericParamIdempotent | utils/dbSecurity.js:21-37 | With min ≤ max, clamping a clamped value changes nothing |
| DbSecurity.ControllerCoordinatesValid | controllers/school.controller.js:29-30 | The controller's coordinate bounds keep every sanitised coordinate strictly inside the validator's ranges |
| Distance.NormalizeLongitudes | utils/distanceCalculator.js:21-31 | Within 180 degrees both are unchanged; beyond it, a negative first longitude gains 360, otherwise only the second gains 360 |
| Distance.NormalizedGapAtMostHalfTurn | utils/distanceCalculator.js:19-34 | For longitudes in [-180, 180] the corrected pair is at most 180 degrees apart |
| Distance.NormalizedSameMeridians | utils/distanceCalculator.js:21-31 | At most one longitude moves, by exactly one full turn |
| Distance.DateLineExample | utils/distanceCalculator.js:24-29 | 179.9 and -179.9 are compared 0.2 degrees apart |
| Distance.CalculateShortestDistance | utils/distanceCalculator.js:19-34 | The distance is `calculateDistance` at the unchanged latitudes and at each longitude or that longitude plus 360 |
| Distance.ShortestDistanceOfPeriodic | utils/distanceCalculator.js:19-34 | For a distance that ignores full turns of longitude, the correction does not change the result |
| SchoolRepository.ReplaceAll | repositories/schoolRepository.js:88 | A global replace changes nothing when the character is absent |
| SchoolRepository.ReplaceAllAppend | repositories/schoolRepository.js:88-94 | A global replace of one character distributes over concatenation |
| SchoolRepository.EscapeChar | repositories/schoolRepository.js:88-94 | A character maps to itself iff it is not one of the seven; escapes keep white space at their ends as the character does, and hold no escaped character but `&` |
| SchoolRepository.EscapeMap | repositories/schoolRepository.js:88-94 | The escaped string holds no escaped character but `&` |
| SchoolRepository.EscapeMapAppend | repositories/schoolRepository.js:88-94 | The escape map distributes over concatenation |
| SchoolRepository.ReplaceStep | repositories/schoolRepository.js:89-94 | A later replace rewrites only its own character, never an entity produced earlier |
| SchoolRepository.ReplaceChainOfChar | repositories/schoolRepository.js:88-94 | On one character the chain gives that character's escape |
| SchoolRepository.ReplaceChainAppend | repositories/schoolRepository.js:88-94 | The chain distributes over concatenation |
| SchoolRepository.ReplaceChainIsEscapeMap | repositories/schoolRepository.js:88-94 | Because `&` is replaced first, the seven replaces equal the one per-character map, so nothing is escaped twice |
| SchoolRepository.TrimStartEscapeMap | repositories/schoolRepository.js:95 | Trimming the start commutes with escaping |
| SchoolRepository.TrimEndEscapeMap | repositories/schoolRepository.js:95 | Trimming the end commutes with escaping |
| SchoolRepository.TrimEscapeMap | repositories/schoolRepository.js:95 | `trim` commutes with escaping |
| SchoolRepository.SanitizeInputIsEscapedTrim | repositories/schoolRepository.js:84-96 | `sanitizeInput` is the escape map of the trimmed input, '' for '' |
| SchoolRepository.SanitizeInputSafe | repositories/schoolRepository.js:84-96 | The output holds none of `<`, `>`, `"`, `'`, `\` and backtick, and no white space at either end |
| SchoolRepository.UnescapeStep | repositories/schoolRepository.js:88-94 | Decoding an escaped character followed by more text gives the character, then the rest decoded |
| SchoolRepository.UnescapeEntity | repositories/schoolRepository.js:88-94 | The same for each of the seven entities |
| SchoolRepository.UnescapeEscapeMap | repositories/schoolRepository.js:88-94 | Decoding inverts the escape map |
| SchoolRepository.SanitizeInputRoundTrip | repositories/schoolRepository.js:84-96 | Decoding `sanitizeInput`'s output gives back the trimmed input |
| SchoolRepository.TotalPages | repositories/schoolRepository.js:74 | ⌈total/limit⌉: zero iff there are no rows, else (pages-1)·limit < total ≤ pages·limit |
| SchoolRepository.Window | repositories/schoolRepository.js:59-62 | `LIMIT ? OFFSET ?`: at most `limit` consecutive rows starting at the offset, exactly `limit` when that many remain |
| SchoolRepository.MarkupAddressHarmful | repositories/schoolRepository.js:12-17 | `create` refuses a record whose address is `<script>`, which `validateSchool` accepts |
| SchoolRepository.SchoolStore.constructor | repositories/schoolRepository.js:6-7 | The store starts empty with the next id 1 |
| SchoolRepository.SchoolStore.Create | repositories/schoolRepository.js:8-39 | Flagged name or address: refused before any insert. Every failure is a DatabaseError prefixed "Error creating school: ", and the store is then unchanged. On success the row holds the escaped name and address and the next id; the result holds the caller's unescaped values and that id |
| SchoolRepository.SchoolStore.FindAll | repositories/schoolRepository.js:41-49 | Every row, in increasing id order (the order of insertion), or a DatabaseError prefixed "Error retrieving schools: " |
| SchoolRepository.SchoolStore.FindAllPaginated | repositories/schoolRepository.js:51-80 | The window of the sanitised page and limit, with that page, that limit, the row count and ⌈total/limit⌉; or the prefixed DatabaseError |
| SchoolRepository.PagesWithinCount | repositories/schoolRepository.js:54-74 | Every page up to totalPages is non-empty, and every page before the last is full |
| SchoolRepository.PagesBeyondCount | repositories/schoolRepository.js:54-74 | A page past totalPages is empty |
| SchoolService.TransientCodeRecognised | services/schoolService.js:69-72 | A message containing ECONNRESET, ETIMEDOUT or PROTOCOL_CONNECTION_LOST anywhere marks the error transient |
| SchoolService.TransientCodeLocated | services/schoolService.js:69-72 | Conversely, a transient error's message is some text, one of the three codes, then more text |
| SchoolService.RetryFromFacts | services/schoolService.js:10-25 | From attempt r on: the calls, the delays 200·n, the result of the last call, and why the loop stopped |
| SchoolService.RetryCharacterised | services/schoolService.js:10-25 | 1 to 3 calls. The loop stops at the first success, the first error that is not a transient DatabaseError, or the third call. Every earlier call failed transiently, the wait before retry n is 200·n ms, and the result is the last call's |
| SchoolService.NoRetryAfterFinalOutcome | services/schoolService.js:17-22 | A first call that succeeds or fails non-transiently is the only call, with no wait |
| SchoolService.ThreeTransientFailures | services/schoolService.js:6 | Three transient failures end the loop with the third one, after waits of 200 and 400 ms |
| SchoolService.AddSchool | services/schoolService.js:10-25 | The `while` loop makes exactly the calls and waits of the retry policy and returns or throws what its last call did |
| SchoolService.AttachDistances | services/schoolService.js:51-57 | Each row keeps its fields, in order, and gains its corrected distance from the user |
| SchoolService.InsertByDistance | services/schoolService.js:59 | Inserting adds exactly one element |
| SchoolService.SortByDistance | services/schoolService.js:59 | Sorting keeps the length |
| SchoolService.AtDistance | services/schoolService.js:59 | The rows at one distance never outnumber the input |
| SchoolService.InsertPermutes | services/schoolService.js:59 | Inserting adds exactly the inserted element to the multiset |
| SchoolService.InsertSorted | services/schoolService.js:59 | Inserting into a sorted sequence keeps it sorted |
| SchoolService.AtDistanceAppend | services/schoolService.js:59 | The rows at a distance distribute over appending |
| SchoolService.InsertStable | services/schoolService.js:59 | The inserted element goes after every earlier element at its distance |
| SchoolService.SortByDistanceCorrect | services/schoolService.js:59 | The sort is non-decreasing by distance, a permutation, and stable: rows at any one distance keep their order |
| SchoolService.SortInPlace | services/schoolService.js:59 | The in-place sort of the array leaves exactly the stable sort of its old contents |
| SchoolService.InsertInPlace | services/schoolService.js:59 | Shifting one element left into the sorted prefix gives that prefix with it inserted, rest untouched |
| SchoolService.GapShift | services/schoolService.js:59 | One shift of the inner loop keeps the gap invariant |
| SchoolService.GapClose | services/schoolService.js:59 | Filling the gap gives the prefix with the element inserted |
| SchoolService.RankByDistance | services/schoolService.js:51-59 | The ranked rows are the stable sort of the rows with their distances attached |
| SchoolService.ListSchoolsByDistance | services/schoolService.js:27-65 | The fetch loop makes the retry policy's calls and waits and either throws the last error or, once `result` is set, returns the ranked page with the pagination unchanged |
| SchoolService.RankedPageCorrect | services/schoolService.js:51-64 | The ranked page is sorted by distance, a permutation of the fetched rows with distances, stable, and holds only fetched rows |

## Left out

- `calculateDistance` and `toRadians`: the haversine body is floating-point trigonometry. It is a function parameter `dist`, so the distance unit tests are not stated.
- JsValues.ParseFloat: decimal forms with exponent only. "Infinity", hexadecimal, NaN as a value and floating-point rounding are left out, since numbers are exact reals.
- JsValues.ParseInt: decimal forms only, with no radix other than 10. On a number it truncates. JavaScript reads `String(x)`, which is in exponent form for a non-zero |x| below 1e-6 or from 1e21 up, so `parseInt(1e-7)` is 1 where the model gives 0.
- JsValues.ToJsString: the decimal rendering of numbers is a parameter `num`. The lemmas that use it require only that both parsers read `num(x)` back as x.
- JsValues.Falsy: NaN is not a value of the model, so a NaN argument is not distinguished from a parse failure.
- SchoolRepository.SanitizeInput: takes the string `create` receives. `String(str)` of a non-string is left out, because the school data handed to `create` holds strings.
- SchoolRepository.SchoolStore.Create: the database is a row sequence and a counter. A failing INSERT is an injected `fault` message; SQL, the pool and DDL are left out.
- SchoolRepository.SchoolStore.FindAllPaginated: rows come back in table order, since SQL gives no ORDER BY. One `fault` stands for a failure of either query. The page and limit arithmetic of lines 54-57 is the same as `sanitizePaginationParams` and is modelled by that function.
- DbSecurity.SanitizePaginationParams: states the offset as (page-1)·limit rather than through `%`. Nonlinear arithmetic is out of reach of the solver's budget here.
- SchoolService.AddSchool: `sleep` is not waited. The delays are returned as a list, and each repository call is a scripted outcome `outcome(k)`.
- SchoolService.ListSchoolsByDistance: takes the coordinates as numbers, for which `parseFloat` is the identity. The controller always passes numbers. Distances are never NaN in the model.
- Errors.AppError.Message: the message texts are not proved distinct from one another.
- SqlInjection: the regular expressions are fixed string predicates, not a regex engine.
- Logging (`console.error`), rate limiting, the controller's HTTP responses, routes, server start-up and environment loading are left out. They are I/O or configuration.
