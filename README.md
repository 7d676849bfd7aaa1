# Reactive request logging and error handling, modelled in Dafny

This project models the core of a Spring WebFlux example service written in
Kotlin: the HTTP logging filters on the server and client side (with the
header, query-parameter and JSON-body obfuscation they apply, the body
capture that copies a reactive byte stream, and the JSON log formatter), the
exception handlers that turn exceptions into RFC 7807 problem details, the
conversion of validation errors into `Violation` records (including the
snake-case converter), the enum validator and the H2 port computation.

Each pure Kotlin function becomes a Dafny function with a contract and
lemmas; code that updates state step by step (the header copy loop, the
JSON masking loop, the decorated server exchange, the buffering client
request, the filter builders, the enum validator) becomes methods and
classes whose `ensures` tie the new state to a specification function.

Modules: `Wrappers`, `Text`, `Numbers`, `Http`, `JsonTree` (supporting
values), `HttpLogModel`, `Obfuscator`, `DataBufferCopyUtils`,
`RequestBuffering`, `JsonLogFormatter`, `FilterSupport` (what both filters
share, including the builder), `ServerLogging`, `ClientLogging`,
`StringUtils`, `Violations`, `EnumValidation`, `DatabaseConfig`,
`ExceptionHandling` (the base handler), `GlobalExceptionHandling`.

## Model

| member | source | states |
|---|---|---|
| Obfuscator.IndexOfName | src/main/kotlin/io/github/susimsek/springbootreactiveexample/config/logging/utils/Obfuscator.kt:43-45 | finds the first header whose name equals the given one ignoring case; None exactly when no header matches |
| Obfuscator.MaskHeaders | src/main/kotlin/io/github/susimsek/springbootreactiveexample/config/logging/utils/Obfuscator.kt:39-49 | one header out per header in, in order; each is the input header, except that a header whose name is sensitive (ignoring case) gets the single value "******" in place of all its values |
| Obfuscator.ObfuscateHeaders | src/main/kotlin/io/github/susimsek/springbootreactiveexample/config/logging/utils/Obfuscator.kt:39-49 | the copy loop builds exactly MaskHeaders of the input; names and their order are kept and well-formed headers stay well-formed |
| Obfuscator.MaskHeadersIdempotent | src/main/kotlin/io/github/susimsek/springbootreactiveexample/config/logging/utils/Obfuscator.kt:39-49 | masking headers twice gives the same result as masking once |
| Obfuscator.MaskedFromRefl | src/main/kotlin/io/github/susimsek/springbootreactiveexample/config/logging/utils/Obfuscator.kt:123-143 | every tree is a masked form of itself (base of the masking relation) |
| Obfuscator.MaskPathShape | src/main/kotlin/io/github/susimsek/springbootreactiveexample/config/logging/utils/Obfuscator.kt:123-143 | maskPath only replaces values with the mask string: the result has the same object/array skeleton and keys as the input |
| Obfuscator.MaskPathLeaf | src/main/kotlin/io/github/susimsek/springbootreactiveexample/config/logging/utils/Obfuscator.kt:128-131 | on the last key of a path, an object keeps its keys, the key (if present) now holds the mask string, and every other key keeps its value |
| Obfuscator.MaskPathIdempotent | src/main/kotlin/io/github/susimsek/springbootreactiveexample/config/logging/utils/Obfuscator.kt:123-143 | masking a path twice equals masking it once |
| Obfuscator.MaskedFromTrans | src/main/kotlin/io/github/susimsek/springbootreactiveexample/config/logging/utils/Obfuscator.kt:66-69 | masking composes: a masked form of a masked form is a masked form of the original |
| Obfuscator.MaskAllShape | src/main/kotlin/io/github/susimsek/springbootreactiveexample/config/logging/utils/Obfuscator.kt:66-69 | masking all sensitive paths one after another only replaces values with the mask |
| Obfuscator.MaskJsonBody | src/main/kotlin/io/github/susimsek/springbootreactiveexample/config/logging/utils/Obfuscator.kt:62-74 | blank body and unparseable body are returned unchanged; otherwise the result is the serialised tree with every sensitive path masked in order |
| Obfuscator.MaskSegment | src/main/kotlin/io/github/susimsek/springbootreactiveexample/config/logging/utils/Obfuscator.kt:95-105 | a query segment is either kept or becomes its key, "=" and the mask; it never gains a segment separator |
| Obfuscator.MaskSegmentCases | src/main/kotlin/io/github/susimsek/springbootreactiveexample/config/logging/utils/Obfuscator.kt:96-105 | a segment is masked exactly when it splits into two parts on "=" and its key is sensitive ignoring case |
| Obfuscator.MaskSegmentIdempotent | src/main/kotlin/io/github/susimsek/springbootreactiveexample/config/logging/utils/Obfuscator.kt:95-105 | masking a segment twice equals masking it once |
| Obfuscator.MaskSegmentBareKey | src/main/kotlin/io/github/susimsek/springbootreactiveexample/config/logging/utils/Obfuscator.kt:97 | a segment without "=" is kept even when its name is sensitive |
| Obfuscator.MaskSegmentTwoEquals | src/main/kotlin/io/github/susimsek/springbootreactiveexample/config/logging/utils/Obfuscator.kt:97 | a segment with two "=" splits in three and is kept |
| Obfuscator.MaskSegmentSensitive | src/main/kotlin/io/github/susimsek/springbootreactiveexample/config/logging/utils/Obfuscator.kt:97-100 | "K=v" with sensitive "k" becomes "K=******" (case-insensitive key match, original key spelling kept) |
| Obfuscator.MaskSegmentOtherKey | src/main/kotlin/io/github/susimsek/springbootreactiveexample/config/logging/utils/Obfuscator.kt:101-103 | a segment whose key is not sensitive is kept |
| Obfuscator.MaskParameters | src/main/kotlin/io/github/susimsek/springbootreactiveexample/config/logging/utils/Obfuscator.kt:92-112 | a URI without query is returned as is; otherwise only the query changes and scheme, authority, host, path and fragment are kept |
| Obfuscator.MaskQuerySegments | src/main/kotlin/io/github/susimsek/springbootreactiveexample/config/logging/utils/Obfuscator.kt:95-107 | the masked query has the same number of "&" segments as the input and each is the masked input segment |
| Obfuscator.MaskParametersNoNames | src/main/kotlin/io/github/susimsek/springbootreactiveexample/config/logging/utils/Obfuscator.kt:92-112 | with no sensitive parameters the URI comes back unchanged |
| DataBufferCopyUtils.Joined | src/main/kotlin/io/github/susimsek/springbootreactiveexample/config/logging/utils/DataBufferCopyUtils.kt:37-39 | joining the chunk stream yields nothing for an empty stream, else one buffer of all the bytes |
| DataBufferCopyUtils.WrapAndBuffer | src/main/kotlin/io/github/susimsek/springbootreactiveexample/config/logging/utils/DataBufferCopyUtils.kt:36-48 | the consumer receives the concatenation of all chunks and the stream re-emits exactly those bytes as one buffer |
| DataBufferCopyUtils.WrapPreservesBytes | src/main/kotlin/io/github/susimsek/springbootreactiveexample/config/logging/utils/DataBufferCopyUtils.kt:36-48 | the re-emitted single buffer carries the same bytes as the original stream |
| RequestBuffering.ClientHttpRequest.WriteWith | src/main/kotlin/io/github/susimsek/springbootreactiveexample/config/logging/wrapper/BufferingClientHttpRequest.kt:42-44 | the delegate request receives the body chunks after what it already had |
| RequestBuffering.BufferingClientHttpRequest.constructor | src/main/kotlin/io/github/susimsek/springbootreactiveexample/config/logging/wrapper/BufferingClientHttpRequest.kt:25-31 | a new decorator wraps the delegate and has no captured body yet |
| RequestBuffering.BufferingClientHttpRequest.WriteWith | src/main/kotlin/io/github/susimsek/springbootreactiveexample/config/logging/wrapper/BufferingClientHttpRequest.kt:42-56 | the captured request body is the concatenation of the written chunks and the delegate receives exactly those bytes |
| JsonLogFormatter.DurationText | src/main/kotlin/io/github/susimsek/springbootreactiveexample/config/logging/formatter/JsonLogFormatter.kt:61 | the duration is rendered as its decimal digits followed by "ms" |
| JsonLogFormatter.DurationTextRoundTrip | src/main/kotlin/io/github/susimsek/springbootreactiveexample/config/logging/formatter/JsonLogFormatter.kt:61 | stripping "ms" and parsing the rest as a long gives the duration back |
| JsonLogFormatter.HeadersTree | src/main/kotlin/io/github/susimsek/springbootreactiveexample/config/logging/formatter/JsonLogFormatter.kt:78-80 | headers become an object with one key per header name, in order, each holding an array of that header's values |
| JsonLogFormatter.ParseBody | src/main/kotlin/io/github/susimsek/springbootreactiveexample/config/logging/formatter/JsonLogFormatter.kt:91-99 | a body that does not parse becomes an object whose only key "body" holds the text |
| JsonLogFormatter.KeyInjective | src/main/kotlin/io/github/susimsek/springbootreactiveexample/config/logging/formatter/JsonLogFormatter.kt:54-66 | distinct log fields are written under distinct keys |
| JsonLogFormatter.Rank | src/main/kotlin/io/github/susimsek/springbootreactiveexample/config/logging/formatter/JsonLogFormatter.kt:54-66 | proof helper: each field has a position below the number of fields |
| JsonLogFormatter.FieldAt | src/main/kotlin/io/github/susimsek/springbootreactiveexample/config/logging/formatter/JsonLogFormatter.kt:54-66 | proof helper: the field at a position has that position |
| JsonLogFormatter.FieldAtRank | src/main/kotlin/io/github/susimsek/springbootreactiveexample/config/logging/formatter/JsonLogFormatter.kt:54-66 | proof helper: positions and fields are in one-to-one correspondence |
| JsonLogFormatter.FieldsBefore | src/main/kotlin/io/github/susimsek/springbootreactiveexample/config/logging/formatter/JsonLogFormatter.kt:54-66 | proof helper: the fields written before position k all have smaller positions |
| JsonLogFormatter.FieldsBeforeFixed | src/main/kotlin/io/github/susimsek/springbootreactiveexample/config/logging/formatter/JsonLogFormatter.kt:54-59 | proof helper: source, type, method, uri, host and path are always written, in that order |
| JsonLogFormatter.FieldsBeforeAll | src/main/kotlin/io/github/susimsek/springbootreactiveexample/config/logging/formatter/JsonLogFormatter.kt:54-66 | proof helper: all written fields together are exactly the fixed fields followed by each optional field that is present |
| JsonLogFormatter.FieldsBeforeDistinct | src/main/kotlin/io/github/susimsek/springbootreactiveexample/config/logging/formatter/JsonLogFormatter.kt:54-66 | proof helper: no field is written twice |
| JsonLogFormatter.FieldKeys | src/main/kotlin/io/github/susimsek/springbootreactiveexample/config/logging/formatter/JsonLogFormatter.kt:54-66 | the keys of a field list are the keys of its fields, in order |
| JsonLogFormatter.RenderFields | src/main/kotlin/io/github/susimsek/springbootreactiveexample/config/logging/formatter/JsonLogFormatter.kt:54-66 | proof helper: one member per field |
| JsonLogFormatter.PutField | src/main/kotlin/io/github/susimsek/springbootreactiveexample/config/logging/formatter/JsonLogFormatter.kt:61-66 | putting a present field extends the rendered object by that field |
| JsonLogFormatter.SkipField | src/main/kotlin/io/github/susimsek/springbootreactiveexample/config/logging/formatter/JsonLogFormatter.kt:61-66 | an absent optional field adds nothing |
| JsonLogFormatter.RenderedGet | src/main/kotlin/io/github/susimsek/springbootreactiveexample/config/logging/formatter/JsonLogFormatter.kt:54-66 | the rendered object has the fields' keys in order and each key maps to its field's value |
| JsonLogFormatter.PutFixedFields | src/main/kotlin/io/github/susimsek/springbootreactiveexample/config/logging/formatter/JsonLogFormatter.kt:53-59 | the six unconditional puts build the rendering of the fixed fields |
| JsonLogFormatter.PutIfPresent | src/main/kotlin/io/github/susimsek/springbootreactiveexample/config/logging/formatter/JsonLogFormatter.kt:61-66 | an optional field is put when present and skipped otherwise |
| JsonLogFormatter.PutOptionalFields | src/main/kotlin/io/github/susimsek/springbootreactiveexample/config/logging/formatter/JsonLogFormatter.kt:61-66 | duration, statusCode, headers and body are added in that order when present |
| JsonLogFormatter.Format | src/main/kotlin/io/github/susimsek/springbootreactiveexample/config/logging/formatter/JsonLogFormatter.kt:52-70 | the log node has exactly the keys of the formatted fields, in order, and each key maps to its field's rendered value; absent fields have no key |
| HttpLogModel.IsHttpLogLevel | src/main/kotlin/io/github/susimsek/springbootreactiveexample/config/logging/filter/LoggingFilter.kt:248-250 | the configured level covers a level exactly by ordinal: FULL covers all, NONE is covered by all, only FULL covers FULL |
| HttpLogModel.CountTypeAppend | src/main/kotlin/io/github/susimsek/springbootreactiveexample/config/logging/filter/LoggingFilter.kt:154-223 | counting records of one type distributes over concatenation of log sequences |
| FilterSupport.ShouldNotLog | src/main/kotlin/io/github/susimsek/springbootreactiveexample/config/logging/filter/LoggingFilter.kt:234-240 | a request is excluded exactly when some rule has no method or the request's method, and its pattern matches the path |
| FilterSupport.MaskUri | src/main/kotlin/io/github/susimsek/springbootreactiveexample/config/logging/filter/LoggingFilter.kt:258-265 | with no sensitive parameters the URI is kept; otherwise only its query may change |
| FilterSupport.MaskBody | src/main/kotlin/io/github/susimsek/springbootreactiveexample/config/logging/filter/LoggingFilter.kt:159-164 | the body is unchanged when no JSON field is sensitive, when it is blank and when it does not parse |
| FilterSupport.RecordHeaders | src/main/kotlin/io/github/susimsek/springbootreactiveexample/config/logging/filter/LoggingFilter.kt:165-169 | headers are recorded exactly when the level covers HEADERS, then obfuscated with names kept |
| FilterSupport.RequestRecord | src/main/kotlin/io/github/susimsek/springbootreactiveexample/config/logging/filter/LoggingFilter.kt:154-181 | a request record carries method, masked URI, no status and no duration, the masked body and headers per level |
| FilterSupport.ResponseRecord | src/main/kotlin/io/github/susimsek/springbootreactiveexample/config/logging/filter/LoggingFilter.kt:194-223 | a response record carries method, masked URI, the status, the duration, the masked body and headers per level |
| FilterSupport.LogRequest | src/main/kotlin/io/github/susimsek/springbootreactiveexample/config/logging/filter/LoggingFilter.kt:154-181 | the emitted record is the request record |
| FilterSupport.LogResponse | src/main/kotlin/io/github/susimsek/springbootreactiveexample/config/logging/filter/LoggingFilter.kt:194-223 | the emitted record is the response record |
| FilterSupport.EmptyBodyStaysEmpty | src/main/kotlin/io/github/susimsek/springbootreactiveexample/config/logging/filter/LoggingFilter.kt:159-164 | an empty body is logged as an empty body |
| FilterSupport.Builder.constructor | src/main/kotlin/io/github/susimsek/springbootreactiveexample/config/logging/filter/LoggingFilter.kt:317-339 | defaults: level FULL, sensitive headers Authorization, Cookie, Set-Cookie, no exclusions, sensitive body fields access_token and refresh_token, sensitive parameter access_token |
| FilterSupport.Builder.WithHttpLogLevel | src/main/kotlin/io/github/susimsek/springbootreactiveexample/config/logging/filter/LoggingFilter.kt:348 | sets the level and nothing else |
| FilterSupport.Builder.SensitiveHeader | src/main/kotlin/io/github/susimsek/springbootreactiveexample/config/logging/filter/LoggingFilter.kt:356 | appends the headers and nothing else changes |
| FilterSupport.Builder.ShouldNotLogMethod | src/main/kotlin/io/github/susimsek/springbootreactiveexample/config/logging/filter/LoggingFilter.kt:365-367 | appends one (method, pattern) rule per pattern, in order |
| FilterSupport.Builder.ShouldNotLog | src/main/kotlin/io/github/susimsek/springbootreactiveexample/config/logging/filter/LoggingFilter.kt:375-377 | appends one method-less rule per pattern |
| FilterSupport.Builder.SensitiveJsonBodyField | src/main/kotlin/io/github/susimsek/springbootreactiveexample/config/logging/filter/LoggingFilter.kt:385-387 | appends the body paths and nothing else changes |
| FilterSupport.Builder.SensitiveParameter | src/main/kotlin/io/github/susimsek/springbootreactiveexample/config/logging/filter/LoggingFilter.kt:395-397 | appends the parameters and nothing else changes |
| FilterSupport.Builder.Build | src/main/kotlin/io/github/susimsek/springbootreactiveexample/config/logging/filter/LoggingFilter.kt:404-414 | the configuration is exactly the builder's current settings |
| FilterSupport.DefaultConfig | src/main/kotlin/io/github/susimsek/springbootreactiveexample/config/logging/filter/LoggingFilter.kt:317-339 | an unconfigured filter logs everything at FULL, masks the Authorization header and the access_token parameter |
| ServerLogging.LoggingExchange.constructor | src/main/kotlin/io/github/susimsek/springbootreactiveexample/config/logging/filter/LoggingFilter.kt:82-95 | decorating logs the request at once exactly when the declared content length is missing, unparseable or zero; nothing is captured or committed yet |
| ServerLogging.LoggingExchange.GetBody | src/main/kotlin/io/github/susimsek/springbootreactiveexample/config/logging/filter/LoggingFilter.kt:97-110 | reading the body passes the same bytes through and logs the request once, with the captured body at FULL |
| ServerLogging.LoggingExchange.BeforeCommit | src/main/kotlin/io/github/susimsek/springbootreactiveexample/config/logging/filter/LoggingFilter.kt:117-124 | the first commit logs the response once with the captured body and elapsed time; later commits log nothing |
| ServerLogging.LoggingExchange.WriteWith | src/main/kotlin/io/github/susimsek/springbootreactiveexample/config/logging/filter/LoggingFilter.kt:126-134 | writing passes the same bytes to the response and commits it, logging the response on the first commit |
| ServerLogging.LoggingExchange.SetComplete | src/main/kotlin/io/github/susimsek/springbootreactiveexample/config/logging/filter/LoggingFilter.kt:117-124 | completing without a body commits the response and logs it on the first commit |
| ServerLogging.LoggingExchange.Step | src/main/kotlin/io/github/susimsek/springbootreactiveexample/config/logging/filter/LoggingFilter.kt:82-143 | one handler step adds exactly its logs and its written bytes |
| ServerLogging.PassThrough | src/main/kotlin/io/github/susimsek/springbootreactiveexample/config/logging/filter/LoggingFilter.kt:69-72 | an excluded request reaches the chain undecorated: the written bytes are passed through |
| ServerLogging.ScriptSnoc | src/main/kotlin/io/github/susimsek/springbootreactiveexample/config/logging/filter/LoggingFilter.kt:82-143 | the logs and bytes of a script extended by a step are those of the script followed by the step's |
| ServerLogging.CommittedSnoc | src/main/kotlin/io/github/susimsek/springbootreactiveexample/config/logging/filter/LoggingFilter.kt:117-124 | a script has committed once any step commits |
| ServerLogging.ScriptStep | src/main/kotlin/io/github/susimsek/springbootreactiveexample/config/logging/filter/LoggingFilter.kt:82-143 | proof helper: ScriptSnoc and CommittedSnoc at consecutive prefixes of one script |
| ServerLogging.ProcessRequest | src/main/kotlin/io/github/susimsek/springbootreactiveexample/config/logging/filter/LoggingFilter.kt:82-143 | running the handler on the decorated exchange produces exactly the processed logs and forwards exactly the written bytes |
| ServerLogging.Filter | src/main/kotlin/io/github/susimsek/springbootreactiveexample/config/logging/filter/LoggingFilter.kt:69-74 | the filter logs nothing for excluded requests and the decorated logs otherwise; the response bytes are always forwarded unchanged |
| ServerLogging.FirstCommit | src/main/kotlin/io/github/susimsek/springbootreactiveexample/config/logging/filter/LoggingFilter.kt:117-124 | the first committing step of a script commits |
| ServerLogging.FirstCommitCommitted | src/main/kotlin/io/github/susimsek/springbootreactiveexample/config/logging/filter/LoggingFilter.kt:117-124 | a script has a first committing step exactly when it commits |
| ServerLogging.StepLogsShape | src/main/kotlin/io/github/susimsek/springbootreactiveexample/config/logging/filter/LoggingFilter.kt:97-134 | a read logs the request, the first commit logs the response, a later commit logs nothing |
| ServerLogging.ProcessedLogsWellFormed | src/main/kotlin/io/github/susimsek/springbootreactiveexample/config/logging/filter/LoggingFilter.kt:154-223 | every record the decorated exchange emits is well formed for the level and marked as server-side |
| ServerLogging.StepLogsCount | src/main/kotlin/io/github/susimsek/springbootreactiveexample/config/logging/filter/LoggingFilter.kt:97-134 | a step logs one request exactly when it reads, one response exactly when it is the first commit |
| ServerLogging.RequestCount | src/main/kotlin/io/github/susimsek/springbootreactiveexample/config/logging/filter/LoggingFilter.kt:90-110 | the number of request records is the number of reads plus one when logged at decoration |
| ServerLogging.ResponseCount | src/main/kotlin/io/github/susimsek/springbootreactiveexample/config/logging/filter/LoggingFilter.kt:117-124 | exactly one response record when the response commits, none otherwise |
| ServerLogging.ResponseRecordIsFirstCommit | src/main/kotlin/io/github/susimsek/springbootreactiveexample/config/logging/filter/LoggingFilter.kt:117-124 | the response record is built from the first commit's captured body and elapsed time |
| ServerLogging.BelowFullBodiesEmpty | src/main/kotlin/io/github/susimsek/springbootreactiveexample/config/logging/filter/LoggingFilter.kt:97-134 | below FULL no body is captured, so every record has an empty body |
| ServerLogging.FullLevelLogsBodilessRequestTwice | src/main/kotlin/io/github/susimsek/springbootreactiveexample/config/logging/filter/LoggingFilter.kt:90-110 | a bodiless request read once at FULL is logged twice: at decoration and after the read |
| ClientLogging.ContentLength | src/main/kotlin/io/github/susimsek/springbootreactiveexample/config/logging/filter/WebClientLoggingFilter.kt:131 | a missing Content-Length reads as -1 |
| ClientLogging.Send | src/main/kotlin/io/github/susimsek/springbootreactiveexample/config/logging/filter/WebClientLoggingFilter.kt:82-112 | the request sends the same bytes; only the buffering decorator, used at FULL, captures the body |
| ClientLogging.Filter | src/main/kotlin/io/github/susimsek/springbootreactiveexample/config/logging/filter/WebClientLoggingFilter.kt:68-112 | excluded requests pass through unlogged; otherwise the request is logged first and the response second, an unparseable Content-Length at FULL fails, and the returned response is the rebuilt one |
| ClientLogging.ReturnedResponseSameBytes | src/main/kotlin/io/github/susimsek/springbootreactiveexample/config/logging/filter/WebClientLoggingFilter.kt:123-154 | the response handed back keeps status, headers and body bytes, as one buffer when it was read |
| ClientLogging.BelowFullClientBodiesEmpty | src/main/kotlin/io/github/susimsek/springbootreactiveexample/config/logging/filter/WebClientLoggingFilter.kt:123-154 | below FULL neither body is read, so both are logged empty |
| ClientLogging.NoBodyLoggedEmpty | src/main/kotlin/io/github/susimsek/springbootreactiveexample/config/logging/filter/WebClientLoggingFilter.kt:82-112 | a request without body is logged with an empty body |
| Violations.StripDtoSuffix | src/main/kotlin/io/github/susimsek/springbootreactiveexample/dto/Violation.kt:55 | the literal pattern "DTO$" is removed at its first occurrence; a name without that literal is unchanged |
| Violations.DtoSuffixKept | src/main/kotlin/io/github/susimsek/springbootreactiveexample/dto/Violation.kt:55 | "todoDTO" keeps its suffix because the pattern is literal, not a regular expression |
| Violations.SnakeCode | src/main/kotlin/io/github/susimsek/springbootreactiveexample/dto/Violation.kt:54 | a present code becomes its snake case, with no upper-case letters and the same letters |
| Violations.FromMessage | src/main/kotlin/io/github/susimsek/springbootreactiveexample/dto/Violation.kt:42-48 | only the object name and message are set |
| Violations.FromFieldError | src/main/kotlin/io/github/susimsek/springbootreactiveexample/dto/Violation.kt:53-59 | code in snake case, object name with the literal rewrite, field, rejected value and message copied |
| Violations.FromObjectError | src/main/kotlin/io/github/susimsek/springbootreactiveexample/dto/Violation.kt:64-70 | code in snake case, object name moved to field with the literal rewrite, no object name, no rejected value |
| Violations.GetField | src/main/kotlin/io/github/susimsek/springbootreactiveexample/dto/Violation.kt:87-93 | the field is the last path node's name, none for an empty path |
| Violations.ViolationOf | src/main/kotlin/io/github/susimsek/springbootreactiveexample/dto/Violation.kt:75-81 | code from the annotation name in snake case, field from the path, rejected value and message copied |
| Violations.FromConstraintViolation | src/main/kotlin/io/github/susimsek/springbootreactiveexample/dto/Violation.kt:75-81 | the loop over the path builds exactly ViolationOf |
| StringUtils.SplitLowerUpper | src/main/kotlin/io/github/susimsek/springbootreactiveexample/utils/StringUtils.kt:23 | the first rewrite adds exactly one character per lower-case letter directly followed by a capital (LowerUpperCount) and keeps the first character |
| StringUtils.SplitLowerUpperLeavesNoBoundary | src/main/kotlin/io/github/susimsek/springbootreactiveexample/utils/StringUtils.kt:23 | after the first rewrite no lower-case letter is directly followed by a capital |
| StringUtils.SplitLowerUpperAppend | src/main/kotlin/io/github/susimsek/springbootreactiveexample/utils/StringUtils.kt:23 | the first rewrite works piece by piece on a concatenation when no lower-to-upper pair straddles the cut |
| StringUtils.SplitLowerUpperNoUpperPrefix | src/main/kotlin/io/github/susimsek/springbootreactiveexample/utils/StringUtils.kt:23 | a prefix without capitals is copied unchanged when no capital follows it |
| StringUtils.SplitLowerUpperCons | src/main/kotlin/io/github/susimsek/springbootreactiveexample/utils/StringUtils.kt:23 | proof helper: a leading character that starts no match is copied |
| StringUtils.SplitLowerUpperPair | src/main/kotlin/io/github/susimsek/springbootreactiveexample/utils/StringUtils.kt:23 | proof helper: a leading lower-upper pair becomes lower, "_", upper |
| StringUtils.SplitLowerUpperAppendPair | src/main/kotlin/io/github/susimsek/springbootreactiveexample/utils/StringUtils.kt:23 | proof helper: one step of SplitLowerUpperAppend past a lower-upper pair |
| StringUtils.SplitLowerUpperAppendCons | src/main/kotlin/io/github/susimsek/springbootreactiveexample/utils/StringUtils.kt:23 | proof helper: one step of SplitLowerUpperAppend past a single character |
| StringUtils.ConcatAssociative | src/main/kotlin/io/github/susimsek/springbootreactiveexample/utils/StringUtils.kt:23 | proof helper: concatenation is associative |
| StringUtils.SplitAcronym | src/main/kotlin/io/github/susimsek/springbootreactiveexample/utils/StringUtils.kt:24 | the second rewrite adds exactly one character per capital followed by a capital and a lower-case letter (AcronymCount); it keeps the first character, puts "_" second exactly when the text starts with such a triple and otherwise keeps the second character |
| StringUtils.SplitAcronymLeavesNoAcronym | src/main/kotlin/io/github/susimsek/springbootreactiveexample/utils/StringUtils.kt:24 | after the second rewrite no two capitals are directly followed by a lower-case letter |
| StringUtils.SplitAcronymWithoutMatch | src/main/kotlin/io/github/susimsek/springbootreactiveexample/utils/StringUtils.kt:24 | text with no capital-capital-lower triple is left unchanged by the second rewrite |
| StringUtils.ToSnakeCase | src/main/kotlin/io/github/susimsek/springbootreactiveexample/utils/StringUtils.kt:22-26 | the result has no upper-case letter |
| StringUtils.WithoutUnderscoresAppend | src/main/kotlin/io/github/susimsek/springbootreactiveexample/utils/StringUtils.kt:22-26 | dropping underscores distributes over concatenation |
| StringUtils.SplitLowerUpperOnlyUnderscores | src/main/kotlin/io/github/susimsek/springbootreactiveexample/utils/StringUtils.kt:23 | the first rewrite only inserts underscores |
| StringUtils.SplitAcronymOnlyUnderscores | src/main/kotlin/io/github/susimsek/springbootreactiveexample/utils/StringUtils.kt:24 | the second rewrite only inserts underscores |
| StringUtils.LowerWithoutUnderscores | src/main/kotlin/io/github/susimsek/springbootreactiveexample/utils/StringUtils.kt:25 | lower-casing commutes with dropping underscores |
| StringUtils.ToSnakeCaseOnlyInsertsUnderscores | src/main/kotlin/io/github/susimsek/springbootreactiveexample/utils/StringUtils.kt:22-26 | apart from underscores the result is the lower-cased input |
| StringUtils.ToSnakeCaseUnderscores | src/main/kotlin/io/github/susimsek/springbootreactiveexample/utils/StringUtils.kt:22-26 | apart from underscores the result is the lower-cased input, and it is longer than the input by exactly one underscore per lower-to-upper pair of the input plus one per capital-capital-lower triple left after the first rewrite |
| StringUtils.SplitLowerUpperNoUpper | src/main/kotlin/io/github/susimsek/springbootreactiveexample/utils/StringUtils.kt:23 | a string without upper-case letters is unchanged by the first rewrite |
| StringUtils.SplitAcronymNoUpper | src/main/kotlin/io/github/susimsek/springbootreactiveexample/utils/StringUtils.kt:24 | a string without upper-case letters is unchanged by the second rewrite |
| StringUtils.ToSnakeCaseNoUpper | src/main/kotlin/io/github/susimsek/springbootreactiveexample/utils/StringUtils.kt:22-26 | a string without upper-case letters is its own snake case |
| StringUtils.ToSnakeCaseIdempotent | src/main/kotlin/io/github/susimsek/springbootreactiveexample/utils/StringUtils.kt:22-26 | converting twice equals converting once |
| StringUtils.CamelCaseStringExample | src/main/kotlin/io/github/susimsek/springbootreactiveexample/utils/StringUtils.kt:16 | the documented example: "camelCaseString" becomes "camel_case_string" |
| StringUtils.PascalCaseStringExample | src/main/kotlin/io/github/susimsek/springbootreactiveexample/utils/StringUtils.kt:17 | the documented example: "CamelCaseString" becomes "camel_case_string" |
| StringUtils.StringTailFirstPass | src/main/kotlin/io/github/susimsek/springbootreactiveexample/utils/StringUtils.kt:23 | proof helper: the first rewrite turns "eString" into "e_String" |
| StringUtils.CaseStringTailFirstPass | src/main/kotlin/io/github/susimsek/springbootreactiveexample/utils/StringUtils.kt:23 | proof helper: the first rewrite turns "lCaseString" into "l_Case_String" |
| StringUtils.LowerHeadFirstPass | src/main/kotlin/io/github/susimsek/springbootreactiveexample/utils/StringUtils.kt:23 | proof helper: a capital-free head before "lCaseString" is copied by the first rewrite |
| StringUtils.CamelCaseStringFirstPass | src/main/kotlin/io/github/susimsek/springbootreactiveexample/utils/StringUtils.kt:23 | proof helper: the first rewrite turns "camelCaseString" into "camel_Case_String" |
| StringUtils.PascalHeadFirstPass | src/main/kotlin/io/github/susimsek/springbootreactiveexample/utils/StringUtils.kt:23 | proof helper: the first rewrite copies the leading capital of "CamelCaseString" |
| StringUtils.PascalCaseStringFirstPass | src/main/kotlin/io/github/susimsek/springbootreactiveexample/utils/StringUtils.kt:23 | proof helper: the first rewrite turns "CamelCaseString" into "Camel_Case_String" |
| StringUtils.CaseStringSecondPass | src/main/kotlin/io/github/susimsek/springbootreactiveexample/utils/StringUtils.kt:24 | proof helper: the second rewrite leaves "camel_Case_String" and "Camel_Case_String" unchanged |
| StringUtils.LowerCaseString | src/main/kotlin/io/github/susimsek/springbootreactiveexample/utils/StringUtils.kt:25 | proof helper: lower-casing either first-pass output gives "camel_case_string" |
| StringUtils.LowerExample | src/main/kotlin/io/github/susimsek/springbootreactiveexample/utils/StringUtils.kt:25 | proof helper: lower-casing a concrete text character by character |
| StringUtils.LowerUrlValue | src/main/kotlin/io/github/susimsek/springbootreactiveexample/utils/StringUtils.kt:25 | proof helper: lower-casing "URL_Value" gives "url_value" |
| StringUtils.AcronymExampleFirstPass | src/main/kotlin/io/github/susimsek/springbootreactiveexample/utils/StringUtils.kt:23 | proof helper: the first rewrite leaves "URLValue" unchanged |
| StringUtils.ValueSecondPass | src/main/kotlin/io/github/susimsek/springbootreactiveexample/utils/StringUtils.kt:24 | proof helper: the second rewrite leaves "Value" unchanged |
| StringUtils.AcronymExample | src/main/kotlin/io/github/susimsek/springbootreactiveexample/utils/StringUtils.kt:22-26 | "URLValue" becomes "url_value": the acronym rule splits before the last capital |
| StringUtils.AcronymExampleSecondPass | src/main/kotlin/io/github/susimsek/springbootreactiveexample/utils/StringUtils.kt:24 | proof helper: the acronym rewrite turns "URLValue" into "URL_Value" |
| StringUtils.ToSnakeCaseByPasses | src/main/kotlin/io/github/susimsek/springbootreactiveexample/utils/StringUtils.kt:22-26 | proof helper: the conversion is the two rewrites followed by lower-casing |
| EnumValidation.Distinct | src/main/kotlin/io/github/susimsek/springbootreactiveexample/validation/EnumValidator.kt:13-15 | the allowed names are the enum constants' names without repetition |
| EnumValidation.JoinToString | src/main/kotlin/io/github/susimsek/springbootreactiveexample/validation/EnumValidator.kt:31 | joining no names gives the empty string, one name gives that name |
| EnumValidation.JoinToStringContains | src/main/kotlin/io/github/susimsek/springbootreactiveexample/validation/EnumValidator.kt:31 | every allowed name occurs in the joined list |
| EnumValidation.ValidatorContext.constructor | src/main/kotlin/io/github/susimsek/springbootreactiveexample/validation/EnumValidator.kt:33-38 | a fresh context has the default violation enabled and nothing added |
| EnumValidation.EnumValidator.constructor | src/main/kotlin/io/github/susimsek/springbootreactiveexample/validation/EnumValidator.kt:9-10 | a fresh validator is not yet initialised |
| EnumValidation.EnumValidator.Initialize | src/main/kotlin/io/github/susimsek/springbootreactiveexample/validation/EnumValidator.kt:12-17 | keeps the message and the distinct constant names: a name is allowed exactly when it is a constant's name |
| EnumValidation.EnumValidator.IsValid | src/main/kotlin/io/github/susimsek/springbootreactiveexample/validation/EnumValidator.kt:19-42 | valid exactly when null, or the string or enum name is allowed; on failure the default violation is disabled and the allowed list and message template are added; on success the context is untouched |
| EnumValidation.EnumCheckedByName | src/main/kotlin/io/github/susimsek/springbootreactiveexample/validation/EnumValidator.kt:24-26 | every constant of the annotated enum passes |
| DatabaseConfig.ServerPort | src/main/kotlin/io/github/susimsek/springbootreactiveexample/config/DatabaseConfig.kt:45 | the server port is the property parsed as an Int, 8080 when absent or unparseable |
| DatabaseConfig.H2Port | src/main/kotlin/io/github/susimsek/springbootreactiveexample/config/DatabaseConfig.kt:46-50 | a valid TCP port maps to a different port in 10000..65535; an Int stays an Int |
| DatabaseConfig.GetValidPortForH2 | src/main/kotlin/io/github/susimsek/springbootreactiveexample/config/DatabaseConfig.kt:44-52 | the returned text parses back to the shifted port |
| DatabaseConfig.DefaultH2Port | src/main/kotlin/io/github/susimsek/springbootreactiveexample/config/DatabaseConfig.kt:44-52 | without a usable server.port the H2 port is "18080" |
| DatabaseConfig.DefaultH2PortText | src/main/kotlin/io/github/susimsek/springbootreactiveexample/config/DatabaseConfig.kt:51 | proof helper: the decimal text of 18080 is "18080" |
| ExceptionHandling.Parent | src/main/kotlin/io/github/susimsek/springbootreactiveexample/exception/CoResponseEntityExceptionHandler.kt:82-156 | only Exception has no superclass; a superclass is one level shallower |
| ExceptionHandling.SuperclassIsShallower | src/main/kotlin/io/github/susimsek/springbootreactiveexample/exception/CoResponseEntityExceptionHandler.kt:82-156 | a proper superclass is strictly shallower |
| ExceptionHandling.SuperclassesFormChain | src/main/kotlin/io/github/susimsek/springbootreactiveexample/exception/CoResponseEntityExceptionHandler.kt:82-156 | two superclasses of one class are related by subclassing |
| ExceptionHandling.ResponseStatusKinds | src/main/kotlin/io/github/susimsek/springbootreactiveexample/exception/CoResponseEntityExceptionHandler.kt:84-138 | the modelled response-status exceptions are exactly the subclasses of ResponseStatusException |
| ExceptionHandling.StatusCodeOf | src/main/kotlin/io/github/susimsek/springbootreactiveexample/exception/CoResponseEntityExceptionHandler.kt:84-138 | each response-status exception carries its status; a plain one carries the given status |
| ExceptionHandling.FirstMatch | src/main/kotlin/io/github/susimsek/springbootreactiveexample/exception/CoResponseEntityExceptionHandler.kt:82-156 | dispatch picks the first branch whose class the exception is an instance of, none when no branch matches |
| ExceptionHandling.HandledHasNoShadowing | src/main/kotlin/io/github/susimsek/springbootreactiveexample/exception/CoResponseEntityExceptionHandler.kt:82-156 | no branch of handleException is shadowed by an earlier, more general one |
| ExceptionHandling.SwappedOrderShadows | src/main/kotlin/io/github/susimsek/springbootreactiveexample/exception/CoResponseEntityExceptionHandler.kt:105-124 | putting ServerWebInputException before WebExchangeBindException would shadow the latter |
| ExceptionHandling.FirstMatchIsMostSpecific | src/main/kotlin/io/github/susimsek/springbootreactiveexample/exception/CoResponseEntityExceptionHandler.kt:82-156 | without shadowing, the chosen branch is the most specific branch that matches |
| ExceptionHandling.EveryBranchReachable | src/main/kotlin/io/github/susimsek/springbootreactiveexample/exception/CoResponseEntityExceptionHandler.kt:82-156 | without shadowing, an exception of a branch's own class reaches that branch |
| ExceptionHandling.IntendedBranch | src/main/kotlin/io/github/susimsek/springbootreactiveexample/exception/CoResponseEntityExceptionHandler.kt:82-156 | proof helper: the intended branch is one of the listed branches |
| ExceptionHandling.DispatchReachesIntendedHandler | src/main/kotlin/io/github/susimsek/springbootreactiveexample/exception/CoResponseEntityExceptionHandler.kt:82-156 | every exception kind reaches the handler written for it, and unlisted kinds reach none |
| ExceptionHandling.NoHandledSuperclass | src/main/kotlin/io/github/susimsek/springbootreactiveexample/exception/CoResponseEntityExceptionHandler.kt:154 | exceptions of unlisted shallow classes match no branch |
| ExceptionHandling.GetLocale | src/main/kotlin/io/github/susimsek/springbootreactiveexample/exception/CoResponseEntityExceptionHandler.kt:49-51 | the exchange's locale, else the default |
| ExceptionHandling.GetLocalizedMessage | src/main/kotlin/io/github/susimsek/springbootreactiveexample/exception/CoResponseEntityExceptionHandler.kt:58-61 | without message source the key; otherwise the looked-up message, or the key when there is none |
| ExceptionHandling.PropertyNames | src/main/kotlin/io/github/susimsek/springbootreactiveexample/exception/CoResponseEntityExceptionHandler.kt:341-349 | the property names in order |
| ExceptionHandling.SetProperty | src/main/kotlin/io/github/susimsek/springbootreactiveexample/exception/CoResponseEntityExceptionHandler.kt:190-192 | setting a property maps its name to the value, keeps the others, and appends the name only when new |
| ExceptionHandling.Put | src/main/kotlin/io/github/susimsek/springbootreactiveexample/exception/CoResponseEntityExceptionHandler.kt:191 | setting a property replaces or appends one entry |
| ExceptionHandling.PutLookup | src/main/kotlin/io/github/susimsek/springbootreactiveexample/exception/CoResponseEntityExceptionHandler.kt:191 | after setting, the name maps to the new value and every other name is unchanged |
| ExceptionHandling.PutNames | src/main/kotlin/io/github/susimsek/springbootreactiveexample/exception/CoResponseEntityExceptionHandler.kt:191 | names are kept when the property existed, else the new name is appended |
| ExceptionHandling.CreateProblemDetail | src/main/kotlin/io/github/susimsek/springbootreactiveexample/exception/CoResponseEntityExceptionHandler.kt:341-349 | a problem detail with the status, the detail and a single "error" property holding the code |
| ExceptionHandling.ErrorStaysFirst | src/main/kotlin/io/github/susimsek/springbootreactiveexample/exception/CoResponseEntityExceptionHandler.kt:341-349 | adding another property keeps "error" first with the same code |
| ExceptionHandling.MethodNames | src/main/kotlin/io/github/susimsek/springbootreactiveexample/exception/CoResponseEntityExceptionHandler.kt:191 | one method name per supported method, in order |
| ExceptionHandling.HandleServerErrorException | src/main/kotlin/io/github/susimsek/springbootreactiveexample/exception/CoResponseEntityExceptionHandler.kt:161-174 | 500 body, server_error code, localized server_error message, given headers and status |
| ExceptionHandling.HandleMethodNotAllowedException | src/main/kotlin/io/github/susimsek/springbootreactiveexample/exception/CoResponseEntityExceptionHandler.kt:179-194 | 405 body with the method_not_allowed code and the supported methods joined by ", " |
| ExceptionHandling.HandleNotAcceptableStatusException | src/main/kotlin/io/github/susimsek/springbootreactiveexample/exception/CoResponseEntityExceptionHandler.kt:199-212 | 406 body with the not_acceptable code and message |
| ExceptionHandling.HandleUnsupportedMediaTypeStatusException | src/main/kotlin/io/github/susimsek/springbootreactiveexample/exception/CoResponseEntityExceptionHandler.kt:217-232 | 415 body with the unsupported_media_type code and the supported media types joined by ", " |
| ExceptionHandling.BindViolations | src/main/kotlin/io/github/susimsek/springbootreactiveexample/exception/CoResponseEntityExceptionHandler.kt:245 | one violation per field error, then one per global error, in order |
| ExceptionHandling.BindViolationsShape | src/main/kotlin/io/github/susimsek/springbootreactiveexample/exception/CoResponseEntityExceptionHandler.kt:245 | each violation comes from its field or global error |
| ExceptionHandling.HandleWebExchangeBindException | src/main/kotlin/io/github/susimsek/springbootreactiveexample/exception/CoResponseEntityExceptionHandler.kt:237-256 | 400 body with the invalid_request code, validation_failed message and the violations list |
| ExceptionHandling.ConstraintViolations | src/main/kotlin/io/github/susimsek/springbootreactiveexample/exception/CoResponseEntityExceptionHandler.kt:269 | one violation per constraint violation, in order |
| ExceptionHandling.HandleConstraintViolationException | src/main/kotlin/io/github/susimsek/springbootreactiveexample/exception/CoResponseEntityExceptionHandler.kt:261-280 | 400 body with the invalid_request code, validation_failed message and the violations list |
| ExceptionHandling.HandleServerWebInputException | src/main/kotlin/io/github/susimsek/springbootreactiveexample/exception/CoResponseEntityExceptionHandler.kt:285-300 | 400 body with the invalid_request code and message |
| ExceptionHandling.HandleResponseStatusException | src/main/kotlin/io/github/susimsek/springbootreactiveexample/exception/CoResponseEntityExceptionHandler.kt:305-317 | the exception's own status, its reason or "Error occurred." as detail, code response_status_exception |
| ExceptionHandling.CreateDefaultErrorResponse | src/main/kotlin/io/github/susimsek/springbootreactiveexample/exception/CoResponseEntityExceptionHandler.kt:322-336 | the given status, empty headers, server_error code and message |
| ExceptionHandling.HandleSocketTimeoutException | src/main/kotlin/io/github/susimsek/springbootreactiveexample/exception/CoResponseEntityExceptionHandler.kt:354-369 | 504 body with the gateway_timeout code and message |
| ExceptionHandling.HandleUnsupportedOperationException | src/main/kotlin/io/github/susimsek/springbootreactiveexample/exception/CoResponseEntityExceptionHandler.kt:374-389 | 501 body with the unsupported_operation code and message |
| ExceptionHandling.HandleException | src/main/kotlin/io/github/susimsek/springbootreactiveexample/exception/CoResponseEntityExceptionHandler.kt:82-156 | response status equals the body status, "error" comes first, headers come from the exception only for response-status kinds, and status and code are those of the kind (500 server_error for unhandled kinds) |
| ExceptionHandling.BindFailureOutcome | src/main/kotlin/io/github/susimsek/springbootreactiveexample/exception/CoResponseEntityExceptionHandler.kt:105-110 | a bind failure gets the validation_failed message and its violations |
| ExceptionHandling.ConstraintFailureOutcome | src/main/kotlin/io/github/susimsek/springbootreactiveexample/exception/CoResponseEntityExceptionHandler.kt:112-117 | a constraint violation gets empty headers and its violations |
| ExceptionHandling.ResponseStatusOutcome | src/main/kotlin/io/github/susimsek/springbootreactiveexample/exception/CoResponseEntityExceptionHandler.kt:133-138 | a plain response-status exception keeps its status, reason and headers |
| ExceptionHandling.AllowedMethodsExample | src/main/kotlin/io/github/susimsek/springbootreactiveexample/exception/CoResponseEntityExceptionHandler.kt:191 | supported methods GET and PUT are listed as "GET, PUT" |
| ExceptionHandling.JoinTwo | src/main/kotlin/io/github/susimsek/springbootreactiveexample/exception/CoResponseEntityExceptionHandler.kt:191 | two names are joined with the separator between them |
| GlobalExceptionHandling.ResourceArgs | src/main/kotlin/io/github/susimsek/springbootreactiveexample/exception/GlobalExceptionHandler.kt:61 | name, criteria and value are the message arguments, in that order |
| GlobalExceptionHandling.ValidationArgs | src/main/kotlin/io/github/susimsek/springbootreactiveexample/exception/GlobalExceptionHandler.kt:109-114 | the exception then its own arguments are the message arguments |
| GlobalExceptionHandling.HandleGenericException | src/main/kotlin/io/github/susimsek/springbootreactiveexample/exception/GlobalExceptionHandler.kt:31-44 | 500, server_error code, localized server_error message, empty headers |
| GlobalExceptionHandling.GenericAgreesWithDefault | src/main/kotlin/io/github/susimsek/springbootreactiveexample/exception/GlobalExceptionHandler.kt:31-44 | the generic handler answers as the base handler's default response |
| GlobalExceptionHandling.HandleResourceNotFoundException | src/main/kotlin/io/github/susimsek/springbootreactiveexample/exception/GlobalExceptionHandler.kt:57-68 | 404, resource_not_found code, message looked up with the resource arguments |
| GlobalExceptionHandling.HandleResourceConflictException | src/main/kotlin/io/github/susimsek/springbootreactiveexample/exception/GlobalExceptionHandler.kt:81-92 | 409, resource_conflict code, message looked up with the resource arguments |
| GlobalExceptionHandling.HandleValidationException | src/main/kotlin/io/github/susimsek/springbootreactiveexample/exception/GlobalExceptionHandler.kt:105-122 | 400, invalid_request code, message looked up under the exception's message with its arguments |
| GlobalExceptionHandling.ValidationDetailWithoutMessageSource | src/main/kotlin/io/github/susimsek/springbootreactiveexample/exception/GlobalExceptionHandler.kt:105-122 | without a message source the detail is the exception's message |
| Text.Split | src/main/kotlin/io/github/susimsek/springbootreactiveexample/config/logging/utils/Obfuscator.kt:95-96 | splitting yields at least one part and no part contains the delimiter |
| Text.JoinSplit | src/main/kotlin/io/github/susimsek/springbootreactiveexample/config/logging/utils/Obfuscator.kt:95-107 | joining the split parts with the delimiter gives the input back |
| Text.SplitJoin | src/main/kotlin/io/github/susimsek/springbootreactiveexample/config/logging/utils/Obfuscator.kt:95-107 | splitting the join of delimiter-free parts gives the parts back |
| Text.Lower | src/main/kotlin/io/github/susimsek/springbootreactiveexample/utils/StringUtils.kt:25 | lower-casing keeps the length and lowers each letter |
| Text.ReplaceFirst | src/main/kotlin/io/github/susimsek/springbootreactiveexample/dto/Violation.kt:55 | replaces the first occurrence of the literal pattern; without one the string is kept |
| Numbers.ParseInteger | src/main/kotlin/io/github/susimsek/springbootreactiveexample/config/DatabaseConfig.kt:45 | a parsed integer lies in the target range; the empty string does not parse |
| Numbers.ParseIntegerUnsigned | src/main/kotlin/io/github/susimsek/springbootreactiveexample/config/DatabaseConfig.kt:45 | a run of digits parses to its value exactly when that value is in range |
| Numbers.ParseIntegerPlus | src/main/kotlin/io/github/susimsek/springbootreactiveexample/config/DatabaseConfig.kt:45 | "+" followed by digits parses to the digits' value exactly when it is in range |
| Numbers.ParseIntegerMinus | src/main/kotlin/io/github/susimsek/springbootreactiveexample/config/DatabaseConfig.kt:45 | "-" followed by digits parses to the negated value exactly when it is in range |
| Numbers.ParseIntegerAccepted | src/main/kotlin/io/github/susimsek/springbootreactiveexample/config/DatabaseConfig.kt:45 | only those three forms parse: a lone sign, any other character or a sign inside the text gives null |
| Numbers.ParseDecimalString | src/main/kotlin/io/github/susimsek/springbootreactiveexample/config/DatabaseConfig.kt:51 | printing an integer and parsing it back gives it again |
| JsonTree.Put | src/main/kotlin/io/github/susimsek/springbootreactiveexample/config/logging/formatter/JsonLogFormatter.kt:54-59 | putting a key maps it to the value, keeps others, and appends the key only when new |
| JsonTree.IndexOfKey | src/main/kotlin/io/github/susimsek/springbootreactiveexample/config/logging/utils/Obfuscator.kt:129-131 | the first member with the key, none exactly when the key is absent |
| Http.GetFirst | src/main/kotlin/io/github/susimsek/springbootreactiveexample/config/logging/filter/LoggingFilter.kt:91 | the first value of a header matched ignoring case; none when the header is absent |
| Http.FlattenAppend | src/main/kotlin/io/github/susimsek/springbootreactiveexample/config/logging/utils/DataBufferCopyUtils.kt:36-48 | the bytes of concatenated streams are the concatenated bytes |

## Left out

- Reactor and coroutines: `Mono`, `Flux`, `mono { }`, `awaitSingle` and subscription timing are not modelled. A stream is the finite sequence of chunks it emits. The server handler's interaction with the decorated exchange is an explicit script of steps (read the body, write a body, complete).
- Clock: the stopwatch reading at commit time is a parameter of the commit step (server) or of `Filter` (client).
- Logging output: `logger.info` is modelled as appending the `HttpLog` record to a sequence. The pretty-printed text (`toPrettyString`) is not modelled; `Format` returns the JSON tree.
- Jackson: `readTree` and `writeValueAsString` are parameters (`ObjectMapper`, with `readTree` returning None for an `IOException`). `valueToTree` on the headers is not a parameter: `JsonLogFormatter.HeadersTree` fixes its shape as an object from each header name, in order, to the array of that header's values. JSON nodes are immutable values, and `maskPath` returns a new tree instead of mutating `ObjectNode`s in place, so aliasing between nodes is not captured.
- `AntPathMatcher.match` and UTF-8 decoding of captured bytes are parameters of `FilterSupport.Platform`.
- Obfuscator.MaskParameters: percent-encoding and decoding by `java.net.URI` are not modelled, and the `URISyntaxException` fallback is not reachable in the model because a URI value is always well formed.
- Case-insensitive comparison of header and parameter names uses ASCII case folding only. Full Unicode `equals(ignoreCase = true)` and `lowercase()` are not modelled; this applies to `Text.Lower` and `StringUtils.ToSnakeCase` too.
- Text.HasText: treats only ASCII whitespace (below U+0080) as blank, where Spring's `hasText` uses `Character.isWhitespace`, which also accepts U+2000–U+2006, U+3000 and other Unicode spaces. A body made only of such spaces is therefore not blank in `Obfuscator.MaskJsonBody` and gets a `body` key in `JsonLogFormatter.Format`, where the source treats it as blank.
- Numbers.ParseInteger: accepts ASCII digits only, where Kotlin's `toLongOrNull`/`toIntOrNull` and `Long.parseLong` accept any Unicode decimal digit. A value such as "٥" therefore does not parse in `Numbers.ToLongOrNull` and `Numbers.ToIntOrNull`, and so in `ServerLogging.DeclaredContentLength`, the server request decorator, `ClientLogging.ContentLength` and `DatabaseConfig.ServerPort`, where the source reads 5.
- FilterSupport.Builder.Build: in the source, `build` hands the builder's own mutable lists to the filter it creates (LoggingFilter.kt:404-414 and 53-56, likewise in WebClientLoggingFilter.kt), so `sensitive…`/`shouldNotLog` calls made after `build` still change the built filter. The model's `FilterConfig` is a value and does not capture that sharing.
- `HttpHeaders` is a list of (name, values) entries, kept in insertion order and looked up ignoring case. Spring's `LinkedCaseInsensitiveMap` internals are not modelled.
- Client `getContentLength`: an unparseable Content-Length makes `HttpHeaders.getContentLength` throw. This is modelled as an `Err` outcome of `ClientLogging.Filter`, with no response log.
- Client response body re-reading: the buffered response is rebuilt as one chunk of the same bytes. The original response's release semantics are not modelled.
- The client filter's `Builder`, `shouldNotLog`, `isHttpLogLevel` and `maskUri` are line-for-line those of the server filter (WebClientLoggingFilter.kt:236-267, 318-417). They are modelled once, in `FilterSupport`.
- A request URI without a path is matched against the exclusion rules as the empty path.
- MessageSource: `getMessage` is a parameter returning an optional message. A `NoSuchMessageException` is not modelled separately; a missing message yields the key, as a null result does. `MessageFormat` argument substitution is up to that parameter.
- The JVM default locale is the `defaultLocale` field of `Localization`.
- ProblemDetail: only status, detail and the custom properties are modelled. `title`, `type` and `instance`, which Spring fills in, are not.
- Exception classes: only the classes the handlers name, and their superclass chains, are modelled. Spring's intermediate classes between them are folded away; they change no branch.
- The headers and status that Spring computes for each `ResponseStatusException` subclass are fields of the thrown value. For the fixed-status kinds, `StatusCodeOf` gives the status that subclass always carries.
- A `MethodNotAllowedException`'s supported methods are a `Set`; the model takes them as a sequence in iteration order.
- Which `@ExceptionHandler` method Spring resolves for an exception is not modelled, either across the base handler and the application's advice or by most-specific-type matching. Each handler is modelled as a function that can be called on its own.
- GlobalExceptionHandling.HandleValidationException: the `?: "Validation error occurred."` fallback is not modelled. The application's `ValidationException` always passes a non-null message to its superclass, so the fallback cannot be reached.
- EnumValidation.EnumValidator.IsValid: requires that the validator was initialised for non-null values. This is the `lateinit` property's own demand; reading it earlier throws.
- Enum values are modelled by their class and constant name; any other non-string value is rejected, as the source does.
- Hibernate's `ConstraintValidatorContext` is a small class that records the parameters and templates added. Building the final message is not modelled.
- DatabaseConfig: Spring's `Environment` is an optional property string. Starting the H2 TCP server (`h2TCPServer`) and the other beans of that class are not modelled.
- Persistence, caching, the controllers, the services and the application wiring are not part of this model.
