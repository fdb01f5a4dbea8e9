# Admin API, request gate, health checks and Sentry scrubbers

This project is a Dafny model of the per-request decision logic of a small Next.js application:

- the admin user API (`/api/users`): its five handlers and their error envelope;
- the request gate (`middleware`):
  - which paths consult the rate limiter, under which key;
  - the `429` answer and its `Retry-After`;
  - the header map attached to forwarded requests;
  - the route matcher that decides which paths reach the gate;
- the health endpoint (`/api/health`): the database probe and the environment check, and how GET and HEAD turn them into `200` or `503`;
- the server-side Sentry `beforeSend` hook:
  - the keyword drop;
  - deleting credential headers;
  - masking credential query parameters, written as a hand-written scanner and proved equal to a specification of the regular-expression replacement;
- the browser-side Sentry `beforeSend` hook, which has only the keyword drop.

The model treats these as inputs: the identity provider's answer, the rate limiter's verdict, the clock, the database probe's reply and the process environment.

Modules:

- `Common`: options and string helpers, the UTF-16 `length` of a string, plus `Number.prototype.toString` on naturals.
- `JsNumber`: `parseInt` without a radix, `Math.min`, `<` with NaN and JSON rendering of NaN.
- `Users`: `app/api/users/route.ts`, as pure functions. Each handler returns the provider call it made (if any) and the response.
- `Gate`: `app/api/middleware.ts`. The header assembly is a method over a mutable `Headers` object; the rest is functions.
- `Health`: `app/api/health/route.ts`, as pure functions.
- `SentryEvents`: the event fields both hooks inspect, and the drop test.
- `SentryServer`: `sentry.server.config.ts`. The event and its request are classes updated in place; the query-string scanner is a loop proved against `Redact`.
- `SentryClient`: `sentry.client.config.ts`, as a pure function.

## Model

| member | source | states |
|---|---|---|
| Common.Utf16Length | app/api/users/route.ts:11-17 | a string's JavaScript `length` counts UTF-16 code units: between one and two per character |
| Common.Utf16LengthBasic | app/api/users/route.ts:11-17 | characters below U+10000 are one code unit each, so `length` is the character count |
| Common.Utf16LengthAstral | app/api/users/route.ts:11-17 | characters above U+FFFF are a surrogate pair each, so `length` is twice the character count |
| Common.NatToString | app/api/middleware.ts:40-43 | `toString()` of a non-negative integer is a non-empty string of decimal digits with no leading zero except for `"0"` |
| Common.NatToStringValue | app/api/middleware.ts:40-43 | reading the numeral back gives the number |
| JsNumber.Min | app/api/users/route.ts:40 | `Math.min` is NaN iff an argument is NaN, otherwise the smaller argument |
| JsNumber.TrimStart | app/api/users/route.ts:39-40 | `parseInt` skips exactly the leading white-space characters |
| JsNumber.DigitRun | app/api/users/route.ts:39-40 | the digit prefix parseInt reads is the longest run of digits in the radix |
| JsNumber.ParseUnsigned | app/api/users/route.ts:39-40 | the unsigned part of `parseInt` is NaN or non-negative |
| JsNumber.Negate | app/api/users/route.ts:39-40 | a leading `-` negates the value and keeps NaN |
| JsNumber.ParseIntDecimal | app/api/users/route.ts:39-40 | a string starting with a decimal digit (no `0x`) parses as its longest decimal prefix |
| JsNumber.ParseIntNaN | app/api/users/route.ts:39-40 | a string whose first character is no digit, sign or white space parses as NaN |
| JsNumber.ParseIntSuffixIgnored | app/api/users/route.ts:39-40 | `parseInt(d + rest)` is the value of the digits `d` whatever non-digit text follows |
| JsNumber.ParseIntOfNatToString | app/api/middleware.ts:40-43 | `parseInt(n.toString()) == n` for every non-negative integer |
| JsNumber.ParseIntMinus | app/api/users/route.ts:39-40 | `parseInt('-' + t)` is the negation of the unsigned parse of `t` |
| JsNumber.ParseIntNonNumeric | app/api/users/route.ts:39 | `parseInt('abc')` is NaN |
| JsNumber.ParseIntHex | app/api/users/route.ts:39-40 | `0x`/`0X` switches to base 16; `0x` with no hex digit is NaN |
| JsNumber.ToJson | app/api/users/route.ts:62-66 | JSON renders NaN as `null` and an integer as itself |
| Users.ErrorResponse | app/api/users/route.ts:23-28 | the error envelope is `{error: message}` with the given status and no headers of its own |
| Users.ParamOr | app/api/users/route.ts:39-40 | `param \|\| fallback`: an absent or empty parameter takes the fallback |
| Users.RequestedPerPage | app/api/users/route.ts:40 | the page size is never above 100, NaN iff the parameter parses as NaN, otherwise the parse clamped to 100 |
| Users.StringIssues | app/api/users/route.ts:10-11 | a string field has at most one issue, and none iff it is absent and optional or a string meeting its rule |
| Users.RecordIssues | app/api/users/route.ts:12 | an optional record field has an issue iff it is present and not an object |
| Users.ValidateCreate | app/api/users/route.ts:9-13 | valid iff an object with no issue; then the email is a string accepted by the email check, the password a string of at least 8 UTF-16 code units, and `userData` the optional record |
| Users.ValidateUpdate | app/api/users/route.ts:15-20 | valid iff an object with no issue; each optional field is carried over exactly, and a present email meets the email check and a present password has at least 8 UTF-16 code units |
| Users.MinLength8Basic | app/api/users/route.ts:11-17 | for characters below U+10000, `.min(8)` means at least 8 characters |
| Users.MinLength8Astral | app/api/users/route.ts:11-17 | for characters above U+FFFF, `.min(8)` already holds at 4 characters, such as four emoji |
| Users.Summaries | app/api/users/route.ts:54-61 | the user list maps each user, in order, to its projection |
| Users.Options | app/api/users/route.ts:196-206 | OPTIONS answers 200 with no body and exactly the four CORS headers: any origin, the five methods, `Content-Type, Authorization` and a max age of `86400` |
| Users.OptionsAllowsHandledMethods | app/api/users/route.ts:201 | the preflight allows GET, POST, PUT, DELETE and OPTIONS |
| Users.DefaultPagination | app/api/users/route.ts:39-40 | absent or empty parameters mean page 1 and 10 per page |
| Users.GetCallsProviderIff | app/api/users/route.ts:42-46 | GET calls the provider iff the guard passes, with the parsed page and clamped size; otherwise 400 `Invalid pagination parameters` |
| Users.GetPerPageAtMost100 | app/api/users/route.ts:40-46 | the page size forwarded to the provider lies between 1 and 100 |
| Users.GetRejectsPageBelowOne | app/api/users/route.ts:42-44 | a page below 1 is rejected with no provider call |
| Users.GetForwardsNaNPage | app/api/users/route.ts:39-46 | a non-numeric page passes the guard, is forwarded as NaN and is echoed as `null` |
| Users.GetDefaultCall | app/api/users/route.ts:39-46 | the default request asks the provider for page 1 of 10 |
| Users.GetListsUsers | app/api/users/route.ts:53-67 | success is 200 with every user's projection, the echoed pagination and `total` equal to the number of users |
| Users.GetMissingUsersIsEmpty | app/api/users/route.ts:61-65 | a listing without users is an empty page with total 0 |
| Users.GetProviderFailures | app/api/users/route.ts:48-51 | a list error is 500 `Failed to fetch users`, an exception 500 `Internal server error` |
| Users.GetStatuses | app/api/users/route.ts:36-72 | GET answers 200, 400 or 500, and every non-200 answer is the error envelope |
| Users.PostCallsOnlyWithValidInput | app/api/users/route.ts:80-93 | POST calls the provider only with the body's email and password, which passed validation |
| Users.PostValidationError | app/api/users/route.ts:80-85 | invalid input is 400 `Validation error: ` and the issues joined by `, `, with no provider call |
| Users.PostShortPasswordRejected | app/api/users/route.ts:11 | a password under 8 UTF-16 code units is always a 400 naming the rule, with no provider call |
| Users.PostUnreadableBody | app/api/users/route.ts:77 | an unreadable body is the generic 500 before any call |
| Users.PostProviderError | app/api/users/route.ts:95-101 | a provider error is 409 iff it mentions `already registered`, otherwise 500 `Failed to create user` |
| Users.PostCreated | app/api/users/route.ts:103-113 | success is 201 with the user's id, email and creation time |
| Users.PostStatuses | app/api/users/route.ts:75-118 | POST answers 201, 400, 409 or 500, and every non-201 answer is the error envelope |
| Users.PutMissingId | app/api/users/route.ts:124-128 | without an id, PUT is 400 `User ID is required` whatever the body and the provider |
| Users.PutUnreadableBody | app/api/users/route.ts:130-162 | with an id, a body that is not JSON throws into the catch: 500 `Internal server error` and no provider call |
| Users.PutCallsOnlyWithValidUpdates | app/api/users/route.ts:130-141 | PUT calls the provider only for the requested id with the validated updates |
| Users.PutProviderError | app/api/users/route.ts:143-149 | a provider error is 404 iff it mentions `not found`, otherwise 500 `Failed to update user` |
| Users.PutStatuses | app/api/users/route.ts:121-163 | PUT answers 200, 400, 404 or 500, and every non-200 answer is the error envelope |
| Users.DeleteMissingId | app/api/users/route.ts:169-173 | without an id, DELETE is 400 and no provider call is made |
| Users.DeleteEchoesId | app/api/users/route.ts:175-188 | DELETE deletes exactly the requested id and echoes it as `deleted_user_id` |
| Users.DeleteProviderError | app/api/users/route.ts:177-183 | a provider error is 404 iff it mentions `not found`, otherwise 500 `Failed to delete user` |
| Users.DeleteStatuses | app/api/users/route.ts:166-193 | DELETE answers 200, 400, 404 or 500, and every non-200 answer is the error envelope |
| Users.GetThrownIsInternalError | app/api/users/route.ts:68-71 | a provider exception during GET is 500 `Internal server error` |
| Users.PostThrownIsInternalError | app/api/users/route.ts:114-117 | a provider exception during POST is 500 `Internal server error` |
| Users.PutThrownIsInternalError | app/api/users/route.ts:159-162 | a provider exception during PUT is 500 `Internal server error` |
| Users.DeleteThrownIsInternalError | app/api/users/route.ts:189-192 | a provider exception during DELETE is 500 `Internal server error` |
| Gate.LimiterKey | app/api/middleware.ts:26-29 | the key is `ratelimit_middleware_` followed by the address, or `127.0.0.1` without one |
| Gate.LimiterKeySeparatesClients | app/api/middleware.ts:26-29 | two requests share a key iff they share an address, a missing address counting as loopback |
| Gate.RetryAfterSeconds | app/api/middleware.ts:32-43 | `Retry-After` is the least whole number of seconds covering `max(0, reset - now)`, and 0 iff the reset has passed |
| Gate.RetryAfterPositiveIffPending | app/api/middleware.ts:34-43 | `Retry-After` is positive iff the reset is in the future; 1 ms and 1000 ms give 1 s, 1001 ms gives 2 s |
| Gate.RetryAfterValue | app/api/middleware.ts:43 | the header reads back as that non-negative ceiling |
| Gate.HeaderNameTextInjective | app/api/middleware.ts:14-20 | different header names are spelled differently |
| Gate.SecurityHeadersInOrder | app/api/middleware.ts:13-21 | setting the entries of `securityHeaders` in order yields exactly the object, since no name repeats |
| Gate.Headers.Set | app/api/middleware.ts:50-52 | `headers.set` replaces or adds one entry and leaves the rest |
| Gate.SetEach | app/api/middleware.ts:55-57 | the `forEach` over entries sets each pair in order |
| Gate.AddSecurityHeaders | app/api/middleware.ts:55-57 | after the loop the headers are the old ones overlaid with every security header |
| Gate.Middleware | app/api/middleware.ts:23-69 | the limiter is consulted iff the path starts with `/api/`, with the derived key; non-API requests get exactly the security headers; rejections are 429 `Too Many Requests` with the rejection map; accepted API requests get the rate-limit and security headers |
| Gate.SecurityMapShape | app/api/middleware.ts:13-21 | the security header map holds exactly the seven security names |
| Gate.SecurityMapSize | app/api/middleware.ts:13-21 | there are seven security headers |
| Gate.RateLimitMapShape | app/api/middleware.ts:50-52 | the rate-limit map holds exactly the three rate-limit names |
| Gate.RateLimitValues | app/api/middleware.ts:40-52 | the rate-limit values read back as the limiter's limit, remaining and reset |
| Gate.ForwardedApiHeaders | app/api/middleware.ts:49-59 | the rate-limit and security names are disjoint: the forwarded map keeps each group's values and has no `Retry-After` |
| Gate.ForwardedApiHeaderCount | app/api/middleware.ts:49-59 | an accepted API request carries ten headers |
| Gate.RejectionHeaderMap | app/api/middleware.ts:36-45 | the 429 carries every security header as declared, the three rate-limit values and `Retry-After` |
| Gate.RejectionHeaderCount | app/api/middleware.ts:38-44 | the 429 carries eleven headers |
| Gate.ApiPathsSelected | app/api/middleware.ts:79 | every `/api/` path without a line terminator reaches the middleware |
| Gate.AssetsNotSelected | app/api/middleware.ts:73-79 | paths under `/_next/static`, `/_next/image` and `/favicon.ico` bypass the middleware |
| Gate.MatcherDotIsWildcard | app/api/middleware.ts:79 | the unescaped `.` makes `/faviconXico` bypass it too, while `/dashboard` is selected |
| Health.ExceptionText | app/api/health/route.ts:27 | an exception is reported by its message, or `Unknown error` |
| Health.DatabaseHealth | app/api/health/route.ts:9-30 | healthy iff the query answered with no error or one containing `does not exist`; otherwise unhealthy with that message; a thrown probe is unhealthy with the exception text |
| Health.MissingTableTolerated | app/api/health/route.ts:18-19 | an error naming a missing table still counts as healthy |
| Health.OtherQueryErrorUnhealthy | app/api/health/route.ts:19-21 | any other query error is unhealthy with its message |
| Health.MissingVars | app/api/health/route.ts:39 | the filter keeps exactly the required names that are unset or empty |
| Health.EnvironmentHealth | app/api/health/route.ts:33-49 | healthy iff every required variable is set and non-empty; otherwise `Missing environment variables: ` and the missing names joined by `, ` |
| Health.MissingVarNamed | app/api/health/route.ts:39-45 | every missing variable is named in the error |
| Health.EnvironmentMessages | app/api/health/route.ts:34-45 | the three possible messages, with the names in their required order |
| Health.Version | app/api/health/route.ts:69 | the version is `npm_package_version`, or `unknown` when unset or empty |
| Health.Get | app/api/health/route.ts:52-117 | GET answers 200 or 503 and always has a body |
| Health.Head | app/api/health/route.ts:120-137 | HEAD has no body, answers 200 or 503, is a bare 503 on an exception and otherwise sends `Cache-Control: no-cache` |
| Health.GetHealthyIff | app/api/health/route.ts:63-93 | GET is 200 iff nothing threw and both checks are healthy; the report's status agrees and it embeds both checks |
| Health.GetCrashIs503 | app/api/health/route.ts:101-115 | a GET that throws answers 503 with the message and both checks marked failed |
| Health.GetNotCached | app/api/health/route.ts:94-98 | the answered GET carries the three no-cache headers |
| Health.HeadAgreesWithGet | app/api/health/route.ts:123-129 | HEAD gives the same status as an answered GET: 200 iff the database is healthy and every variable is set |
| Health.MissingVarIsUnavailable | app/api/health/route.ts:39-129 | a missing required variable makes GET and HEAD answer 503 |
| Health.DatabaseExceptionIsUnavailable | app/api/health/route.ts:24-129 | a thrown database probe makes GET and HEAD answer 503, with the exception text in the report |
| SentryEvents.FirstMessage | sentry.server.config.ts:32-33 | `exception?.values?.[0]?.value` is present iff there is an exception with a non-empty list whose first entry has a message |
| SentryEvents.OnlyFirstValueInspected | sentry.server.config.ts:32 | later exception values never change the decision, and a first value without a message is never dropped |
| SentryEvents.NoMessageNotSensitive | sentry.server.config.ts:31-38 | an event without a first exception message is never dropped |
| SentryEvents.SensitiveMonotone | sentry.client.config.ts:37 | a drop test with fewer words drops fewer events |
| SentryServer.WithoutSensitiveHeaders | sentry.server.config.ts:44-48 | `authorization`, `cookie` and `x-api-key` are removed and every other header keeps its value |
| SentryServer.WithoutSensitiveHeadersIdempotent | sentry.server.config.ts:44-48 | deleting the headers twice removes nothing more |
| SentryServer.FirstParam | sentry.server.config.ts:53 | the alternation picks a listed name followed by `=` matching caselessly, and none when no name matches |
| SentryServer.ParamAt | sentry.server.config.ts:53 | a match starts with `?` or `&` followed by a listed name and `=`, ignoring case |
| SentryServer.ValueLength | sentry.server.config.ts:53 | `[^&]*` runs up to the first `&` or the end |
| SentryServer.Consumed | sentry.server.config.ts:53 | one replacement step consumes at least one character and at most the rest |
| SentryServer.Written | sentry.server.config.ts:53 | one step writes text starting with the character it is at |
| SentryServer.MatchesCaselessAt | sentry.server.config.ts:53 | the comparison loop decides the caseless prefix test at an index |
| SentryServer.FindParamAt | sentry.server.config.ts:53 | the alternation loop finds the same name as the specification |
| SentryServer.ValueEnd | sentry.server.config.ts:53 | a value with no `&` before an `&` or the end has that length |
| SentryServer.SkipValue | sentry.server.config.ts:53 | the skipping loop stops where `[^&]*` ends |
| SentryServer.ScanAt | sentry.server.config.ts:53 | one scanner step writes and consumes what one step of the replacement does |
| SentryServer.RedactQuery | sentry.server.config.ts:51-54 | the scanner computes the global replacement `Redact` |
| SentryServer.RedactKeepsPrefix | sentry.server.config.ts:53 | a start with no separator survives the redaction |
| SentryServer.ParamAfterRedact | sentry.server.config.ts:53 | which name starts a text is unchanged by redacting it |
| SentryServer.ParamUnique | sentry.server.config.ts:53 | at most one listed `name=` can follow a separator |
| SentryServer.MatchStep | sentry.server.config.ts:53 | at `[sep] name = value rest` the step writes `[sep] name =***` and consumes exactly the parameter |
| SentryServer.RedactsParam | sentry.server.config.ts:51-54 | a sensitive parameter in any letter case keeps its separator and name as written and gets `***` as its value, up to the next `&` |
| SentryServer.MatchShape | sentry.server.config.ts:53 | a match covers the name up to case and is followed by nothing or `&` |
| SentryServer.RedactIdempotent | sentry.server.config.ts:53 | redacting twice gives the same as redacting once |
| SentryServer.RedactUnchangedWithoutMatch | sentry.server.config.ts:53 | text where no separator starts a sensitive `name=` is left as is |
| SentryServer.RedactWithoutSeparator | sentry.server.config.ts:53 | a query string with no `?` or `&` is left as is |
| SentryServer.ScrubbedQuery | sentry.server.config.ts:51-54 | only a non-empty query string is rewritten, and then by `Redact` |
| SentryServer.BeforeSend | sentry.server.config.ts:29-58 | null when the first message mentions a sensitive word, with the request untouched; otherwise the same event with its credential headers deleted and its query string scrubbed |
| SentryServer.SensitiveOnEachWord | sentry.server.config.ts:33-36 | the server drops iff the first message contains `password`, `token`, `key` or `secret` |
| SentryClient.BeforeSend | sentry.client.config.ts:33-42 | null iff the first message mentions `password` or `token`; otherwise the event itself |
| SentryClient.DropsIff | sentry.client.config.ts:35-39 | the client drops iff there is a first message and it contains `password` or `token` |
| SentryClient.ClientDropImpliesServerDrop | sentry.client.config.ts:37 | every event the client drops the server drops too |
| SentryClient.ServerOnlyWords | sentry.client.config.ts:37-41 | a message with only `key` or `secret` is sent by the client and dropped by the server |
| SentryClient.NoMessageSent | sentry.client.config.ts:35-41 | an event without a first exception message is sent unchanged |

## Left out

- The identity provider (`app/api/lib/supabase-admin.ts`) is not part of this model. Its answers are an input `Reply`: data, an error with a message, or an exception.
- The module-load environment checks of the provider client are not modelled. `app/api/lib/supabase-admin.ts:7-13` throws when `NEXT_PUBLIC_SUPABASE_URL` or `SUPABASE_SERVICE_ROLE_KEY` is unset, and the health route imports that module.
- Health.MissingVarIsUnavailable: the 503 it states, built by Health.EnvironmentHealth, is reached only for a variable that is emptied after the provider module has loaded. When one of the two provider variables is unset at start-up, the module throws while loading and neither health handler runs. The model does not capture that failure.
- Users.ValidateCreate, Users.ValidateUpdate: a JSON string may hold a lone surrogate, which counts as one code unit in JavaScript. A Dafny string cannot hold one, so such passwords are not modelled.
- The Upstash sliding-window limiter and its Redis counter are foreign code. Their verdict `(success, limit, remaining, reset)` is an input, and so is `Date.now()`.
- The zod email regular expression is not modelled; it is a parameter `isEmail`. Other zod rules are mirrored for the fields the schemas declare, with zod's default messages.
- `request.json()` parsing is an input: it gives a JSON value or throws.
- JSON numbers in request bodies are kept as integers. Values are never inspected beyond their type.
- JsNumber.ParseInt: results are mathematical integers. The model does not capture:
  - precision loss above 2^53;
  - the sign of `-0`;
  - overflow to `Infinity`: a run of more than about 309 decimal digits (a value of at least about 2^1024) parses as `Infinity`. For `page`, `Infinity` passes the `page < 1` guard, is forwarded to the provider and is echoed in the JSON body as `null`. For `per_page`, `Math.min(Infinity, 100)` is 100. The model forwards and echoes the exact integer instead.
  `toString` is modelled only for non-negative integers, so the exponent form of very large numbers is not modelled.
- Users.Summaries: `users?.map` over an absent list gives `[]`, as in the source. The provider's extra user fields are carried but never returned.
- `console.error` logging is left out.
- Gate.Middleware: header names are an enumeration spelled as the source writes them. The model does not capture:
  - Fetch `Headers` lower-casing names;
  - Fetch `Headers` comparing names case-insensitively.
  No two names used here differ only in case.
- Gate.Middleware: the model does not capture the request headers and body a forwarded request keeps.
- Gate.MatcherSelects: the matcher is modelled as the anchored regular expression itself. Next.js's path-to-regexp compilation details are not modelled, and neither are the `basePath` and locale prefixes.
- Health.Get: the runtime figures of the report (timestamp, uptime, memory, platform, response time) are not modelled. Where gathering them throws is a parameter `crash`.
- Health.Head: where the checks throw is a parameter `crashed`.
- SentryServer.BeforeSend:
  - `query_string` is modelled as an optional string; Sentry also allows an object or pairs.
  - Writes through other references to the header object are not modelled (aliasing); the hook's own update is.
  - The `i` flag compares ASCII letters caselessly. Without the `u` flag, JavaScript's case folding never maps a non-ASCII character onto an ASCII letter, and every letter in the pattern is ASCII. So this comparison matches exactly what the pattern does.
- Sentry `init` options are not modelled: DSN, sample rates, integrations and environment.
- UI pages, configuration files and browser tests are outside this model.
