# Reddit account-age service: a Dafny model of its core

The service answers `GET /api/reddit/:username` with profile and account-age information about
a Reddit user. It fetches this from Reddit's OAuth API. This project models the three pieces of
logic in `reddit-backend.js`:

- **The access-token cache** (`token_cache.dfy`). `getRedditAccessToken` keeps two
  process-wide variables, `cachedToken` and `tokenExpiry`. It hands out the cached token while
  that token is truthy and the clock is before the expiry. Otherwise it performs the OAuth 2.0
  client-credentials exchange (section 4.4 of RFC 6749). A granted token is stored with expiry
  "clock reading before the call + `expires_in` × 1000 − 10 000 ms". On failure nothing is
  stored and one generic error is thrown. The pure step `TokenCache.Fetch` specifies one call.
  The class `TokenCache.TokenProvider` holds the two variables, and its method `GetAccessToken`
  updates them in place and is proved against `Fetch`.
- **Account-age arithmetic** (`account_age.dfy`). `calculateAgeDays` floors the millisecond
  difference to whole days. `calculateAccountAge` splits that day count into years of 365 days
  and months of 30 days, using JavaScript's truncating `%`, and renders
  "`<y> years, <m> months`" or "`<m> months`". The age text is shown to read back
  (`ParseAge`) as the years and months when there is at least one year, and as the months
  alone otherwise: a zero or negative year count is not written.
- **The profile route** (`profile_route.dfy`). This covers the empty-username check (400), the
  missing-user check (404), the mapping of the upstream record with its `||` defaults and the
  verification-tier precedence, and the `catch` block's status and details fallbacks. `Respond`
  is the handler as a pure function of the token outcome and the upstream reply.
  `HandleProfileRequest` runs it against the shared `TokenProvider`.

`js_values.dfy` holds the JavaScript semantics these rely on: optional values, truthiness,
`||` on strings, `Math.floor(a / b)`, the truncating `%`, and integer-to-text conversion in
template literals, with a parser proved to invert it.

A `total_karma` of 0 falls back to the karma sum, just as a missing one does: the `||` at
reddit-backend.js:118 treats 0 like a missing value. A token response whose body is JSON `null`
makes the read of `data.access_token` throw, and the `catch` at reddit-backend.js:52-58 turns that
into the generic token error with nothing stored; the model covers this case as a rejected
exchange.

Inputs that stand for I/O: every clock reading (`Date.now()`, `new Date()`) is an integer
millisecond parameter. The token exchange is an `Exchange` value: what the POST would settle to
if it were sent. A cache hit never sends it. The "about user" GET is an `AboutReply` value.

## Model

| member | source | states |
|---|---|---|
| `JsValues.StringOr` | reddit-backend.js:120 | JS "a or b" on a string yields `a` exactly when `a` is present and non-empty, and `b` otherwise |
| `JsValues.FloorDiv` | reddit-backend.js:67 | `Math.floor(a / b)` is the integer `q` with `q·b ≤ a < q·b + b` |
| `JsValues.TruncRem` | reddit-backend.js:69 | JS `%` takes the sign of the dividend, its magnitude is the absolute value of `a` mod `b`, and it lies in `(-b, b)` |
| `JsValues.NatToDecimal` | reddit-backend.js:70 | a number renders as non-empty decimal digits, with no leading zero and one digit exactly below 10 |
| `JsValues.IntToDecimal` | reddit-backend.js:70 | an integer renders with a leading `-` exactly when it is negative |
| `JsValues.NatToDecimalRoundTrip` | reddit-backend.js:70 | the digits of a natural number read back as that number |
| `JsValues.IntToDecimalRoundTrip` | reddit-backend.js:70 | the text of any integer in a template literal reads back as that integer |
| `TokenCache.Fetch` | reddit-backend.js:25-60 | a hit returns the cached token, sends no exchange and changes nothing. A miss sends one exchange. A grant stores the token with its expiry and returns it. A rejection keeps both variables and throws the generic token error |
| `TokenCache.ReturnedTokenIsCached` | reddit-backend.js:49-51 | whenever a call returns a token, that token is the one the cache now holds |
| `TokenCache.NeverUsedPastLifetime` | reddit-backend.js:50 | a refreshed token is only usable at instants at least 10 s before issue instant + declared lifetime, and only if it is non-empty |
| `TokenCache.ReuseWithinWindow` | reddit-backend.js:26-51 | after a refresh, a second call before the expiry sends no exchange and returns the same token; two calls, one exchange |
| `TokenCache.RefreshAtExpiry` | reddit-backend.js:27-51 | once the clock reaches the expiry, the next call sends an exchange and its outcome alone decides the result |
| `TokenCache.FailureIsGeneric` | reddit-backend.js:52-58 | a failed exchange leaves the cache unchanged and throws the same error whatever the upstream reason |
| `TokenCache.CacheHoldsAGrant` | reddit-backend.js:22-51 | over any run of calls from a cache with no token, the cache holds no token or exactly the token and expiry granted by an exchange one of those calls sent |
| `TokenCache.HandedOutTokensAreGranted` | reddit-backend.js:25-51 | over any such run, every token handed out is the very token an exchange sent at or before that call granted, and the cache still holds that grant; unless that call obtained it, it is handed out before the stored expiry, so more than 10 s before the declared lifetime ends |
| `TokenCache.TokenProvider.constructor` | reddit-backend.js:22-23 | the cache starts as `cachedToken = null`, `tokenExpiry = 0`, with no exchange sent |
| `TokenCache.TokenProvider.GetAccessToken` | reddit-backend.js:25-60 | the new `cachedToken`/`tokenExpiry` and the result are those of `Fetch` on the old state; a hit changes nothing; a thrown call leaves both variables as they were; one exchange is counted per miss |
| `AgeHelpers.AgeDays` | reddit-backend.js:73-78 | the age in days `d` satisfies `d·86 400 000 ≤ now − created < (d+1)·86 400 000`, and is non-negative when created ≤ now |
| `AgeHelpers.AgeParts` | reddit-backend.js:67-69 | for a non-negative day count, years ≥ 0, months in 0..12, and years·365 + months·30 leave fewer than 30 days of the last year; for a negative count, years < 0 and months in −13..0 |
| `AgeHelpers.MonthsOnlyRoundTrip` | reddit-backend.js:70 | "`<m> months`" reads back as a months-only text with `m`, for every integer `m` |
| `AgeHelpers.YearsAndMonthsRoundTrip` | reddit-backend.js:70 | "`<y> years, <m> months`" reads back as years `y` and months `m`, for all integers |
| `AgeHelpers.FormatAgeRoundTrip` | reddit-backend.js:70 | the text `FormatAge` builds from an age reads back as that age's years and months when years > 0, and as its months alone, with no years part, when years ≤ 0 |
| `AgeHelpers.AccountAgeMeaning` | reddit-backend.js:63-71 | for created ≤ now, the text `AccountAge` returns reads back as years ≥ 0 and months 0..12 that account for the whole days to within one 30-day month; it has no years part exactly when under 365 days |
| `AgeHelpers.WholeDays` | reddit-backend.js:73-78 | an exact whole number of days between the two instants is the age in days |
| `AgeHelpers.FourHundredDays` | reddit-backend.js:63-78 | 400 days give age 400 and the text "1 years, 1 months" |
| `AgeHelpers.TwelveMonthsReached` | reddit-backend.js:68-70 | 364 days give "12 months", so the month bound 12 is reached |
| `AgeHelpers.FutureCreation` | reddit-backend.js:66-70 | a creation instant one day after the clock gives "-1 months" |
| `ProfileRoute.VerifiedTier` | reddit-backend.js:119 | "Premium" iff `is_gold`; "Email Verified" iff not `is_gold` and `verified`; "No" iff neither |
| `ProfileRoute.Followers` | reddit-backend.js:117 | the subscriber count when present, otherwise 0 |
| `ProfileRoute.TotalKarma` | reddit-backend.js:118 | `total_karma` when present and non-zero; otherwise link + comment karma, which is `NaN` when either is missing |
| `ProfileRoute.Description` | reddit-backend.js:120 | the public description when present and non-empty, otherwise "N/A"; never empty |
| `ProfileRoute.Avatar` | reddit-backend.js:124 | `icon_img`, else `snoovatar_img`, else the placeholder URL; never empty |
| `ProfileRoute.MapProfile` | reddit-backend.js:109-128 | each response field: name/id passed through, creation in ms = `created_utc`·1000, the two age fields, the defaults above, `is_banned` from `is_suspended`, region/country "N/A", confidence "High", range "Exact", profile link built from the requested username |
| `ProfileRoute.ErrorResponse` | reddit-backend.js:136-139 | the status is the upstream status, or 500 if it is missing or 0; the error is the message or the literal fallback; the details are the upstream body or "No additional details" |
| `ProfileRoute.Respond` | reddit-backend.js:85-140 | 400 "Username is required" iff the username is empty; a profile body iff token and lookup succeed with data; 404 error body iff the data is missing; error-with-details iff the token or the lookup threw |
| `ProfileRoute.NotFoundMessage` | reddit-backend.js:106 | the message is "User ", then the requested username unchanged, then " not found", and nothing else |
| `ProfileRoute.NotFoundNamesUser` | reddit-backend.js:104-106 | missing user data gives exactly status 404 with the body `{ error: "User <username> not found" }` |
| `ProfileRoute.TokenFailureResponse` | reddit-backend.js:136-139 | a failed token exchange surfaces as 500 with the generic token message and "No additional details" |
| `ProfileRoute.UpstreamStatusPassthrough` | reddit-backend.js:136-139 | an upstream 503 with a body yields 503 with that body echoed as details |
| `ProfileRoute.KarmaFallback` | reddit-backend.js:118 | no `total_karma` with link karma 3 and comment karma 4 gives 7 |
| `ProfileRoute.AgeFieldsAgree` | reddit-backend.js:115-116 | when both helpers read the clock at the same instant, the age text reads back as the years and months of the reported `age_days`; for a non-negative `age_days`, it has a years part exactly when `age_days` ≥ 365 |
| `ProfileRoute.HandleProfileRequest` | reddit-backend.js:85-92 | an empty username is answered with 400 and the token cache is untouched; otherwise one token call updates the cache as `Fetch` does, sends an exchange only on a cache miss, and the response is `Respond` of its outcome |

## Left out

- Express set-up, CORS, the JSON body parser, the port, `app.listen`, and the `/` and `/health` routes (reddit-backend.js:1-19, 81-83, 143-149): framework glue. `/health` also depends on the wall clock.
- The rate limiter (reddit-backend.js:14-19): a third-party middleware whose behaviour is not in this repository.
- The HTTP calls themselves: the Basic-auth header, the Base64 encoding, the User-Agent, environment variables, the 5 s timeouts, URL-encoding of the username, and the bearer token sent upstream. Their settled outcomes are inputs (`Exchange`, `AboutReply`).
- `console.error` logging of failures: no effect on state or responses.
- `estimated_creation_date`: `toLocaleDateString` depends on the host locale. The model keeps the instant it renders (`creationMs`).
- Concurrent refreshes of the shared token slot: the event loop runs calls one at a time, and the model treats them as sequential.
- JavaScript `Number` semantics: times, lifetimes and karma are integers. Fractional `created_utc` or `expires_in`, and the exponent notation of numbers of 10^21 and beyond in template literals, are not modelled.
- `TokenCache.Fetch`: a 2xx token response whose body is empty or lacks `access_token` or `expires_in` would store `undefined` or an expiry of `NaN` and return `undefined`; that is not modelled. The exchange is either granted with both fields or rejected (a JSON `null` body throws and is a rejection).
- `ProfileRoute.MapProfile`: `created_utc` is taken to be present. Without it the JS ages would be `NaN`. `null` and `undefined` are not told apart for karma, where JS would add a `null` as 0.
- `ProfileRoute.Respond`: an upstream 2xx whose body is JSON `null` throws a `TypeError` when `data.data` is read; that is not modelled. An empty body, or one without `data`, leaves `data.data` undefined, which is the modelled 404. A response field that is `undefined` is omitted from the JSON, and the model keeps it as `None`.
