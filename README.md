# Request admission control of the member-recruitment portal

This project models the layer of the CSI MIET member-recruitment portal that
decides whether a request is admitted, and proves properties of that model.
Every request first passes the Next.js `middleware`. Application submissions
then reach the `POST /api/submit` handler. An administrator can inspect and
adjust both registries through `/api/security-status`.

The middleware works in this order:

- It derives a client identifier from the proxy headers.
- It refuses addresses in the security monitor's permanent block set with 403.
- It records suspicious requests without refusing them.
- It runs exactly one fixed-window rate-limit check. A `POST` to
  `/api/submit` uses the `form` profile; every other request uses `general`.

The two registries are in-memory state machines:

- **`RateLimiter`** keeps one entry per address, shared by both profiles. Each
  entry holds a counter, a window end, a block flag and an expiry. A separate
  set lists the blocked addresses, and a timer removes each address from that
  set when its block duration ends.
- **`SecurityMonitor`** counts flagged events under the string key
  `ip + ":" + type`. On the seventh event of one type it blocks the address
  permanently. `unblockIP` deletes every key that starts with the address text.

The submit handler runs these steps:

- It picks a body parser by content type.
- It validates fourteen required and four optional fields, in a fixed check
  order per field. Each field is HTML-escaped by `validateInput`.
- It applies four cross-field rules.
- It rejects honeypot and short-user-agent submissions.
- It relays the sanitised fields to a spreadsheet script.

The administrative endpoint checks a bearer token. It then reports statistics,
or dispatches `unblock`, `block` (a 24-hour manual block) or `cleanup`.

## How the model is built

- Wall-clock time is an explicit `now: nat` (milliseconds) on every operation
  that reads the clock.
- The two registries are classes:
  - `RateLimiting.RateLimiter` has fields `requests: map<string, Entry>`,
    `blockedIPs: set<string>` and `timers: multiset<Timer>`.
  - `Monitoring.SecurityMonitor` has fields `suspiciousActivity` and
    `blockedIPs`.
- Each method's `ensures` ties the new state to a pure function of the old
  state (`Check`, `Block`, `Unblock`, `Sweep`, `Fire`, `Track`, …).
- The `*Properties` modules prove what the code promises about those
  functions.
- The `setTimeout` that unlists an address becomes a pending `Timer` in a
  multiset, plus `TimerExpire`, which the environment may call once the
  timer's time has come.
- JavaScript semantics are written out where they matter:
  - truthiness (an expiry of `0`, `''`, `0`, `undefined` are falsy);
  - `Math.ceil(x / 1000)`;
  - the characters `trim` strips;
  - `split(',')[0]`, `startsWith`, `includes` and `toString`.
- The regular-expression detectors are predicates passed in as parameters:
  - `detectSQLInjection`, `detectXSS` and the `dangerousPatterns` blacklist;
  - the user-agent and path patterns of `isSuspiciousRequest`.
- The email and number shape checks are written out as predicates, because
  their exact shape is part of the contract.
- `getClientIP` appears three times in the source, with the same logic each
  time:
  - `middleware.ts:5-17`;
  - `src/middleware/rateLimiter.ts:34-46`;
  - `src/app/api/submit/route.ts:25-34`.

  It is modelled once, as `ClientIP.GetClientIP`. So the monitor key, the
  limiter key and the submit handler's key always agree.
- The `email` field is declared with type `text` (`src/app/api/submit/route.ts:46`),
  so its value is never checked against the email pattern.
  `FormValidationProperties.EmailFieldIsPlainText` states this.
  `InputValidation.ValidateInput` still models the `email` type, which
  nothing in the core uses.

## Model

| member | source | states |
|---|---|---|
| Text.Trim | src/middleware/rateLimiter.ts:40 | `trim()`: empty exactly for all-whitespace input; otherwise a contiguous slice of the input with only whitespace before and after it, and neither end whitespace |
| Text.TakeUntil | src/middleware/rateLimiter.ts:40 | `split(',')[0]`: a prefix of the input without the separator, followed in the input by the separator when shorter |
| Text.NatToString | src/app/api/submit/route.ts:84 | decimal text of a length bound: non-empty, all digits, no leading zero, and its digits denote exactly the number |
| Text.IntToString | src/app/api/submit/route.ts:74-75 | `toString()` of an integer: all digits denoting the number when non-negative, otherwise `-` followed by the digits of its magnitude |
| ClientIP.GetClientIP | src/middleware/rateLimiter.ts:34-46 | first non-empty of `x-forwarded-for` (exactly the trimmed text before its first comma), `x-real-ip`, `cf-connecting-ip`, else `"unknown"` |
| ClientIP.OnlyProxyHeadersMatter | middleware.ts:5-17 | two requests that agree on the three proxy headers get the same identifier |
| ClientIP.ClientChoosesIdentifier | src/app/api/submit/route.ts:25-34 | a client that sends `x-forwarded-for: k` (comma-free, trimmed, non-empty) is keyed under exactly `k` |
| RateLimiting.ConfigOf | src/middleware/rateLimiter.ts:19-32 | the two profiles: form 15 min / 3 requests / 1 h block; general 1 min / 30 requests / 5 min block |
| RateLimiting.CeilDiv1000 | src/middleware/rateLimiter.ts:82 | `Math.ceil(x / 1000)`: the least `r` with `x <= 1000 r` |
| RateLimiting.RateLimiter.constructor | src/middleware/rateLimiter.ts:16-17 | empty entry map, empty block set, no pending timer |
| RateLimiting.RateLimiter.IsIPBlocked | src/middleware/rateLimiter.ts:48-61 | new state and answer equal `BlockQuery`: a lapsed block is reset to count 0, and the answer is membership of the block set |
| RateLimiting.RateLimiter.BlockIP | src/middleware/rateLimiter.ts:63-73 | new state equals `Block`: entry (created as count 0, window end `now` when absent) blocked until `now + duration`, address listed, a timer pending |
| RateLimiting.RateLimiter.CheckRateLimit | src/middleware/rateLimiter.ts:75-114 | new state and decision equal `Check` on the identifier from the headers; consistency of the registry is kept |
| RateLimiting.RateLimiter.ManuallyBlockIP | src/middleware/rateLimiter.ts:116-118 | same state change as `blockIP` with the given duration |
| RateLimiting.RateLimiter.UnblockIP | src/middleware/rateLimiter.ts:120-127 | new state equals `Unblock`: address unlisted, block flag and expiry cleared, count and window kept |
| RateLimiting.RateLimiter.GetStats | src/middleware/rateLimiter.ts:129-135 | entry count, block-set size and block set; changes nothing |
| RateLimiting.RateLimiter.Cleanup | src/middleware/rateLimiter.ts:137-144 | the deletion loop leaves exactly `Sweep`: entries with `now > resetTime` and not blocked are removed |
| RateLimiting.RateLimiter.TimerExpire | src/middleware/rateLimiter.ts:70-72 | a due timer fires: it is consumed and its address leaves the block set |
| RateLimitResponses.CreateRateLimitResponse | src/middleware/rateLimiter.ts:149-158 | status 429, the message as error, `Retry-After` is the decimal retryAfter or `"60"` when absent |
| RateLimitProperties.BlockQueryKeepsConsistent | src/middleware/rateLimiter.ts:48-61 | the lazy expiry keeps the invariant: blocked exactly when an expiry is set, every listed address has a pending timer |
| RateLimitProperties.BlockKeepsConsistent | src/middleware/rateLimiter.ts:63-73 | blocking keeps the invariant |
| RateLimitProperties.CheckKeepsConsistent | src/middleware/rateLimiter.ts:75-114 | a rate check keeps the invariant |
| RateLimitProperties.FreshWindowAdmits | src/middleware/rateLimiter.ts:90-100 | with no entry or `now > resetTime` (and no block), the entry becomes count 1, window end `now + windowMs`, unblocked, and the request is allowed |
| RateLimitProperties.InWindowCounts | src/middleware/rateLimiter.ts:102-113 | inside a window the count rises by exactly one, the window end is kept, and the request is allowed iff the new count is within the quota |
| RateLimitProperties.InWindowRun | src/middleware/rateLimiter.ts:102-113 | a run of checks in one window admits while the count stays within the quota and denies once it exceeds it |
| RateLimitProperties.WindowQuota | src/middleware/rateLimiter.ts:90-113 | from a fresh window, the first `maxRequests` checks inside it pass and the next is denied with the profile's message |
| RateLimitProperties.GeneralTrafficSpendsFormQuota | src/middleware/rateLimiter.ts:75-90 | the profiles share one counter: 3 to 30 general requests in a minute make the next form request in that minute a form denial with retryAfter 3600 |
| RateLimitProperties.ActiveBlockDenies | src/middleware/rateLimiter.ts:80-88 | while `now < blockExpiry` the check denies with the blocked message, `retryAfter = ceil((blockExpiry - now)/1000) >= 1`, and changes nothing |
| RateLimitProperties.LapsedBlockStillListedDenies | src/middleware/rateLimiter.ts:54-60 | a lapsed block still listed is reset (count 0, no expiry) and the check still denies with retryAfter 300 |
| RateLimitProperties.ListedDenied | src/middleware/rateLimiter.ts:48-61 | any listed address without an active block is denied with retryAfter 300 |
| RateLimitProperties.LapsedBlockUnlistedAdmits | src/middleware/rateLimiter.ts:54-60 | once the timer has unlisted it, a lapsed block is reset and the request is admitted with count 1: in a new window ending at `now + windowMs` if the old one has ended, otherwise in the old window, whose end is kept |
| RateLimitProperties.BlockDenialExactly | src/middleware/rateLimiter.ts:80-88 | the blocked message is returned iff the block is active or the address is listed |
| RateLimitProperties.UnblockKeepsWindow | src/middleware/rateLimiter.ts:120-127 | unblock unlists only this address, clears flag and expiry, keeps count and window, and adds no entry for an unknown address |
| RateLimitProperties.UnblockMidWindowReblocks | src/middleware/rateLimiter.ts:120-127 | an address unblocked inside an exhausted window is blocked again by its next request |
| RateLimitProperties.SweepRemovesExactlyStale | src/middleware/rateLimiter.ts:137-144 | cleanup removes exactly the stale entries, keeps the others unchanged, never removes a blocked entry, and leaves the block set alone |
| RateLimitProperties.SweepUnobservable | src/middleware/rateLimiter.ts:137-144 | a cleanup never changes the decision of a later check |
| RateLimitProperties.FireUnlists | src/middleware/rateLimiter.ts:70-72 | a fired timer unlists its address and keeps the invariant |
| Monitoring.SecurityMonitor.constructor | src/middleware/security.ts:117-118 | no activity, no blocked address |
| Monitoring.SecurityMonitor.TrackSuspiciousActivity | src/middleware/security.ts:120-129 | new state equals `Track`: the key's count rises by one and the address is blocked when the old count exceeded five |
| Monitoring.SecurityMonitor.IsBlocked | src/middleware/security.ts:131-133 | plain membership of the permanent block set |
| Monitoring.SecurityMonitor.UnblockIP | src/middleware/security.ts:135-139 | the deletion loop leaves exactly `Unblock`: address unlisted, every key that starts with its text deleted |
| Monitoring.SecurityMonitor.GetStats | src/middleware/security.ts:141-147 | key count, block-set size and block set; changes nothing |
| MonitorProperties.TrackOneStep | src/middleware/security.ts:120-129 | one event raises its own key by exactly one, changes no other key, and blocks only its own address |
| MonitorProperties.TrackNCounts | src/middleware/security.ts:122-126 | after `n` events of one type the key counts `n` more, and the address is blocked iff it was or some event saw a count above five |
| MonitorProperties.SeventhEventBlocks | src/middleware/security.ts:125-126 | from zero, six events of one type never block and the seventh always does |
| MonitorProperties.TypesDoNotCombine | src/middleware/security.ts:121-126 | while no single type of an address reaches seven events, the address stays unblocked, whatever the interleaving of types |
| MonitorProperties.KeyInjective | src/middleware/security.ts:121 | with colon-free event types, a key determines its address and type, IPv6 addresses included |
| MonitorProperties.TrackIsolation | src/middleware/security.ts:120-129 | another address's event never changes this address's counts or block status |
| MonitorProperties.UnblockEffect | src/middleware/security.ts:135-139 | unblock removes only this address from the block set and deletes exactly the keys with its prefix |
| MonitorProperties.ReblockAfterUnblock | src/middleware/security.ts:135-139 | after an unblock, seven further events of one type are needed to block again |
| MonitorProperties.UnblockWipesLongerAddresses | src/middleware/security.ts:137 | unblocking `1.2.3.4` also wipes the counts of a longer address such as `1.2.3.45`, without unblocking it |
| InputValidation.EscapeChar | src/middleware/security.ts:64-69 | each of `< > " ' /` becomes its entity (starts with `&`, ends with its only `;`); other characters are kept |
| InputValidation.EscapeHtmlIsPerCharacter | src/middleware/security.ts:64-69 | the chain of five replacements equals escaping each character on its own |
| InputValidation.EscapedHasNoSpecials | src/middleware/security.ts:64-69 | escaped text contains none of the five raw characters |
| InputValidation.UnescapeEscaped | src/middleware/security.ts:64-69 | on text without `&`, undoing the five entities gives the text back |
| InputValidation.AmpersandMakesEscapingLossy | src/middleware/security.ts:64-69 | `&` is not escaped, so `&lt;` and `<` escape to the same string |
| InputValidation.EntityMatch | src/middleware/security.ts:73 | the match of `/&[^;]+;/` at the start: at least three characters from `&` to the first `;` after it; no match exactly when no `;` follows a non-`;` run after a leading `&` |
| InputValidation.ValidateInput | src/middleware/security.ts:27-86 | the checks in order, each rejection with `''` and its exact message: missing input "Input is required", whitespace-only "Input cannot be empty", trimmed length above 10000 "Input too long", a blacklisted trimmed text "Invalid characters detected", then "Invalid email format" / "Invalid number format" when the escaped text fails its shape; otherwise acceptance with the escaped trimmed text, free of raw specials |
| InputValidation.ShapeChecks | src/middleware/security.ts:71-83 | accepted iff the entity-stripped text matches the email pattern (for email) and the text is a non-empty run of digits (for number); each failure gives its exact message and `''` |
| InputValidationProperties.DigitsWereNotEscaped | src/middleware/security.ts:78-83 | an escaped text of digits was not changed by the escaping |
| InputValidationProperties.NumberAcceptedAsIs | src/middleware/security.ts:78-83 | an accepted number is the trimmed input, a non-empty run of ASCII digits |
| InputValidationProperties.PlainTextUnescaped | src/middleware/security.ts:64-69 | text without any of the five special characters is left unchanged by the escaping |
| InputValidationProperties.NumberAcceptance | src/middleware/security.ts:27-86 | a number is accepted iff it is non-blank, within 10000 characters, not blacklisted, and its trimmed text is all ASCII digits |
| InputValidationProperties.TextAcceptance | src/middleware/security.ts:27-62 | text is accepted iff it is non-blank, at most 10000 characters once trimmed, and not matched by the blacklist |
| InputValidationProperties.StripEscaped | src/middleware/security.ts:73 | on text without `&` or `;`, stripping entities from the escaped text deletes exactly the five specials |
| InputValidationProperties.EmailCheckIgnoresSpecials | src/middleware/security.ts:71-76 | such input is accepted as email iff the trimmed text, minus `< > " ' /`, matches the email pattern |
| Admission.IsSuspiciousRequest | middleware.ts:19-43 | an empty user agent is always suspicious; otherwise suspicious iff a user-agent or path pattern matches |
| Admission.ProfileFor | middleware.ts:58 | the form profile iff the path is exactly `/api/submit` and the method is `POST` |
| Admission.Middleware | middleware.ts:45-74 | a monitor-blocked address gets 403 with both registries unchanged; otherwise a suspicious request is recorded, one check with the chosen profile runs, and only a form denial also records `rate_limit_exceeded` |
| FormValidation.CheckRequired | src/app/api/submit/route.ts:65-105 | a missing or falsy field gives exactly `"<key> is required"`; a value that is neither a string nor a number for a `number` field gives `"<key> must be a number"` / `"must be a string"`; a string, or a number for a `number` field as its decimal text, goes on to the string checks; an accepted value holds no raw HTML special |
| FormValidation.CheckText | src/app/api/submit/route.ts:83-104 | the first failing check decides: over-long gives the length message; else the SQL detector gives "contains potentially malicious content"; else the XSS detector gives "contains potentially harmful scripts"; else a `validateInput` failure gives `"<key>: <error>"`; otherwise the escaped value is accepted |
| FormValidation.CheckOptional | src/app/api/submit/route.ts:107-125 | a value that is not a non-empty string is ignored; a non-empty string that is over-long gives the length message, else one either detector flags gives "contains potentially malicious content", else it is stored escaped if `validateInput` accepts it and dropped without an error if not |
| FormValidation.Validated | src/app/api/submit/route.ts:127-150 | `valid` iff there is no error, and `sanitizedData` is present iff valid |
| FormValidation.FieldLoop | src/app/api/submit/route.ts:65-125 | each field loop builds exactly the in-order fold of its per-field results |
| FormValidation.ValidateFormData | src/app/api/submit/route.ts:37-151 | the two loops and the cross-field rules return exactly `Validated` |
| FormValidationProperties.RunGrows | src/app/api/submit/route.ts:65-125 | a field loop never removes an error or a stored key |
| FormValidationProperties.OneErrorPerField | src/app/api/submit/route.ts:65-105 | each field adds at most one error |
| FormValidationProperties.RunKeepsEscaped | src/app/api/submit/route.ts:98-104 | every stored value is free of raw HTML specials |
| FormValidationProperties.RejectionReported | src/app/api/submit/route.ts:65-105 | a rejected field's message is in the final error list |
| FormValidationProperties.NoErrorMeansAllStored | src/app/api/submit/route.ts:65-105 | a required loop that adds no error stores every field |
| FormValidationProperties.ValidFormComplete | src/app/api/submit/route.ts:127-150 | a valid form has all fourteen required keys, escaped values, a listed year, time commitment and team-work answer, and a team level for 3rd year |
| FormValidationProperties.MissingFieldReported | src/app/api/submit/route.ts:66-70 | a missing required field makes the form invalid with `"<key> is required"` |
| FormValidationProperties.OptionalFailureIsSilent | src/app/api/submit/route.ts:120-123 | an optional field that fails `validateInput` is dropped without an error |
| FormValidationProperties.LengthCheckedFirst | src/app/api/submit/route.ts:83-86 | an over-long required value is reported as too long, whatever the detectors say |
| FormValidationProperties.ErrorCountBound | src/app/api/submit/route.ts:65-144 | at most one error per field plus four cross-field errors |
| FormValidationProperties.EmailFieldIsPlainText | src/app/api/submit/route.ts:46 | the `email` field is accepted without any email-format check |
| Submission.StatusOf | src/app/api/submit/route.ts:172-268 | 200 exactly for a successful relay; 400 for an unsupported content type, a validation failure and a short user agent; 429 for spam; 408 for a timeout; 500 for a missing configuration and a failed submission |
| Submission.Handle | src/app/api/submit/route.ts:153-271 | the gates in order: an unsupported content type gives 400 and records nothing; an invalid form gives 400 with its errors and records `invalid_form_data`; a filled honeypot gives 429 and records `honeypot_triggered`; a user agent shorter than 10 characters gives 400 and records `suspicious_user_agent`. An unparsable body gives 500 and records `submission_error`. Past every gate, a missing script URL gives 500 and records nothing; with it, the payload is sent, and a successful relay gives 200 with nothing recorded, an aborted relay 408 and a failed one (bad status or network error) 500, both recording `submission_error`. An activity kind is recorded on every path except unsupported content type, missing configuration and success; a payload is sent only for a valid form and a user agent of 10+ characters, and it is exactly the sanitised data, the client identifier and the user agent |
| Submission.Post | src/app/api/submit/route.ts:153-271 | the handler's reply equals `Handle`, and the monitor records exactly the kind `Handle` names |
| Submission.SuccessRequiresEveryGate | src/app/api/submit/route.ts:178-253 | success iff supported content type, parsed body, valid form, empty honeypot, user agent of 10+ characters, configured script and a successful relay |
| Submission.RelayedPayloadIsSanitised | src/app/api/submit/route.ts:218-227 | a relayed payload is the validated data with every required key and no raw specials, plus the client identifier and user agent |
| Submission.HoneypotShadowed | src/app/api/submit/route.ts:188-189 | a truthy non-string `_honeypot` hides a filled `website` |
| Submission.WebsiteHoneypot | src/app/api/submit/route.ts:188-189 | a non-blank `website` with a falsy `_honeypot` triggers the honeypot |
| Submission.FailuresAreRecorded | src/app/api/submit/route.ts:255-269 | the timeout and failure replies are exactly the paths that record `submission_error` |
| SecurityStatus.StatusOf | src/app/api/security-status/route.ts:37-93 | 401 exactly for `Unauthorized` and `Invalid token`, 400 exactly for an invalid action, 500 exactly for an unreadable body, 200 for the report and the three actions' replies |
| SecurityStatus.Authorize | src/app/api/security-status/route.ts:6-17 | a missing or empty header, or one not starting with `Bearer `, gives `Unauthorized`; otherwise an unset or empty expected token, or a token (the header from character 7) that differs from it, gives `Invalid token`; a matching token passes; both refusals have status 401 |
| SecurityStatus.AuthorizedExactly | src/app/api/security-status/route.ts:38-49 | a request passes iff a non-empty token is configured and the header is `Bearer ` followed by it |
| SecurityStatus.UnconfiguredLocksOut | src/app/api/security-status/route.ts:13-17 | with no token configured, or an empty one, nothing passes |
| SecurityStatus.Get | src/app/api/security-status/route.ts:5-35 | a refused request gets the 401 reply of `Authorize`; an authorised one gets both registries' statistics; the method modifies nothing |
| SecurityStatus.ActionOf | src/app/api/security-status/route.ts:52-76 | `unblock` (resp. `block`) is dispatched iff the action is `"unblock"` (resp. `"block"`) with a non-empty address, and carries that address; `cleanup` iff the action is `"cleanup"`; anything else is no action |
| SecurityStatus.Post | src/app/api/security-status/route.ts:37-93 | unblock changes both registries; block changes only the limiter (24 h); cleanup only sweeps the limiter; refused (401), unreadable (500) or invalid (400) requests change nothing |
| SecurityStatus.ManualBlockHolds | src/app/api/security-status/route.ts:66-67 | a manual block denies the address on both profiles for the whole day, even across a cleanup |

## Left out

- Regular expressions are not modelled. The detectors and the middleware's
  user-agent and path patterns are predicates supplied by the caller.
- `addSecurityHeaders` and response construction are not modelled. Only the
  reply kind, the status code, the error message and the `Retry-After` value
  are kept.
- I/O is not modelled:
  - the relay `fetch` and its 15-second abort become the `Relay` parameter;
  - body parsing becomes an `Option` parameter, where `None` means the
    parser threw;
  - environment variables become parameters;
  - console logging is dropped.
- The submission time and the `submissionId` of the success reply, both
  derived from the clock, are not modelled.
- The clock is not modelled. Each operation reads one `now`; the
  `setTimeout` delay is replaced by the `TimerExpire` step.
- Concurrency is not modelled. The handlers run one at a time on one event
  loop.
- Request bodies hold three value kinds: strings, integral numbers, and other
  values known only by their truthiness. Fractional numbers, and their
  `toString`, are not modelled.
- Text.IntToString: always prints every digit. JavaScript prints numbers of
  magnitude 10^21 or more in exponent form (`1e+21`), which depends on
  floating-point digits that are not modelled. For such a `rollNumber` the
  model reports the length error, where the source would report either that
  or `rollNumber: Invalid number format`, depending on the exponent text.
- In the admin `POST`, `action` and `ip` are taken as strings. A non-string
  truthy `ip` is not modelled.
- Statistics report the block set as a set. The order of
  `Array.from(blockedIPs)` is not modelled.
- Text is a sequence of `char`. JavaScript's UTF-16 code units, and the
  length of astral characters, are not modelled.
