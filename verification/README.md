# Aegion core: a verified model

This project models the parts of the Aegion identity platform whose guarantees span several functions, a loop or a
whole run, and proves those guarantees in Dafny 4.11. `dafny verify dfyconfig.toml` checks everything.

| file | what it models |
|---|---|
| `ModulePlan.dfy`, `ModuleRoutes.dfy` | module ordering, route validation, the route table |
| `Courier.dfy` | the message queue shared by dispatchers, cancellers and cleaners |
| `Login.dfy`, `Sessions.dfy` | login with a second factor, session assurance levels |
| `SignedText.dfy`, `Phc.dfy`, `CanonicalPayload.dfy`, `Encoding.dfy` | signed cookies, tokens and envelopes, password hashes, header payloads |
| `ProxyRateLimit.dfy`, `RouterRateLimit.dfy` | the two token-bucket limiters and their eviction |
| `CircuitBreaker.dfy`, `Rules.dfy` | the proxy's breaker and rule engine |
| `Migrator.dfy`, `EventBus.dfy` | schema migrations, event delivery with retries |
| `RandomSampling.dfy`, `LimitedReader.dfy`, `Continuity.dfy` | rejection sampling, the bounded reader, one-time containers |
| `Base.dfy`, `Text.dfy`, `StringOrder.dfy` | shared types and string functions |

Protocols are state machines: a `Step` per SQL statement or lock-protected call, a `Run` over any list of steps, and
theorems over every run. A write that reports an error may or may not have taken effect. Where the source changes
fields in place there is also a class whose methods are proved to perform the same steps. Go's map iteration order is
an arbitrary choice. HMAC and Argon2id are arbitrary functions; a result that would rest on their
strength names the two messages whose MACs would have to be equal.

Where the code does something other than its documentation, a comment or a caller would expect, the model follows the
code, a lemma shows the case, and another gives the exact condition:

- A courier message without an idempotency key carries the key `""`, which is unique like any other: a message is stored exactly when no row has its key (`QueueMessage`).
- Metrics reads make the proxy limiter's eviction visible, exactly when some key has a positive limit (`ProxyRateLimit.EvictionInvisibleIff`).
- The proxy limiter's advised waiting time is enough exactly when it reaches the next whole second since the last refill (`WaitIsEnoughIff`, `WaitTooShort`).
- The router limiter's eviction is visible, and its window bound fails, exactly when there is a burst and ten idle minutes do not refill it (`RouterRateLimit.EvictionInvisibleIff`, `WindowBoundIff`).
- A cookie age limit below one second switches the age check off, and an age that overflows is not noticed (`CookieExpiredIff`, `TokenExpiredIff`).
- A success recorded while the breaker is open half-opens it and is not counted: the counter it sets to one is cleared by the state change (`LateSuccessNotCounted`).
- The exchange sort of the rule engine's constructor and of `UpdateRule` does not keep the order of equal priorities; `AddRule` does. An update keeps it exactly when it overtakes no two rules of the same priority (`UpdateKeepsTiesIff`); a single exchange reverses a tie exactly when an equal rule stands in between (`SwapKeepsTiesIff`), and a later one can restore it (`SecondExchangeRestores`).
- A failed unlock is ignored, and the lock is re-entrant: the connection keeps it for good, and no other can migrate until it is closed (`FailedUnlockBlocks`).
- A rollback takes no lock and undoes the version it read earlier. The applied versions stay a prefix exactly when each rollback finds its version newest or gone and each run has applied everything earlier (`PrefixIffSound`); down scripts balance up scripts exactly when each rollback finds its version applied (`BalancedIff`).
- Event processors mark rows without looking at them again. Attempts count all recorded failures exactly when each failing mark finds the count it has read (`CountedIffCurrent`); a settled row stays settled exactly when nobody holds it (`SettledStaysIff`).
- Event cleanup fails as a whole exactly when a selected event has a delivery row (`CleanupSafe`).
- The retry delay is exact only while the product fits in 64 bits (`BackoffExactIff`).
- A strong method that opens a session leaves it at AAL1; the level is AAL2 exactly when a strong one comes later (`LevelOfMethods`).
- The bounded reader panics exactly when its limit is the largest 64-bit number (`PanicsIff`).

## Model

| member | source | states |
|---|---|---|
| ModulePlan.OrderedEnabledModules | internal/platform/config/module_plan.go:278-319 | Returns the lexicographically least order of exactly the enabled modules in which every declared dependency other than core comes first, whatever order maps are iterated in; fails only if no such order exists, and for a dependency-closed set exactly when there is a cycle of declared non-core dependencies |
| ModulePlan.BuildTables | internal/platform/config/module_plan.go:279-292 | For any iteration order, the indegree of each enabled module is the number of its declared dependencies, with repetition and without core, and the dependents table lists each module that often |
| ModulePlan.InitiallyReady | internal/platform/config/module_plan.go:294-299 | The first ready list holds each enabled module without dependencies once |
| ModulePlan.CountDown | internal/platform/config/module_plan.go:307-312 | Each dependent is decremented as often as it is listed, and joins the ready list exactly when it reaches zero |
| ModulePlan.Release | internal/platform/config/module_plan.go:304-313 | After placing a module, indegrees and the ready list are again those defined by the placed set |
| ModulePlan.PlaceHead | internal/platform/config/module_plan.go:303-314 | One turn of the main loop keeps the loop state and appends the smallest ready module |
| ModulePlan.GreedyIsLeast | internal/platform/config/module_plan.go:296-314 | Always taking the smallest ready module gives an order no greater than any topological order |
| ModulePlan.OrderHasReady | internal/platform/config/module_plan.go:303-314 | While a topological order exists and modules are left, one of them is ready |
| ModulePlan.StuckMeansCycle | internal/platform/config/module_plan.go:315-317 | In a closed set, modules left over with none ready contain a dependency cycle |
| ModulePlan.CycleMeansNoOrder | internal/platform/config/module_plan.go:315-317 | A cycle rules out every topological order |
| ModulePlan.LeastOrderUnique | internal/platform/config/module_plan.go:278-319 | The least order is unique, so the result is deterministic despite random map iteration |
| ModuleRoutes.OverlapIffSharedRequest | internal/platform/config/module_plan.go:358-367 | Two routes overlap exactly when some method and path match both |
| ModuleRoutes.PrefixBySegments | internal/platform/config/module_plan.go:365-367 | A path is under a prefix exactly when the slash-separated segments of the prefix start those of the path |
| ModuleRoutes.RouteErrors | internal/platform/config/module_plan.go:343-356 | Each route error has its exact condition on verb and segments: blank, not absolute or with an empty inner segment, first segment internal, health or metrics |
| ModuleRoutes.NoConflictIffSingleOwner | internal/platform/config/module_plan.go:321-367 | No two modules' routes overlap exactly when every request has at most one owner |
| ModuleRoutes.CheckModuleRoutes | internal/platform/config/module_plan.go:326-339 | A module's routes pass only if they are valid and clash with none accepted so far; a failure means the catalog is invalid |
| ModuleRoutes.ValidateCatalogRoutes | internal/platform/config/module_plan.go:321-341 | Passes exactly when every route is valid and every request has at most one owner; otherwise names a fault the catalog has |
| ModuleRoutes.ValidateEnabledDependencies | internal/platform/config/module_plan.go:263-276 | Passes exactly when every declared dependency other than core of every enabled module is enabled; otherwise names one that is not |
| ModuleRoutes.ResolveModulePlan | internal/platform/config/module_plan.go:198-252 | Unknown module, missing declared non-core dependency, a route fault, a cycle and success each have their exact condition, in the order of the checks; a route error names a fault the catalog has; success gives the least order with dependencies first |
| ModuleRoutes.NewModuleRouteTable | cmd/aegion/module_routes.go:25-43 | The table holds exactly the routes of the planned external modules; it fails exactly on an incomplete route |
| ModuleRoutes.Match | cmd/aegion/module_routes.go:46-65 | The loop returns the longest-prefix scan's owner and whether there is one |
| ModuleRoutes.ScanFindsMatch | cmd/aegion/module_routes.go:46-65 | The scan finds a matching row of maximal prefix length, or reports none when none matches |
| ModuleRoutes.MatchReturnsTheOwner | cmd/aegion/module_routes.go:46-65 | For a validated catalog and any row order, the request goes to a module exactly when that module is planned, external and has a matching route |
| Courier.CourierSafety | core/courier/courier.go:293-379 | In every interleaving with failed writes, counted over the steps of the run: one holder per message, unique keys, at most max(1, maxRetries) sends, at most one successful, none if cancelled, at most 2·max(1, maxRetries)+1 row changes; queued rows have sends left, abandoned rows have none, and the status agrees with what was sent |
| Courier.HistoryCounts | core/courier/courier.go:293-379 | What the model remembers of a message is the number of its sends and deliveries and whether it was cancelled, counted over the run |
| Courier.MarkOutcome | core/courier/courier.go:609-637 | In every reachable state an applied mark makes the row sent if delivered; otherwise it counts one more send and the row is queued exactly when the new count is below maxRetries, else abandoned; no other row changes |
| Courier.SentWhenDue | core/courier/courier.go:293-312 | Every send of every run follows a claim by the same dispatcher at a time not before the send-after time with which the message was queued |
| Courier.RoundEffect | core/courier/courier.go:293-379 | Any queued message that is due can be claimed and sent by an idle dispatcher, with the exact row afterwards |
| Courier.AbandonedAfterLastFailure | core/courier/courier.go:619-637 | A message that always fails is sent exactly max(1, maxRetries) times: queued again after each failure but the last, then abandoned |
| Courier.StepKeeps | core/courier/courier.go:231-671 | Every step of every participant keeps the queue invariant |
| Courier.NeverSentOnceCancelled | core/courier/courier.go:640-655 | No step of any run sends a message after the step that cancelled it |
| Courier.NeverSentOnceRemoved | core/courier/courier.go:658-671 | After cleanup removes a message no later run attempts it or brings its row back |
| Courier.RowChangeDescends | core/courier/courier.go:293-379 | Every change of a row, or its removal, lowers a measure of retries left and status |
| Courier.KeylessMessageDropped | core/courier/courier.go:231-251 | A second message without a key is dropped while the first is in the table |
| Courier.HandlingEffect | core/courier/courier.go:314-376 | Handling one claimed row: sent when delivered; one more send counted when not, and queued exactly when the new count is below maxRetries; still in processing when nothing was written; no other row changes, and the dispatcher moves on or ends the batch |
| Courier.ProcessedCounts | core/courier/courier.go:314-378 | The count returned is the number of rows reached that were readable and whose mark reported no error |
| Courier.Service.QueueMessage | core/courier/courier.go:231-251 | The row, queued with no sends and the given key and times, is stored exactly when the insert took effect and no row carries the key; success is reported either way |
| Courier.Service.ClaimBatch | core/courier/courier.go:298-313 | The claim moves exactly the chosen rows to processing and hands their send counts to the dispatcher |
| Courier.Service.ProcessQueue | core/courier/courier.go:293-379 | An undisturbed batch is one run of the protocol: each row reached is sent, queued again exactly while below maxRetries, abandoned, or left in processing, as its outcome demands; rows after a failed mark or a broken row iteration stay in processing, the rest is untouched, and the count and error are exact |
| Courier.Service.Cancel | core/courier/courier.go:640-655 | Succeeds exactly on a queued message when the database reports no error; exactly that row becomes cancelled |
| Courier.Service.Cleanup | core/courier/courier.go:658-671 | Exactly the sent, abandoned and cancelled rows last changed before the cutoff go, when the statement takes effect; the invariant and every held row stay, and without a database error the count is exact |
| SignedText.EnvelopeMessageInjective | internal/platform/crypto/crypto.go:277-287 | For newline-free kinds the MAC input determines kind, timestamp and payload |
| SignedText.EnvelopeKindWithNewlineCollides | internal/platform/crypto/crypto.go:277-287 | Every kind ending in a line break and a number shares its MAC input with a shorter kind |
| SignedText.SessionCookieMessageInjective | internal/platform/crypto/crypto.go:345-355 | The cookie MAC input determines token text and timestamp |
| SignedText.InternalTokenMessageInjective | internal/platform/crypto/crypto.go:398-408 | The token MAC input determines module text and timestamp |
| SignedText.MessageFormsDisjoint | internal/platform/crypto/crypto.go:277-408 | No MAC input has two of the three forms |
| SignedText.MessageLines | internal/platform/crypto/crypto.go:277-408 | The three MAC inputs, line by line |
| SignedText.SigningFailsIff | internal/platform/crypto/crypto.go:247-367 | Signing fails exactly without a secret; a token also for a blank module id |
| SignedText.VerifyHmacHexMeaning | internal/platform/crypto/crypto.go:441-455 | A signature is accepted exactly when the secret is non-empty and the text decodes to the MAC |
| SignedText.SessionCookieRoundTrip | internal/platform/crypto/crypto.go:309-343 | Verifying a signed cookie returns the token for every token and time, except from the future or past the age limit |
| SignedText.AcceptedCookieIff | internal/platform/crypto/crypto.go:318-343 | For every text: it is accepted with a token exactly when it has the four parts, is in time and carries the MAC of the message of its own token text and timestamp |
| SignedText.InternalTokenRoundTrip | internal/platform/crypto/crypto.go:357-396 | Verifying a generated token returns module and timestamp, except from the future or past its lifetime |
| SignedText.AcceptedTokenIff | internal/platform/crypto/crypto.go:369-396 | For every text: it is accepted as a token of a module and timestamp exactly when it has the four parts naming them, is not from the future, is in time and carries the MAC of its own message |
| SignedText.CookieAndTokenCollide | internal/platform/crypto/crypto.go:318-396 | A text accepted both as cookie and as token under one secret names two different messages, of its own text and timestamp, with the same MAC |
| SignedText.EnvelopeParsesBack | internal/platform/crypto/crypto.go:256-307 | Parsing a printed envelope recovers timestamp and signature |
| SignedText.EnvelopeRoundTrip | internal/platform/crypto/crypto.go:256-307 | An envelope verifies for any kind and payload exactly while in time and when their message has the MAC of the message signed; for newline-free kinds that is a different message unless kind and payload are those signed |
| SignedText.AcceptedEnvelopeIff | internal/platform/crypto/crypto.go:264-307 | For every text, kind and payload: it is accepted exactly when it has the version, a timestamp in time and a non-empty signature that decodes to the MAC of that kind, its own timestamp and that payload |
| SignedText.CookieExpiredIff | internal/platform/crypto/session.go:22-28 | For all times and limits, the exact condition under which a cookie is refused as expired |
| SignedText.TokenExpiredIff | internal/platform/crypto/internal_token.go:21-45 | For all times and lifetimes, the exact condition under which a token is refused as expired |
| Encoding.SplitJoin | internal/platform/crypto/crypto.go:318-343 | Splitting a joined list of separator-free parts returns the parts |
| Encoding.JoinSplit | internal/platform/crypto/crypto.go:318-343 | Joining a split text returns the text |
| Encoding.ParsePrintInt64 | internal/platform/crypto/crypto.go:289-307 | Every 64-bit number parses back from its decimal text |
| Encoding.ParseInt64Meaning | internal/platform/crypto/crypto.go:289-307 | A text parses to a number exactly when it is its decimal numeral, leading zeros allowed, with the sign |
| Encoding.ParseUint32Meaning | internal/platform/crypto/crypto.go:181-208 | A parameter text parses to a number exactly when it is its unsigned decimal numeral, leading zeros allowed, and fits in 32 bits |
| Encoding.HexRoundTrip | internal/platform/crypto/crypto.go:441-455 | Hex decoding inverts hex encoding |
| Encoding.HexDecodeMeaning | internal/platform/crypto/crypto.go:441-455 | A text decodes to bytes exactly when its lower-case form is their encoding |
| Encoding.HexAlphabet | internal/platform/crypto/crypto.go:247-254 | The sixteen digits of the encoding, in order |
| Encoding.Base64RoundTrip | internal/platform/crypto/crypto.go:309-343 | Unpadded base64 decoding inverts encoding in both alphabets |
| Encoding.Base64DecodeMeaning | internal/platform/crypto/crypto.go:309-343 | A text decodes to bytes exactly when, line breaks removed, its symbols are those of the bytes up to the unused bits of the last |
| Encoding.Base64Alphabet | internal/platform/crypto/crypto.go:309-316 | The sixty-four symbols of the two alphabets, in order |
| Phc.ParsePhc | internal/platform/crypto/crypto.go:176-219 | The parsing loop computes the specified parse for every text |
| Phc.BadEntryStays | internal/platform/crypto/crypto.go:181-208 | Once a parameter entry is bad the list is rejected, whatever follows |
| Phc.ParsedIff | internal/platform/crypto/crypto.go:176-219 | For every text: parsing succeeds exactly on six parts with algorithm and version, good parameters with every key, and non-empty Base64 salt and digest; the last entry of each key counts |
| Phc.VerifyPasswordIff | internal/platform/crypto/crypto.go:89-96 | For every stored text: verification fails exactly on malformed texts, and otherwise answers whether the password gives the stored digest under the stored salt and parameters |
| Phc.PhcRoundTrip | internal/platform/crypto/crypto.go:70-219 | Parsing a printed hash recovers exactly parameters, salt and digest |
| Phc.VerifyAcceptsHashed | internal/platform/crypto/crypto.go:70-96 | A stored hash accepts exactly the passwords with the same digest, the original among them |
| CanonicalPayload.CanonicalHeaderPayload | internal/platform/crypto/identity.go:13-24 | The built payload is the sorted signed lines joined by line breaks |
| CanonicalPayload.PayloadIgnoresListOrder | internal/platform/crypto/identity.go:13-24 | Any permutation of the signed-header list gives the same payload |
| CanonicalPayload.SamePayloadIffSameLines | internal/platform/crypto/identity.go:13-24 | For newline-free lines, two requests share a payload exactly when they sign the same lines |
| CanonicalPayload.SamePayloadIffSameHeaders | internal/platform/crypto/identity.go:13-24 | For colon-free names, two requests share a payload exactly when every name, trimmed and in lower case, is signed equally often with every non-blank trimmed value |
| CanonicalPayload.ContextByLine | internal/platform/crypto/session.go:31-48 | The context payload is one line of lower-case trimmed name and trimmed value per key, in order |
| CanonicalPayload.CanonicalSessionContextPayload | internal/platform/crypto/session.go:31-48 | The payload is that of the keys in ascending order, whatever order the map yields |
| Login.LoginSafety | cmd/aegion/auth_flows.go:229-268 | In every interleaving of the statements of any requests, an "authenticated" answer stems from a request that opened the session for that identity; that request or an earlier one on the same flow verified its primary factor and found the identity active; both worked on a flow they had loaded as active, unexpired and with its CSRF token; with an enrolled factor the opening request verified a second one for that identity and the level is AAL2; the store has the session at the level shown unless it was removed since; the flow names identity and session and keeps no pending login after a submission |
| Login.EverySessionHasItsFactors | cmd/aegion/auth_flows.go:270-577 | Every session was opened by a login request with a validated flow, a primary factor of the same login verified for an identity then active, and the second factor it needed, answered or not, or by a registration and is at AAL1 |
| Login.PendingWasVerified | cmd/aegion/auth_flows.go:579-599 | A login pending in a flow belongs to an identity that was active, whose primary factor was verified on that flow, and that needed a second factor |
| Login.MfaRequiredMeansPending | cmd/aegion/auth_flows.go:579-599 | An answer that asks for a second factor leaves in the flow the login whose primary factor that same request verified |
| Login.LoadedWasValid | core/flows/service.go:172-187 | A flow a request holds as validated was active, unexpired and sent with its CSRF token when it was loaded |
| Login.LoadIff | core/flows/service.go:172-187 | Validation lets a flow through exactly when it is active, not past its expiry, and its non-empty CSRF token is the one sent |
| Login.EndingFlow | core/flows/service.go:204-235 | Only an active flow becomes completed or failed; a finished one keeps its state |
| Login.RegisterAndRevoke | core/session/session.go:208-366 | A registration session starts at AAL1; revoking makes exactly the named sessions inactive |
| Login.FinishPrimaryOutcome | cmd/aegion/auth_flows.go:445-483 | Undisturbed: exactly when a verified primary factor logs in, exactly when it leads to the second factor, and the session stored |
| Login.CompletePendingOutcome | cmd/aegion/auth_flows.go:522-577 | Undisturbed: exactly when the second step logs in, and the session stored with both factors |
| Login.SubmissionOutcome | cmd/aegion/auth_flows.go:229-268 | Undisturbed: the exact condition of each outcome of a submission without a pending login |
| Login.StepOk | cmd/aegion/auth_flows.go:229-599 | Every statement of every request keeps the login invariant and answers within it |
| Login.UndisturbedIsRun | cmd/aegion/auth_flows.go:445-577 | Processing a request in one go is a run of its statements with the answer of the last |
| Login.ResponseMatchesStoreIff | cmd/aegion/auth_flows.go:1601-1621 | The exact pairs of methods for which the level in the response is the stored one |
| Login.Server.WriteFlow | core/flows/service.go:260-265 | The flow is stored unless the write had no effect; the error is reported as given |
| Login.Server.CreateSession | cmd/aegion/auth_flows.go:428-443 | Opens a session as the protocol step does, whatever the request goes on to do |
| Login.Server.AddSecondFactor | cmd/aegion/auth_flows.go:471-476 | Raises stored and shown level as the protocol step does, and fails when the session is gone or the write fails |
| Login.Server.ShowMethod | cmd/aegion/auth_flows.go:1601-1621 | The loop adds a method once and raises the shown level only for strong ones |
| Login.Server.FinishLogin | cmd/aegion/auth_flows.go:1623-1635 | Writes the session into the flow and answers with it, as the last protocol step does |
| Login.Server.PrepareMfaLoginFlow | cmd/aegion/auth_flows.go:579-599 | Records the pending login in the flow, creating one if needed, and never authenticates |
| Login.Server.FinishPrimaryAuthentication | cmd/aegion/auth_flows.go:445-483 | Performs, undisturbed, the steps after a primary factor, covered by LoginSafety and FinishPrimaryOutcome |
| Login.Server.CompletePendingMfaLogin | cmd/aegion/auth_flows.go:522-577 | Performs, undisturbed, the steps after a second factor, covered by LoginSafety and CompletePendingOutcome |
| Login.Server.ExecuteLoginFlow | cmd/aegion/auth_flows.go:229-268 | Performs, undisturbed, the steps of a submission, covered by LoginSafety and SubmissionOutcome |
| Sessions.LevelOfMethods | core/session/session.go:539-548 | After any methods the level is AAL2 exactly when TOTP, WebAuthn, SMS or a backup code comes second or later, AAL0 exactly when all are unknown |
| Sessions.LevelNeverDrops | core/session/session.go:380-421 | Adding a method never lowers the level, and AAL2 needs two recorded methods |
| Sessions.StrongFirstStaysAal1 | core/session/session.go:208-223 | A strong method that only opens the session leaves it at AAL1 |
| Sessions.Manager.Create | core/session/session.go:208-280 | Stores the session with its method; a failed second insert leaves a row without methods and returns nothing |
| Sessions.Manager.AddAuthMethod | core/session/session.go:380-421 | Method and level change together or not at all |
| Sessions.Manager.RevokeAllForIdentity | core/session/session.go:359-366 | Exactly that identity's sessions become inactive |
| ProxyRateLimit.EvictionInvisible | core/proxy/ratelimit.go:61-137 | For requests and cleanup ticks every answer is the one of a store that never evicts, for every limit |
| ProxyRateLimit.RunsAgree | core/proxy/ratelimit.go:61-137 | The same with metrics reads and resets, as long as none touches an evicted key; token bounds hold throughout |
| ProxyRateLimit.EvictionInvisibleIff | core/proxy/ratelimit.go:103-117 | With reads and resets allowed anywhere, eviction is invisible in all runs exactly when no key has a positive limit |
| ProxyRateLimit.ReadShowsEviction | core/proxy/ratelimit.go:103-117 | For every positive limit, a run with one metrics read in which the evicting store answers differently |
| ProxyRateLimit.StaleRefillsFull | core/proxy/ratelimit.go:140-168 | A bucket past the eviction age behaves like a new one |
| ProxyRateLimit.WindowBound | core/proxy/ratelimit.go:61-168 | Whatever is read, reset and evicted, any window admits at most the capacity, once more per reset, plus one refill per started second; a limit of zero or less admits nothing |
| ProxyRateLimit.WaitIsEnoughIff | core/proxy/ratelimit.go:150-153 | A refused caller who waits as advised is admitted exactly when a whole second has passed since the last refill |
| ProxyRateLimit.WaitIsEnoughAtOne | core/proxy/ratelimit.go:150-153 | With one token a second the advice is always enough |
| ProxyRateLimit.WaitTooShort | core/proxy/ratelimit.go:150-153 | For every limit of two or more, a run whose last caller waits as advised and is refused again |
| ProxyRateLimit.MemoryStore.Allow | core/proxy/ratelimit.go:61-86 | Finds or creates the bucket, refills it and takes a token, as the run model says, and advises the waiting time |
| ProxyRateLimit.MemoryStore.GetCount | core/proxy/ratelimit.go:103-117 | Reads the use of a key, refilling its bucket as a side effect |
| ProxyRateLimit.MemoryStore.Reset | core/proxy/ratelimit.go:89-100 | Fills the key's bucket if it exists |
| ProxyRateLimit.MemoryStore.CleanupTick | core/proxy/ratelimit.go:120-137 | Removes exactly the buckets idle for more than ten minutes, in any iteration order |
| RouterRateLimit.EvictionInvisibleIff | core/router/middleware.go:265-314 | For every rate, eviction is invisible in all runs exactly when there is no burst or ten idle minutes refill it |
| RouterRateLimit.DrainShows | core/router/middleware.go:240-257 | With a negative rate, a run in which a kept bucket refuses and a new one admits |
| RouterRateLimit.EvictionShows | core/router/middleware.go:265-314 | Otherwise some run is answered differently |
| RouterRateLimit.StaleRefillsFull | core/router/middleware.go:240-257 | Under that condition a stale bucket behaves like a new one |
| RouterRateLimit.TakesAtOnce | core/router/middleware.go:240-257 | Requests at one moment are all admitted exactly when the bucket holds that many tokens |
| RouterRateLimit.WindowBoundIff | core/router/middleware.go:231-314 | Any window of any run admits at most the burst plus the window's refill, exactly when ten idle minutes refill the burst, for every rate |
| RouterRateLimit.WindowExceeded | core/router/middleware.go:265-314 | Otherwise a run in which the evicting limiter hands out two bursts in a window that earns less than one |
| RouterRateLimit.KeptWindowBounded | core/router/middleware.go:231-257 | Without eviction the bound holds in all runs and windows |
| RouterRateLimit.Limiter.Admit | core/router/middleware.go:288-305 | Finds or creates the client's bucket and takes a token, as the run model says |
| RouterRateLimit.Limiter.CleanupTick | core/router/middleware.go:270-285 | Removes exactly the buckets idle for more than ten minutes, in any iteration order |
| CircuitBreaker.FailuresFromHistory | core/proxy/circuit.go:101-146 | The failure counter is the number of failures since the last success or reset |
| CircuitBreaker.StateBounds | core/proxy/circuit.go:71-200 | Counter bounds per state, and the half-open counter as a function of the history |
| CircuitBreaker.Transitions | core/proxy/circuit.go:71-200 | The exact event that causes each transition from each state; the time kept is that of the last change |
| CircuitBreaker.LateSuccessNotCounted | core/proxy/circuit.go:121-126 | A success while open half-opens the breaker with zero counted successes |
| CircuitBreaker.RejectsUntilTimeout | core/proxy/circuit.go:81-88 | While open and before the timeout nothing is admitted, whatever requests and late failures arrive |
| CircuitBreaker.RequestsConserved | core/proxy/proxy.go:192-215 | Requests are those begun, and equal rejected plus succeeded plus failed plus in flight, with successes and failures as reported, in every run of the call protocol |
| CircuitBreaker.CircuitBreaker.ChangeState | core/proxy/circuit.go:186-200 | The fields after a state change |
| CircuitBreaker.CircuitBreaker.AllowRequest | core/proxy/circuit.go:71-98 | Performs the admission step; admits exactly when not open or the timeout has passed |
| CircuitBreaker.CircuitBreaker.RecordSuccess | core/proxy/circuit.go:101-128 | Performs the success step |
| CircuitBreaker.CircuitBreaker.RecordFailure | core/proxy/circuit.go:131-146 | Performs the failure step |
| CircuitBreaker.CircuitBreaker.ResetBreaker | core/proxy/circuit.go:175-183 | Performs the reset step |
| Rules.ExchangeSortSorts | core/proxy/rules.go:229-237 | The exchange sort yields a priority-descending permutation |
| Rules.AddedPlace | core/proxy/rules.go:157-168 | A new rule goes behind all of the same or higher priority, before all lower ones, and the list stays sorted |
| Rules.StepIntended | core/proxy/rules.go:157-210 | Each operation does to the list what it is meant to do to the collection, repeated ids included: add one, or remove or replace a topmost rule with the id |
| Rules.RunIntended | core/proxy/rules.go:81-210 | For every initial list and all operations the list stays priority-descending, starts as a permutation of the given rules and follows the intended collection step by step |
| Rules.RunSorted | core/proxy/rules.go:81-210 | The list is sorted after any operations, repeated ids included |
| Rules.FirstHitIsBest | core/proxy/rules.go:101-127 | The match is an enabled accepting rule of the highest priority, or none accepts |
| Rules.AddedFirstHit | core/proxy/rules.go:101-168 | An added rule takes over exactly when it accepts and strictly beats the current match |
| Rules.EarliestOfHighestWins | core/proxy/rules.go:101-168 | After adds alone, the earliest added of the best accepting rules wins |
| Rules.ConstructorLosesTieOrder | core/proxy/rules.go:81-97 | The constructor can put the later of two equal rules first |
| Rules.UpdateKeepsTiesIff | core/proxy/rules.go:199-210 | An update of a sorted list keeps the order of equal priorities among the other rules exactly when it overtakes no two different rules of the same priority |
| Rules.UpdateMovesUp | core/proxy/rules.go:199-237 | The list after an update that overtakes rules: the rule behind its equals, each overtaken group rotated by one |
| Rules.UpdateMovesDown | core/proxy/rules.go:199-237 | The list after any other update: the rule before its equals, the others unchanged |
| Rules.UpdateLosesTieOrder | core/proxy/rules.go:199-210 | Three rules whose tie an update reverses |
| Rules.SwapKeepsTiesIff | core/proxy/rules.go:229-237 | An exchange of the sort keeps the order of equal rules exactly when every rule in between with the priority of the one moved back is that rule |
| Rules.SecondExchangeRestores | core/proxy/rules.go:229-237 | Two reversing exchanges can restore a tie |
| Rules.SortedStays | core/proxy/rules.go:229-237 | Sorting a sorted list changes nothing |
| Rules.RuleEngine.constructor | core/proxy/rules.go:81-97 | Sorts the given rules |
| Rules.RuleEngine.SortRules | core/proxy/rules.go:229-237 | The nested loops perform the exchange sort |
| Rules.RuleEngine.AddRule | core/proxy/rules.go:157-168 | The loop performs the insertion |
| Rules.RuleEngine.RemoveRule | core/proxy/rules.go:171-179 | Removes the first rule with the id and reports whether there was one |
| Rules.RuleEngine.UpdateRule | core/proxy/rules.go:199-210 | Replaces the first rule with the id, sorts again, and reports whether there was one |
| Rules.RuleEngine.Match | core/proxy/rules.go:101-127 | The loop returns the first enabled accepting rule |
| Migrator.LoadMigrations | internal/platform/database/database.go:257-332 | Strictly ascending versions, one per version that some file has; the name is that of the first file of the version, up and down are the contents of its last up and last down file, or empty without one |
| Migrator.MigrationsAreAPrefix | internal/platform/database/database.go:179-362 | After any runs, crashes and lock contention the applied versions are a prefix, the schema is the in-order fold, and each script took effect once |
| Migrator.CompletedRunIsComplete | internal/platform/database/database.go:179-233 | A run that finishes its loop leaves what one undisturbed run gives: every version of 1 and up, no other |
| Migrator.PrefixIffSound | internal/platform/database/database.go:179-424 | Over any history of runs, crashes and overlapping rollbacks, the applied versions stay a prefix throughout exactly when each rollback that takes effect finds its version newest or gone and each migration applied finds all earlier ones applied |
| Migrator.BalancedIff | internal/platform/database/database.go:335-424 | Up scripts executed are down scripts executed plus versions applied, throughout any history, exactly when each rollback that takes effect finds its version applied |
| Migrator.RollbackEffect | internal/platform/database/database.go:365-424 | A rollback runs exactly the non-empty down script of the version it read and deletes that version, or changes nothing |
| Migrator.RollbackRestores | internal/platform/database/database.go:335-424 | Applying a migration and rolling it back restores schema and table when the down script undoes the up script |
| Migrator.RemovalKeepsPrefixIff | internal/platform/database/database.go:415-421 | Removing a version from a prefix leaves a prefix exactly when it was absent or the newest |
| Migrator.QuietRollbacksKeepPrefix | internal/platform/database/database.go:365-424 | Rollbacks that take effect outside the loop of a run, on a version still newest or gone, keep the prefix |
| Migrator.RollbackDuringRunLeavesGap | internal/platform/database/database.go:365-424 | A rollback inside a run after which the run leaves version 2 out and applies 3 |
| Migrator.StaleRollbackLeavesGap | internal/platform/database/database.go:365-424 | A rollback that read its version before a run ended removes version 2 under 3 while no run is active |
| Migrator.DownScriptTwice | internal/platform/database/database.go:365-424 | Two rollbacks that read the same version both execute its down script |
| Migrator.GapStays | internal/platform/database/database.go:179-233 | No later runs fill such a gap |
| Migrator.FailedUnlockBlocks | internal/platform/database/database.go:189-202 | After a failed unlock no other connection gets the lock until that connection is closed, whatever later runs on it do |
| Migrator.Database.Migrate | internal/platform/database/database.go:179-233 | An undisturbed call is a run of the protocol; it fails without effect when another connection has the lock, otherwise only at a newer migration whose script or transaction fails or whose version is recorded; it succeeds only after visiting every migration, and leaves the lock free exactly when it was free and the unlock went through |
| EventBus.BackoffExactIff | core/eventbus/eventbus.go:344 | For every delay, the result is retryDelay times a power of two exactly while that product fits in 64 bits |
| EventBus.BackoffWraps | core/eventbus/eventbus.go:344 | For every delay and attempt, the result is the product as a 64-bit number |
| EventBus.FailureEffect | core/eventbus/eventbus.go:329-355 | A recorded failure counts one attempt more than was read; it makes a dead letter exactly when that uses up the retries, else the row waits retryDelay times a power of two |
| EventBus.DeadLetteredLateEnough | core/eventbus/eventbus.go:238-355 | For any number of processors, any interleaving and any lost marks, a dead letter has at least maxRetries recorded failures, and without overflow at least retryDelay·(2^maxRetries − 2) lies between first and last |
| EventBus.DeadLetteredOnTime | core/eventbus/eventbus.go:238-355 | The bound is reached: a delivery that always fails is tried exactly maxRetries times, the last one retryDelay·(2^maxRetries − 2) after the first |
| EventBus.CountedIffCurrent | core/eventbus/eventbus.go:238-355 | The attempt count equals the recorded failures throughout a run exactly when every recorded failure finds the count its processor read |
| EventBus.DeadLetteredOnLastFailure | core/eventbus/eventbus.go:329-355 | Under that condition a recorded failure makes a dead letter exactly when it is the last allowed one, and none is recorded beyond it |
| EventBus.FailuresUnbounded | core/eventbus/eventbus.go:238-355 | For every n, n processors that select a row together record n failures while it counts one attempt |
| EventBus.SettledStaysIff | core/eventbus/eventbus.go:320-355 | A delivered or dead-lettered row stays so in every continuation exactly when no processor holds it |
| EventBus.OutcomeIsRun | core/eventbus/eventbus.go:238-317 | Handling one row undisturbed is a run of the protocol |
| EventBus.CleanupSafe | core/eventbus/eventbus.go:358-376 | Cleanup removes exactly the events before the cutoff without a pending or failed delivery; it works exactly when no such event has a delivery row, and otherwise changes nothing |
| EventBus.Bus.Publish | core/eventbus/eventbus.go:137-200 | Event and one pending delivery per subscriber appear together or not at all, a lost commit reply included |
| EventBus.Bus.RecordFailure | core/eventbus/eventbus.go:329-355 | Exactly that delivery is marked, with the attempt counted and the status and retry time that follow, unless the write is lost |
| EventBus.Bus.ProcessPending | core/eventbus/eventbus.go:238-317 | An undisturbed batch marks each selected row as its outcome says, from the count selected, and changes no other row or event |
| RandomSampling.RejectionIsUniform | internal/platform/crypto/random.go:35-62 | Each value below n is given by exactly limit/n of the 8-byte draws |
| RandomSampling.MostDrawsAccepted | internal/platform/crypto/random.go:35-62 | The accepted 8-byte draws are more than half of all 8-byte strings |
| RandomSampling.DecodeEncode | internal/platform/crypto/random.go:52-59 | Every number below 256^k is decoded from its k bytes |
| RandomSampling.EncodeDecode | internal/platform/crypto/random.go:52-59 | Every byte string is the encoding of its number |
| RandomSampling.LimitIsMultiple | internal/platform/crypto/random.go:35-62 | The acceptance limit is a multiple of n above half the range |
| RandomSampling.FillRandomBytes | internal/platform/crypto/random.go:11-20 | Fills the buffer with the source's blocks in order, or fails when they run out |
| RandomSampling.RandomBytes | internal/platform/crypto/random.go:23-32 | Returns the requested number of source bytes; a negative length is an error |
| RandomSampling.RandomIntN | internal/platform/crypto/random.go:35-62 | The first accepted draw decides; the result is below n; errors exactly as stated |
| LimitedReader.LimitedReads | internal/platform/egress/egress.go:306-331 | For any stream and buffer sizes the output is a prefix within the limit, the limit error means a longer stream, and a fitting stream arrives whole |
| LimitedReader.OversizedIsNoticed | internal/platform/egress/egress.go:306-331 | The end of an oversized stream is never reported without the limit error |
| LimitedReader.NoticedAtOnce | internal/platform/egress/egress.go:306-331 | A call takes at most one byte beyond the limit from the stream, and reports the limit at once when buffer and stream have room for that byte |
| LimitedReader.PanicsIff | internal/platform/egress/egress.go:306-331 | Reading panics exactly when the limit is the largest 64-bit number and a read is made |
| LimitedReader.LimitedReadCloser.ReadInto | internal/platform/egress/egress.go:306-331 | The buffer holds the bytes handed out and the state is that of the read model |
| Continuity.ConsumedAtMostOnce | core/flows/continuity.go:155-301 | In every interleaving of consuming calls and cleanup at most one call returns a container, with what was stored |
| Continuity.ReturnedInTime | core/flows/continuity.go:155-185 | In every interleaving, a container returned had not expired when it was read |
| Continuity.ConsumeAlone | core/flows/continuity.go:290-301 | The two statements of an undisturbed call return the container exactly when it is there and unexpired |
| Continuity.ExpiryExact | core/flows/continuity.go:231-242 | The cleanup removes exactly the expired containers |
| Continuity.ContinuityStore.Consume | core/flows/continuity.go:290-301 | Alone, a call returns the container exactly when it is there and unexpired, and removes it |

## Left out

- HTTP handlers, JSON, redirects, cookies on the wire, CORS and security headers, SMTP and SMS sending, template rendering, TLS and gRPC: input and output only.
- Password, magic-link, passkey, TOTP and trusted-device services: their answers are parameters of the login model.
- Recovery, settings and verification flows, registration before its session, and external callback parsing: they would add only easy members.
- ModuleRoutes.ResolveModulePlan: module version strings, images and production deployment checks are left out; the catalog is a parameter keyed by module id.
- ModuleRoutes.ValidateCatalogRoutes: which of several faults is named depends on Go's map order and is left open.
- Courier claiming picks any due rows up to the limit: the ORDER BY and row locks only narrow that choice. The direct-processing fallback of the workers is not modelled.
- Login.EverySessionHasItsFactors: the handlers in modules/password/handler/handler.go and modules/magic_link/handler/handler.go also open sessions, after a primary factor alone; nothing in the repository mounts them, and they are not part of this model.
- Login.LoginSafety: the two inserts of a session and the service calls that a request makes before its first write are one step.
- ProxyRateLimit.MemoryStore.Allow: only the one-second window, the only one the proxy asks for. The clock is read once per call and does not run backwards.
- Router limiter: floating-point numbers are reals.
- Glob matching, methods and rewrites of proxy rules: acceptance of a request is a parameter.
- Rules.ConstructorLosesTieOrder: for an arbitrary initial list only single exchanges are decided (SwapKeepsTiesIff); later exchanges can undo earlier ones, and no condition on the list is given.
- Migration file names are parsed before the model starts; the effect of a script is a parameter, and a script and its tracking row commit together.
- Event subscriptions and the event order within a batch are not modelled; row locks of the selecting query end with that query.
- HMAC, Argon2id, field encryption, PKCE and opaque hashes are not modelled inside.
- CanonicalPayload.SamePayloadIffSameLines: lines without line breaks, as HTTP header values are. Header name canonicalisation is a parameter.
- CanonicalPayload.SamePayloadIffSameHeaders: header names without a colon, as HTTP field names are.
- Auth-token rotation, module authentication, registry, discovery and configuration validation: single loops or branch lists.
