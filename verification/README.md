# Verified models of the Helix Terminator services

A Dafny model of the five parts of the services that hold real state machines, parsers and statement
builders, and proofs about them over every input, every interleaving and every reachable state.
`dafny verify dfyconfig.toml` checks the whole project.

**Gateway** (`CircuitBreaker`, `RateLimiter`, `HealthProber`, `PathTemplate`). A run of the breaker is a
log of its locked sections and body starts under any interleaving; the breaker's fields are what
replaying the log gives. The two limiters reset independently while requests sit between the two checks.
The prober, its probe goroutines and any number of Stop callers are a transition system with the wait
group, the once and the stop channel. Path templates are split, filled and joined, and read back by
percent-decoding.

**Auth** (`AuthProtocol`, `AuthSafety`, `AuthLockout`, `AuthMfa`, `AuthOutcomes`, `AuthService`, `PasswordHash`,
`Base64`). Users, sessions, challenges and a monotone clock; each handler is one atomic step. `AuthProtocol` gives
the steps, the three modules after it the properties of all runs, `AuthOutcomes` what each request is
answered in every reachable state and what the answer is worth, and `AuthService` the handlers,
repository and challenge store as a class whose methods are proved to be those steps. Password records
are printed and parsed down to the digits and base64 characters (sections 3.2 and 4 of RFC 4648).

**Containers** (`Regex`, `PortMapping`, `ContainerRun`, `ImageReference`, `BridgeProtocol`, `BridgeSafety`,
`BridgeOutcomes`, `Bridge`). Regular expressions with their languages, a matcher proved against them, the three
patterns of the service, the grammars of port mappings and image references, and the `run` argument vector
with the grammar that reads it. Bridge requests are chains of
calls and statements that interleave with each other and with a runtime whose containers change by
themselves; `BridgeSafety` has the properties of all runs, `BridgeOutcomes` what becomes
of one create or delete among them, and in `Bridge` every handler takes, before each
of its calls, any steps of the others, and is proved to be its request's steps among them.

**Billing** (`BillingProtocol`, `BillingSafety`, `BillingOrders`, `BillingLimits`, `BillingRetries`,
`BillingCustomers`, `BillingService`). Requests are chains of steps - lookup, processor calls, one write -
that interleave with each other and with webhook deliveries, against a processor with an idempotency store. Every handler body, as a method of a class,
is proved to be one run of those steps.

**SQL** (`Text`, `Sql`, `SqlQuery`, `SqlUpdate`, `AuditRepository`, `ConfigRepository`, `HostRepository`,
`BillingRepository`). The builders' methods produce texts; a lexer, a parser and an evaluator give the
texts their meaning, and the meaning is proved to be the direct filter, page or update.

Where something the code or its documentation suggests is not so, the model follows the code:

- A body can start while the breaker is open, when its call was admitted before
  (`CircuitBreaker.BodyMayStartWhileOpen`). The bound holds for admissions, and for bodies exactly when no
  admitted call has yet to begin its body (`CircuitBreaker.BodiesKeepOutExactly`).
- The lockout bound needs a term for increments the database loses, because `Login` ignores that error
  (`AuthLockout.LostIncrementsAreUnbounded`); without losses the bound is attained
  (`AuthLockout.BoundIsAttained`).
- Attaching a bridge to an existing container without an image is always refused, although `bringUp` has
  a branch for it (`Bridge.AttachNeedsAnImage`).
- A config search is a substring search exactly when it holds no `%`, `_` or backslash
  (`ConfigRepository.SearchIsSubstring`).
- A correction of a bridge's status writes all four columns and can take an edit back, exactly when the
  read saw a status that differs and the row was edited since (`BridgeSafety.CorrectionRevertsExactly`,
  `BridgeSafety.EditCanBeReverted`).
- Subscription statuses are those reported for the row's own subscription exactly when the processor
  refuses an idempotency key reused for another request (`BillingLimits.HonestExactlyWhenStrict`), and in
  every run in which clients do not reuse one (`BillingLimits.HonestWithoutReuse`).
- A retried create is exactly-once at the processor but not in the table: a key has at most one row exactly
  when it is sent in at most one create (`BillingRetries.OneRowExactlyForOneCreate`), and a retry after
  success adds a row exactly when the processor answers it (`BillingRetries.RetryInsertsExactly`).
- The version in a password record is read and then not looked at, and its costs count modulo the widths
  Argon2id takes them in (`PasswordHash.OnlyTheseMatter`).
- An org can get several processor customers, although the handler reuses the one on file: creates that
  find none keep to one customer exactly when they carry one key (`BillingCustomers.OneCustomerExactly`).
- A listing counts and lists in two statements. Its page fits the total it reports exactly when the table
  did not change within the page's reach in between (`SqlQuery.SizeFitsTotalExactly`).
- `CountHosts` agrees with `ListHosts` exactly when neither status nor tags are filtered on
  (`HostRepository.CountIgnoresStatusAndTags`).

## Model

| member | source | states |
|---|---|---|
| CircuitBreaker.Guard.Admit | services/gateway-service/internal/server/server.go:135-146 | the first locked section: rejects exactly while open and within 30 s of the latest failure, and a rejection changes nothing |
| CircuitBreaker.Guard.Settle | services/gateway-service/internal/server/server.go:149-162 | the second locked section: counts the outcome and opens at the threshold |
| CircuitBreaker.CountingIsExact | services/gateway-service/internal/server/server.go:119-162 | on every interleaving the count is the trailing run of failed completions and the breaker is closed exactly below its threshold, if and only if the threshold is at least one |
| CircuitBreaker.RejectionChangesNothing | services/gateway-service/internal/server/server.go:137-143 | a rejected call leaves the breaker as it was |
| CircuitBreaker.FailureAtThresholdOpens | services/gateway-service/internal/server/server.go:149-156 | on every run, a failing completion that ends at least threshold failures in a row leaves the breaker open, a failed probe included |
| CircuitBreaker.AdmittedAfterThePeriod | services/gateway-service/internal/server/server.go:135-146 | a call that arrives after such a failure, with nothing in between, is admitted if and only if more than 30 s have passed |
| CircuitBreaker.StaysOpen | services/gateway-service/internal/server/server.go:135-162 | between a failing completion at or above the threshold and the next success the breaker stays open until the period has passed, however late calls complete |
| CircuitBreaker.NoAdmissionWhileOpen | services/gateway-service/internal/server/server.go:135-162 | after a call fails at t as at least the threshold-th failure in a row, no call is admitted up to t + 30 s unless one succeeds in between |
| CircuitBreaker.LateBodyWasAdmittedEarlier | services/gateway-service/internal/server/server.go:144-148 | a body that starts within that period belongs to a call admitted before the failure |
| CircuitBreaker.BodiesKeepOutExactly | services/gateway-service/internal/server/server.go:135-162 | after such a failure, no body starts within the period without a success in between, on any continuation, if and only if no admitted call has yet to begin its body |
| CircuitBreaker.BodyMayStartWhileOpen | services/gateway-service/internal/server/server.go:144-148 | a concrete run in which a body starts while the breaker is open |
| RateLimiter.Limiter.Allow | services/gateway-service/internal/server/server.go:100-108 | a key is let through and counted exactly below its maximum; other keys keep their count |
| RateLimiter.SegmentBound | services/gateway-service/internal/server/server.go:100-117 | in any segment of a run with k resets a key is admitted at most (k+1) times the maximum, from whatever counters it starts |
| RateLimiter.WindowIsExact | services/gateway-service/internal/server/server.go:100-117 | within one window exactly as many questions are admitted as there is room for |
| RateLimiter.FreshWindow | services/gateway-service/internal/server/server.go:100-117 | whatever happened before a reset, until the next one a key is let through its first max times, and no more |
| RateLimiter.AdmissionsAreConserved | services/gateway-service/internal/server/server.go:824-852 | over all interleavings and independent resets, address admissions equal endpoint admissions plus endpoint rejections plus requests between the checks |
| RateLimiter.ViewsAreRuns | services/gateway-service/internal/server/server.go:824-852 | each limiter by itself sees a run of questions and resets, with the counters the middleware has |
| RateLimiter.MiddlewareBounds | services/gateway-service/internal/server/server.go:824-852 | an address passes at most 1000 times and an endpoint is forwarded at most 500 times per window, however the windows and requests interleave |
| RateLimiter.Middleware | services/gateway-service/internal/server/server.go:824-852 | run alone, it forwards exactly an exempt path or a request whose address was counted below 1000 and whose verb and path below 500, and counts it against the first and, once that lets it through, against the second; it is one step of each check |
| HealthProber.ClosedExactlyOnce | services/gateway-service/internal/server/server.go:654-661 | however many callers stop the server, however often, the stop channel is closed once and never twice |
| HealthProber.StopIsFinal | services/gateway-service/internal/server/server.go:620-694 | a Stop returns only when the prober and its probes have finished, and no health flag is written after any Stop has returned |
| HealthProber.SweepsAreExact | services/gateway-service/internal/server/server.go:677-694 | every finished sweep writes every upstream exactly once, with that upstream's own result of that sweep |
| HealthProber.WritesAreProbed | services/gateway-service/internal/server/server.go:677-694 | every write is what the probe of that upstream came back with in that very sweep of the trace |
| HealthProber.FlagIsLastWrite | services/gateway-service/internal/server/server.go:620-694 | at every moment an upstream's flag is its last write, and up before the first |
| HealthProber.StopIsNeverStuck | services/gateway-service/internal/server/server.go:620-694 | while a Stop is pending some step of the prober, its probes or a Stop caller, other than a tick or a new call, is possible |
| HealthProber.EveryStopReturns | services/gateway-service/internal/server/server.go:620-694 | each such step lowers a measure, so only boundedly many can be taken, and when none is left every Stop has returned |
| PathTemplate.ResolvePathParams | services/gateway-service/internal/server/server.go:1064-1087 | the array loop computes the filled template, or refuses |
| PathTemplate.RefusedExactly | services/gateway-service/internal/server/server.go:1076-1082 | a path is refused exactly when the value of some parameter in it holds '/', '?', '#' or two adjacent dots |
| PathTemplate.ResolvedSegments | services/gateway-service/internal/server/server.go:1064-1087 | the result splits into as many segments as the template; literal segments and empty parameters stand, every other one percent-decodes to its value and holds no '/', '?' or '#' |
| PathTemplate.FilledSegmentsHaveNoDots | services/gateway-service/internal/server/server.go:1076-1083 | no segment filled from a parameter holds two adjacent dots |
| PathTemplate.EscapesExactly | services/gateway-service/internal/server/server.go:1083-1083 | which bytes stand as they are, and that any other is a percent sign and two upper-case digits of its value (section 2.1 of RFC 3986) |
| PathTemplate.EscapedDecodes | services/gateway-service/internal/server/server.go:1083-1083 | percent-decoding undoes the escaping of every byte string (section 2.1 of RFC 3986) |
| AuthSafety.AcceptedExactly | services/auth-service/internal/server/server.go:338-385 | in every reachable state the accepted tokens are exactly the unexpired access tokens bound to an unrevoked session of their own user; a refresh token never is |
| AuthSafety.OneTokenPerSession | services/auth-service/internal/repository/repository.go:174-232 | at most one accepted token per session |
| AuthSafety.AcceptedLifetime | services/auth-service/internal/crypto/crypto.go:223-300 | a token accepted at t has t below its session's login plus 7 days plus 15 minutes, however many refreshes happened |
| AuthSafety.RefreshEndsPrevious | services/auth-service/internal/handler/handler.go:436-497 | a successful refresh makes its access token accepted and ends every earlier token of the session for good |
| AuthSafety.RevocationIsAbsorbing | services/auth-service/internal/repository/repository.go:218-260 | once a session is revoked no later step makes any token of it accepted |
| AuthSafety.LogoutRevokes | services/auth-service/internal/handler/handler.go:500-533 | an accepted logout revokes the named session, or every session of the bearer, and nothing else |
| AuthLockout.FailedLoginsAreExact | services/auth-service/internal/repository/repository.go:114-142 | the stored count is the number of counted wrong passwords since the last correct one that cleared it |
| AuthLockout.LockoutBound | services/auth-service/internal/handler/handler.go:154-173 | over any span without a correct password at most 5 + floor(T / 15 min) wrong passwords are evaluated for an account, plus those whose increment the database lost |
| AuthLockout.LostIncrementsAreUnbounded | services/auth-service/internal/handler/handler.go:163-171 | without that last term the bound is false: with lost increments any number is evaluated in no time, for every account that is not locked |
| AuthLockout.BoundIsAttained | services/auth-service/internal/handler/handler.go:154-173 | for every length T of a span there is a run that evaluates 5 + floor(T / 15 min) wrong passwords and loses nothing |
| AuthMfa.MfaSessionIsFounded | services/auth-service/internal/handler/handler.go:239-331 | every session VerifyMFA makes belongs to the user whose login with a correct password made that challenge at most 5 minutes earlier |
| AuthMfa.ChallengeYieldsOneSession | services/auth-service/internal/handler/mfa_challenge.go:50-86 | a challenge yields at most one session and is gone once it has |
| AuthMfa.MfaSessionNeedsRightCode | services/auth-service/internal/handler/handler.go:239-331 | over all runs, every session from a challenge was made by a request with that challenge and a right code, for an account that had MFA on and a secret when the request started |
| AuthMfa.LoginNeverBypassesMfa | services/auth-service/internal/handler/handler.go:175-193 | over all runs, every session a login made was made for an account that had MFA off in the state in which that login started |
| AuthMfa.SetupForcesChallenges | services/auth-service/internal/handler/handler.go:334-410 | once an MFA setup has been accepted, every later session of the account comes from a challenge, whatever happens in between |
| AuthOutcomes.RegisterExactly | services/auth-service/internal/handler/handler.go:57-137 | in every reachable state a registration is a conflict exactly when the email is taken, and otherwise makes the account and a session whose tokens are accepted |
| AuthOutcomes.LoginExactly | services/auth-service/internal/handler/handler.go:140-236 | in every reachable state a locked account refuses every password; otherwise a wrong one is unauthorized and a right one opens a session, or makes a five-minute challenge and no session when MFA is on |
| AuthOutcomes.LoginTouchesOne | services/auth-service/internal/handler/handler.go:140-236 | a login changes nothing about another account |
| AuthOutcomes.LockLastsExactly | services/auth-service/internal/handler/handler.go:154-173 | after the fifth wrong password in a row a right one is refused for exactly 15 minutes |
| AuthOutcomes.NoLockBeforeTheFifth | services/auth-service/internal/repository/repository.go:114-128 | no earlier one locks |
| AuthOutcomes.VerifyMfaExactly | services/auth-service/internal/handler/handler.go:239-331 | in every reachable state a challenge opens a session exactly when it is alive, its account has MFA on and a secret, and the code is right; a wrong code is unauthorized and leaves everything as it was |
| AuthOutcomes.SetupMfaExactly | services/auth-service/internal/handler/handler.go:334-410 | a setup is accepted exactly from an accepted bearer whose account exists, and turns MFA on with the new secret for that account alone |
| AuthOutcomes.RefreshExactly | services/auth-service/internal/handler/handler.go:436-497 | in every reachable state a refresh succeeds exactly with an unexpired refresh token of a session that is not revoked, and its access token is accepted |
| AuthOutcomes.LogoutExactly | services/auth-service/internal/handler/handler.go:500-533 | a logout is unauthorized exactly without an accepted bearer, and touches only revocation times: those of the named session, of all sessions of the bearer's account, or none |
| AuthOutcomes.TokensLiveExactly | services/auth-service/internal/crypto/crypto.go:223-300 | the tokens of a login are accepted for 15 minutes and good for a refresh for 7 days, to the whole second |
| AuthService.Service.CountFailedLogin | services/auth-service/internal/repository/repository.go:114-128 | the UPDATE increments the count and locks from the fifth failure on, judging the count before the increment |
| AuthService.Service.ClearFailedLogins | services/auth-service/internal/repository/repository.go:131-142 | count and lock are cleared |
| AuthService.Service.GetSessionByTokenHash | services/auth-service/internal/repository/repository.go:174-208 | finds exactly an unrevoked session holding the hash |
| AuthService.Service.UpdateSessionAccessTokenHash | services/auth-service/internal/repository/repository.go:218-232 | rebinds an unrevoked session and reports no row otherwise |
| AuthService.Service.RevokeOne | services/auth-service/internal/repository/repository.go:235-246 | the one session is revoked, now |
| AuthService.Service.RevokeAll | services/auth-service/internal/repository/repository.go:249-260 | every unrevoked session of the user is revoked, and no other changes |
| AuthService.Service.Authenticate | services/auth-service/internal/server/server.go:338-385 | the middleware's guards accept exactly the accepted tokens |
| AuthService.Service.CreateChallenge | services/auth-service/internal/handler/mfa_challenge.go:50-61 | a fresh challenge that expires in 5 minutes |
| AuthService.Service.LookupChallenge | services/auth-service/internal/handler/mfa_challenge.go:64-79 | finds a live challenge and reaps an expired one |
| AuthService.Service.Register | services/auth-service/internal/handler/handler.go:57-137 | the handler is the registration step |
| AuthService.Service.Login | services/auth-service/internal/handler/handler.go:140-236 | the handler is the login step: lock, password, count, MFA, session, in this order |
| AuthService.Service.VerifyMfa | services/auth-service/internal/handler/handler.go:239-331 | the handler is the challenge step: challenge, account, code, session, in this order |
| AuthService.Service.SetupMfa | services/auth-service/internal/handler/handler.go:334-410 | the handler is the MFA setup step |
| AuthService.Service.RefreshAccess | services/auth-service/internal/handler/handler.go:436-497 | the handler is the refresh step |
| AuthService.Service.Logout | services/auth-service/internal/handler/handler.go:500-533 | the handler is the logout step |
| Base64.RoundTrip | services/auth-service/internal/crypto/crypto.go:48-50 | unpadded base64 decoding undoes encoding on every byte string |
| Base64.SameBits | services/auth-service/internal/crypto/crypto.go:48-50 | three octets and their four characters are the same number; one or two octets are followed by zero bits (section 4 of RFC 4648) |
| Base64.DecodesExactly | services/auth-service/internal/crypto/crypto.go:81-89 | a text decodes exactly when, line breaks apart, it is of the alphabet and does not end in a single character |
| PasswordHash.ParsePrinted | services/auth-service/internal/crypto/crypto.go:40-89 | every record within the reader's integer widths is parsed back as it was printed |
| PasswordHash.SameBytes | services/auth-service/internal/crypto/crypto.go:94-102 | the OR of the XORs is zero exactly when the two byte strings are equal |
| PasswordHash.VerifyPassword | services/auth-service/internal/crypto/crypto.go:57-103 | the method parses, recomputes and compares, and fails or panics exactly when the specification does |
| PasswordHash.HashedPasswordVerifies | services/auth-service/internal/crypto/crypto.go:40-103 | a password verifies against its own record without error, for every password and salt, and another one exactly when Argon2id gives both the same key |
| PasswordHash.RecordShape | services/auth-service/internal/crypto/crypto.go:40-54 | a new record is the text $argon2id$v=19$m=65536,t=3,p=4$ with salt and key, and the key is derived with those costs |
| PasswordHash.RefusedRecords | services/auth-service/internal/crypto/crypto.go:57-89 | which texts are refused as no record, and that every other is verified |
| Regex.MatchString | services/container-bridge-service/internal/containerrt/containerrt.go:157-165 | the matcher accepts exactly the language of the pattern |
| Regex.FirstCharacter | services/container-bridge-service/internal/containerrt/containerrt.go:81-104 | the first character of a matched text is one the pattern can start with |
| PortMapping.ParseExactly | services/container-bridge-service/internal/containerrt/containerrt.go:111-113 | a text has at most one grammatical reading, and reading it finds that one |
| PortMapping.CapturesAreUnique | services/container-bridge-service/internal/containerrt/containerrt.go:111-113 | a text matches the pattern exactly when it has a grammatical reading, and any two matches capture the same two ports |
| PortMapping.FindSubmatch | services/container-bridge-service/internal/containerrt/containerrt.go:178-183 | matches exactly the pattern's language and returns its captures |
| PortMapping.ValidatePortMapping | services/container-bridge-service/internal/containerrt/containerrt.go:178-191 | accepts exactly `[a.b.c.d:]host:container[/tcp or /udp]` with 1-3 digit octets, 1-5 digit ports and both ports in 1..65535 |
| PortMapping.AcceptedExactlyInRange | services/container-bridge-service/internal/containerrt/containerrt.go:178-191 | a mapping of the grammar is accepted exactly when both its ports are from 1 to 65535 |
| PortMapping.PortPairsAreAccepted | services/container-bridge-service/internal/containerrt/containerrt.go:111-113 | every two port numbers in decimal are accepted, with either protocol or none |
| ContainerRun.ImageIsPositional | services/container-bridge-service/internal/containerrt/containerrt.go:81-104 | an accepted image is not empty and starts with a letter or digit, so never with '-' |
| ImageReference.ImageExactly | services/container-bridge-service/internal/containerrt/containerrt.go:81-104 | an image is accepted if and only if it is a reference of the documented grammar: a registry with a port if any, components of small letters and digits, a tag of at most 128 characters, a digest of at least 32 digits |
| ImageReference.EverydayReferences | services/container-bridge-service/internal/containerrt/containerrt.go:81-104 | a word of small letters and digits is accepted, alone and with any tag |
| ContainerRun.NameExactly | services/container-bridge-service/internal/containerrt/containerrt.go:81-81 | which names the pattern accepts, character by character |
| ContainerRun.ValidateRunFromImageInputs | services/container-bridge-service/internal/containerrt/containerrt.go:157-173 | accepts exactly acceptable name, image and ports, and names the first offender otherwise |
| ImageReference.InputsExactly | services/container-bridge-service/internal/containerrt/containerrt.go:157-173 | the inputs accepted are exactly: no name or a name text, an image reference of the grammar, and port mappings of the grammar with both ports from 1 to 65535 |
| ContainerRun.ArgvReadsBack | services/container-bridge-service/internal/containerrt/containerrt.go:195-212 | the vector reads back to its inputs if and only if the image does not look like a flag |
| ContainerRun.AcceptedInputsReadBack | services/container-bridge-service/internal/containerrt/containerrt.go:157-212 | for all accepted inputs and any command, the run grammar recovers exactly name, ports, image and cmd |
| ContainerRun.BuildArgv | services/container-bridge-service/internal/containerrt/containerrt.go:207-212 | the append loop builds that vector |
| ContainerRun.RunFromImage | services/container-bridge-service/internal/containerrt/containerrt.go:195-228 | rejects exactly unacceptable inputs, and otherwise the runtime is given a vector that reads back to the inputs |
| BridgeSafety.RunsKeepInv | services/container-bridge-service/internal/handler/handler.go:52-365 | every finite sequence of steps of any requests and the runtime keeps the invariant on rows and requests, brings back no id and changes no container of a bridge |
| BridgeSafety.StatusesAreReal | services/container-bridge-service/internal/handler/handler.go:52-327 | in every reachable state a row is "active" only if the runtime had its container running at some time of the run, "error" only if it had it dead, and "inactive" otherwise |
| BridgeSafety.BridgesKeepTheirContainer | services/container-bridge-service/internal/handler/handler.go:184-327 | over any further run a bridge that is still there has its container, and one that is gone stays gone |
| BridgeSafety.CorrectionRevertsExactly | services/container-bridge-service/internal/handler/handler.go:193-209 | a correction undoes an edit exactly when the read observed a status other than the stored one and the editable columns changed since it was read; it then restores what was read |
| BridgeSafety.EditCanBeReverted | services/container-bridge-service/internal/handler/handler.go:193-209 | a run in which a client renames a bridge and a concurrent read takes the old name back |
| BridgeProtocol.DriveIsARun | services/container-bridge-service/internal/handler/handler.go:52-365 | a request with everything around its steps is one run of steps, so what holds of all runs holds of it |
| BridgeOutcomes.AttachToRunning | services/container-bridge-service/internal/handler/handler.go:122-141 | among any steps of others, attaching to a running container tells the runtime nothing and inserts an active bridge |
| BridgeOutcomes.AttachToStopped | services/container-bridge-service/internal/handler/handler.go:125-139 | attaching to a known container that is not running starts it and nothing else; the bridge has the status looked at afterwards, and there is none without that answer |
| BridgeOutcomes.RunsUnknown | services/container-bridge-service/internal/handler/handler.go:142-177 | without an answer about the container a new one is run under its name, and there is a bridge exactly when it is then running and the insert succeeds |
| BridgeOutcomes.RunsUnnamed | services/container-bridge-service/internal/handler/handler.go:155-177 | the same under the generated name when none is given |
| BridgeOutcomes.DeleteTearsDown | services/container-bridge-service/internal/handler/handler.go:337-365 | a delete tells the runtime to stop and then to remove that container, whatever it answers, before its statement, which removes that row and no other |
| Bridge.World.Reconcile | services/container-bridge-service/internal/handler/handler.go:184-209 | the runtime is asked in this call, the status is what it answered, "inactive" when it could not, and a differing one is written back with the other columns as read |
| Bridge.World.GetBridge | services/container-bridge-service/internal/handler/handler.go:214-232 | among any steps of others, the answer is the row with the status the runtime told then: "active" exactly when the container is running at that moment, whatever the row said |
| Bridge.World.BringUp | services/container-bridge-service/internal/handler/handler.go:108-177 | input is refused exactly when the validator refuses it; the status returned is the one the runtime has for the container at that moment, and a new container must be running |
| Bridge.World.CreateBridge | services/container-bridge-service/internal/handler/handler.go:52-98 | exactly the outcomes of the steps; a row is created exactly when the insert succeeds after the container came up, with the status last told in this request |
| Bridge.World.UpdateBridge | services/container-bridge-service/internal/handler/handler.go:281-327 | name, image and ports are the client's and the status is what the runtime told in this request, or the stored one when it is not asked; the requested status is never used |
| Bridge.World.DeleteBridge | services/container-bridge-service/internal/handler/handler.go:337-365 | whatever the runtime answers, the row is deleted exactly when the statement succeeds on a row that is still there |
| Bridge.AttachNeedsAnImage | services/container-bridge-service/internal/handler/handler.go:122-143 | a bridge request without an image is always refused, so the missing-image branch is never reached |
| Bridge.GeneratedNameIsAccepted | services/container-bridge-service/internal/handler/handler.go:144-157 | a generated name passes the validation |
| BillingProtocol.DerivedKeysAreInjective | services/billing-service/internal/billing/stripe_provider.go:126-152 | two derived keys are equal exactly when client key and operation are |
| BillingProtocol.LatestCustomerIsNewest | services/billing-service/internal/repository/repository.go:117-136 | the lookup gives the customer of the org's newest row that has one, and none exactly when no row has one |
| BillingSafety.CreatesAreExactlyOnce | services/billing-service/internal/billing/stripe_provider.go:112-165 | over all runs, at most one customer and one subscription is made per client key, and every row inserted under the key is that subscription's |
| BillingSafety.CallsUnderAKeyRepeat | services/billing-service/internal/billing/stripe_provider.go:126-152 | once a key has a result, in every later state a call under it leaves the processor as it is and is answered, if at all, with that result |
| BillingSafety.StatusesAreReported | services/billing-service/internal/handler/handler.go:106-188 | over all runs from an empty table every row has an external id and a status reported for it, or "canceled" or "expired" and a request of the row's own org asked for just that; "active" was always reported |
| BillingSafety.PlansAreAsked | services/billing-service/internal/handler/handler.go:106-402 | over all runs, a row's plan is one its own org created a row with or moved that row to |
| BillingSafety.WebhookReconciles | services/billing-service/internal/handler/handler.go:581-619 | a reported status with an id gives exactly the rows of that subscription the status, and any other delivery changes nothing |
| BillingSafety.RowsPersist | services/billing-service/internal/handler/handler.go:289-483 | over any run a row keeps its org, provider and external id |
| BillingSafety.StepStaysInside | services/billing-service/internal/handler/handler.go:289-619 | a step changes or adds only rows of the org it acts for; a delivery changes only the status of rows of its subscription |
| BillingSafety.OtherOrgsCannotInterfere | services/billing-service/internal/handler/handler.go:289-483 | whatever the requests of other orgs do, in any interleaving, the rows of an org stay as they are |
| BillingLimits.HonestExactlyWhenStrict | services/billing-service/internal/handler/handler.go:88-93 | the statuses are honest in every run if and only if the processor refuses a key reused for another request |
| BillingLimits.HonestWithoutReuse | services/billing-service/internal/handler/handler.go:88-93 | in every run in which no derived key is reused for a different request the statuses are honest, whatever the processor would do with one |
| BillingOrders.CreateOnFile | services/billing-service/internal/handler/handler.go:129-187 | an undisturbed create for an org with a customer on file, of any plan and price, uses that customer, makes no other, and ends in a row exactly when the processor answers with an id |
| BillingOrders.ChangePlan | services/billing-service/internal/handler/handler.go:343-377 | an undisturbed plan change asks the processor for the new price under its own key; when answered the row has the plan, the answered status and the answered customer if any, and nothing else changes |
| BillingOrders.CancelRow | services/billing-service/internal/handler/handler.go:449-466 | an undisturbed cancellation cancels that subscription; when answered the row has the answered status, whatever it is |
| BillingOrders.EndRow | services/billing-service/internal/handler/handler.go:378-395 | a request for "canceled" or "expired" gives its row that status, and one for any other status changes nothing |
| BillingRetries.AtMostOneRowPerCreate | services/billing-service/internal/handler/handler.go:106-188 | over all runs a key has at most as many rows as creates arrived with it |
| BillingRetries.RetryInsertsExactly | services/billing-service/internal/handler/handler.go:141-187 | in every reachable state, an undisturbed create retried after its row was inserted adds a row of the same subscription exactly when the processor answers it |
| BillingRetries.OneRowExactlyForOneCreate | services/billing-service/internal/handler/handler.go:141-187 | a key has at most one row in every run with at most n creates carrying it, if and only if n is at most one |
| BillingCustomers.OneCustomerExactly | services/billing-service/internal/handler/handler.go:129-147 | an org has at most one processor customer in every run whose creates for it that find none carry keys from a given set, if and only if that set has at most one key |
| BillingCustomers.OneCustomerDecidedExactly | services/billing-service/internal/handler/handler.go:129-147 | in every reachable state, the requests under way can leave the org with at most one customer if and only if those that found none, and a customer already made, share one key |
| BillingService.Billing.GetLatestExternalCustomerID | services/billing-service/internal/repository/repository.go:117-136 | the lookup, empty exactly when no row of the org has a customer |
| BillingService.Billing.AskProcessor | services/billing-service/internal/billing/stripe_provider.go:126-152 | the first executed call under a derived key is stored with its result, a later one executes nothing, and an answer is always the stored result |
| BillingService.Billing.ProviderCreate | services/billing-service/internal/billing/stripe_provider.go:112-165 | a customer is made only when the org has none, then the subscription; both answers must carry an id |
| BillingService.Billing.UpdateSubscriptionRow | services/billing-service/internal/repository/repository.go:205-238 | the row with both id and org gets the changes, or nothing changes |
| BillingService.Billing.CancelSubscriptionRow | services/billing-service/internal/repository/repository.go:249-262 | the row with both id and org gets the status, or nothing changes |
| BillingService.Billing.UpdateSubscriptionStatusByExternalID | services/billing-service/internal/repository/repository.go:275-288 | every row of the subscription gets the status; an empty id or status does nothing |
| BillingService.Billing.CreateSubscription | services/billing-service/internal/handler/handler.go:106-188 | the handler is one run of steps; without a provider or a price it refuses and changes nothing; it answers 201 exactly when it inserted a row, which has the plan asked for, the customer on file or else the one made, and the id and status the processor stored |
| BillingService.Billing.ChangePlan | services/billing-service/internal/billing/stripe_provider.go:181-217 | a plan change records what the processor answered for the subscription |
| BillingService.Billing.UpdateSubscription | services/billing-service/internal/handler/handler.go:289-402 | the handler is one run of steps; an invalid request is a bad request, and a valid one is not found exactly for a missing row or one of another org; Ok means that the row shows what was asked for and the processor stored, any other answer that no row changed |
| BillingService.Billing.CancelSubscription | services/billing-service/internal/handler/handler.go:415-483 | the handler is one run of steps; not found exactly for a missing row or one of another org; NoContent exactly when the row shows the status the processor stored for this cancellation, or "canceled" without a subscription; any other answer means that no row changed |
| BillingService.Billing.StripeWebhook | services/billing-service/internal/handler/handler.go:581-619 | a verified delivery is one reconciling step, which gives exactly the rows of the subscription the status |
| Sql.LexConcat | services/audit-service/internal/repository/repository.go:136-146 | texts that meet at a separator are tokenised independently |
| Sql.ParseJoined | services/host-service/internal/repository/repository.go:293-302 | conditions joined by AND parse back to themselves, whatever follows |
| Sql.AddMeans | services/audit-service/internal/repository/repository.go:96-134 | adding a condition with its argument narrows the selection by exactly that condition, and earlier placeholders keep their arguments |
| Sql.TextMeans | services/audit-service/internal/repository/repository.go:136-146 | the joined text with its arguments selects what the builder does |
| SqlQuery.PageMeans | services/audit-service/internal/repository/repository.go:153-161 | the listing text means: order the selected rows by the column, times and texts by their total orders, skip the offset argument, take the limit argument |
| SqlQuery.PageIsPage | services/audit-service/internal/repository/repository.go:153-183 | the page query answers exactly the pages of the rows it selects: of an arrangement of all n in order, the min(limit, max(0, n - offset)) rows from the offset on |
| SqlQuery.AnsweredIsPage | services/audit-service/internal/repository/repository.go:145-183 | the total counts the rows selected when it was asked, the page is one of those selected when it was asked |
| SqlQuery.SizeFitsTotalExactly | services/audit-service/internal/repository/repository.go:145-183 | the page has min(limit, max(0, total - offset)) rows if and only if no change between the two statements moved the number of rows within its reach |
| SqlQuery.PageIsDetermined | services/config-service/internal/repository/repository.go:144-175 | when the order column tells the rows apart there is only one possible page |
| AuditRepository.JoinWhere | services/audit-service/internal/repository/repository.go:136-143 | the loop writes WHERE before the first part and AND between parts |
| AuditRepository.ListAuditLogs | services/audit-service/internal/repository/repository.go:80-164 | the method emits the clause texts and arguments of the seven filters, the caller's limit from 1 to 100, otherwise 20 or 100, and the caller's offset unless negative |
| AuditRepository.FilterTextMeans | services/audit-service/internal/repository/repository.go:94-143 | for every combination of filters the emitted text, evaluated on any row, is the direct filter |
| AuditRepository.ListAuditLogsMeans | services/audit-service/internal/repository/repository.go:80-183 | with that limit and offset, the total counts the wanted rows when it is asked and the page, newest first and at most a hundred, is a page of the wanted rows when it is asked; it has min(limit, max(0, total - offset)) rows exactly when the table did not change within its reach in between |
| AuditRepository.CountBy | services/audit-service/internal/repository/repository.go:186-221 | the grouped query is the filtered one grouped by the column |
| AuditRepository.CountByPartitions | services/audit-service/internal/repository/repository.go:186-293 | each group counts the wanted rows with its value and the groups add up to all wanted rows |
| AuditRepository.CollectCounts | services/audit-service/internal/repository/repository.go:227-237 | the map holds each group's count under its key and nothing else |
| ConfigRepository.ListConfigs | services/config-service/internal/repository/repository.go:106-155 | the method emits the clause texts and arguments, including conditions without argument and the placeholder used twice |
| ConfigRepository.FilterTextMeans | services/config-service/internal/repository/repository.go:111-134 | for every combination of filters the emitted text, evaluated on any row, is the direct filter; a scope without id means a NULL id |
| ConfigRepository.ListConfigsMeans | services/config-service/internal/repository/repository.go:106-175 | the total counts the wanted configs of the first query and the page is a page of those of the second, in the order of their keys; when its size fits the total |
| ConfigRepository.KeysFixThePage | services/config-service/internal/repository/repository.go:144-175 | keys that tell the wanted configs apart fix the page |
| ConfigRepository.SearchIsSubstring | services/config-service/internal/repository/repository.go:128-132 | the search finds exactly the texts containing it, ignoring case, if and only if it has no special character |
| ConfigRepository.UpdateConfig | services/config-service/internal/repository/repository.go:178-208 | for every map and visiting order the statement sets the map and the stamp on the live row; an empty map is refused, a missing row is not reported |
| HostRepository.JoinConditions | services/host-service/internal/repository/repository.go:293-302 | the loop joins with AND |
| HostRepository.ListHosts | services/host-service/internal/repository/repository.go:93-131 | the method emits the clause texts and arguments of its filters |
| HostRepository.ListTextMeans | services/host-service/internal/repository/repository.go:97-118 | the emitted text, evaluated on any row, is the direct filter; tags match when any is shared |
| HostRepository.ListHostsMeans | services/host-service/internal/repository/repository.go:93-154 | the listing answers exactly the pages of the listed hosts, newest first |
| HostRepository.CountHosts | services/host-service/internal/repository/repository.go:265-291 | the method emits the count's clause and arguments |
| HostRepository.CountTextMeans | services/host-service/internal/repository/repository.go:269-284 | the count's text is the direct filter on user and org |
| HostRepository.CountIgnoresStatusAndTags | services/host-service/internal/repository/repository.go:265-291 | every listed host is counted, and the converse holds on all tables exactly when neither status nor tags are filtered on |
| BillingRepository.ListSubscriptions | services/billing-service/internal/repository/repository.go:139-171 | the method grows the clause text itself, with its arguments |
| BillingRepository.FilterTextMeans | services/billing-service/internal/repository/repository.go:143-156 | the clause, evaluated on any row, is the direct filter |
| BillingRepository.ListSubscriptionsMeans | services/billing-service/internal/repository/repository.go:139-194 | the total counts the wanted subscriptions of the first query and the page is a page of those of the second, newest first; when its size fits the total |
| BillingRepository.JoinSetClauses | services/billing-service/internal/repository/repository.go:380-389 | the loop joins with commas |
| BillingRepository.UpdateSubscription | services/billing-service/internal/repository/repository.go:205-238 | for every map of columns and every visiting order: nothing for an empty map, else the map and the stamp on the rows with both id and org, a statement error when it cannot be executed, and not found when there is no such row |
| BillingRepository.UpdateStaysInside | services/billing-service/internal/repository/repository.go:196-238 | a successful update changes at most one row, in exactly the mapped columns and the stamp, and no row of another id or org |
| SqlUpdate.BuildSet | services/billing-service/internal/repository/repository.go:212-222 | the loop over the map, in whatever order, numbers the columns and keeps each next to its argument |
| SqlUpdate.UpdateParses | services/billing-service/internal/repository/repository.go:229-229 | the statement text parses back to its assignments and conditions |
| SqlUpdate.AssignedIsMap | services/billing-service/internal/repository/repository.go:212-222 | whatever the visiting order, the assignments have the effect of the map and the stamp |
| SqlUpdate.SetsOnceExactly | services/billing-service/internal/repository/repository.go:220-222 | a column is set twice exactly when the map holds updated_at |
| SqlUpdate.ExecuteMeans | services/billing-service/internal/repository/repository.go:205-238 | executing the built text with its arguments is the intended update, for every visiting order and every table |

## Left out

- HTTP, JSON binding, header parsing, routing, database connections, logging and configuration: only the state changes and outcomes are modelled; failures of single calls are inputs.
- Database failures on reads: a failing read ends a request without a state change.
- Cryptography: Argon2id is a parameter, a token is its claims, SHA-256 of a token is taken to be injective, TOTP and signature verdicts are inputs, identifiers are fresh.
- Handlers of the auth service under interleaving: each is one atomic step, so a challenge used by two concurrent requests, or two concurrent logins between check and increment, are not covered.
- The auth service without a database, `UpdateUser` beyond the MFA columns, and deletion of users: nothing in the protocol deletes one.
- The clock of the auth service has the microsecond resolution of its stored timestamps.
- HealthProber: the prober is a transition system and not a class, since its statements run in several goroutines.
- HealthProber.EveryStopReturns: bounds the steps of a shutdown, not their time, and says nothing when the prober keeps taking ticks over a closed stop channel.
- The proxy hop, the JWT check and the WebSocket routes of the gateway, and more than one breaker or limiter pair.
- The grammar of image references is the one the code documents; the library that publishes it is not part of this model. Matching is by derivatives, not by Go's automaton.
- PasswordHash.ParsePrinted: records whose numbers exceed 63 bits are not covered; the service prints none.
- Bridge: status observation by ListBridges is the one of GetBridge, applied row by row; classification of teardown errors and their logging are left out.
- BridgeSafety.StatusesAreReal: says what a stored status was once true of, not that it still is; only an answer of GetBridge is current.
- Billing rows that were never at the processor: runs start from an empty table, in which none arises; the handlers' contracts cover them.
- Billing timestamps: "newest" is the order of insertion, and started, ends and canceled times are not modelled; invoices and usage records are plain rows.
- BillingService.Billing.UpdateSubscription: the retrieval of the item before a price change is part of the one call that may be refused.
- The SELECT list before WHERE and the scanning of columns into structures: constant text, one column per field.
- Types, collations and NULL ordering of the database: comparison is on typed values, texts are ordered by their characters' codes, NULLs anywhere, LIKE folds ASCII case, and ties in ORDER BY may come in any order.
- Keys of the update maps are plain column names, as every caller writes them.
- The migrations, and the services that only store and list rows or call other services: ai, analytics, collaboration, helixtrack, health.
