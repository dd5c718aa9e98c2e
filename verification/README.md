# Verified model of the eSPPD services' shared state

The repository is a set of small HTTP services around a PostgreSQL database, a NATS subject and a
Redis server. What is hard about it is the state that these services share, so this Dafny project
models that state and proves what every run keeps.

| files | what they model |
|---|---|
| `SpdTables`, `SpdProtocol`, `SpdSerializability`, `SpdSafety`, `SpdRulings`, `SpdDecisions`, `SpdScenarios` | The travel-order (SPD) workflow: create, submit, event, pending approval, decision. `SpdTables` has the repository methods over the two tables; `SpdProtocol` runs the same transactions statement by statement, under Read Committed with row locks (section 13.2.1 of the PostgreSQL 16 documentation), next to lost, late and duplicated event copies. The number of approval-service instances and whether the row policies bind the connection are parameters. |
| `TokenRotation`, `TokenChains`, `TokenGuarantees`, `TokenHistory`, `MfaLifecycle`, `AuthService` | Refresh tokens and second-factor enrolment. Each handler is a sequence of separate steps that may interleave or crash; `AuthService` has the same handlers as methods. Results for every interleaving and results for requests that do not overlap are kept apart. |
| `RateLimiter` | The Redis fixed-window script, the headers, and bounds over every run of requests on one key. |
| `Totp` | VerifyTOTP against RFC 4226 (sections 5.2 to 5.4) and RFC 6238 (section 4.2). |
| `AuditQuery`, `AuditMeaning` | The audit filter builder and its `itoa`; a reader that splits any such SQL text into words and takes it apart, columns, table, conditions, ordering and page; the answers of what was read; and the scan of the result. |
| `ReportCache` | The read-through report cache under many concurrent handlers. |
| `EtlTables`, `EtlCells`, `EtlFiles`, `EtlRuns`, `EtlIntegrity`, `EtlSequences` | The legacy importer, stopped anywhere and started again; what each stored column says, told by the cells of the CSV row; what it keeps of the schema; and the id sequences that it leaves. |
| `Decimal`, `Sets`, `Wrappers` | Decimal notation, finite sets, the option type. |

Methods on classes follow the code that updates rows or fields in place; each is proved against a
function of the old state, and the lemmas are about those functions. A run is a sequence of steps;
a step that is not enabled changes nothing, so a statement about all sequences covers all schedules.

## Findings

Places where a stronger or documented claim fails; each has a run that shows it and the exact condition
under which the claim holds.

- With two or more approval-service instances an APPROVED order can become REJECTED
  (`SpdScenarios.ApprovedThenRejected`); a verdict is permanent exactly for at most one
  (`SpdScenarios.PermanentIffOneConsumer`). The deployment runs two
  (`k8s/services/approval-service.yaml:7`), and the comment at
  `services/approval-service/internal/repo/repo.go:60` calls the approval single-step.
- Where the row policies bind the connection, a decision by somebody who neither created the order nor is
  SUPER_ADMIN decides the approval row while the order stays SUBMITTED, without an error
  (`SpdScenarios.DecisionHidden`). An order's status is the verdict of the last decision by a caller who
  may update it, and no verdict exactly when there is none (`SpdRulings.StatusIsRuling`).
- Overlapping refreshes of one token can leave two live tokens. The rows of a login form one chain, in any
  interleaving, exactly when no refresh whose revocation matched no row went on to insert
  (`TokenChains.OneChainIff`); `TokenGuarantees.OneLiveIffSerial` has the run that fails.
- An enrolment that overlaps a verification replaces the verified secret (`MfaLifecycle.OvertakenRun`), and
  a disable that overlaps one leaves MFA on without a secret (`MfaLifecycle.DisabledRun`). The account
  stays healthy exactly while every write meets a row that fits it (`MfaLifecycle.HealthyIffWritesFit`).
- A limiter window below one millisecond limits nothing (`RateLimiter.LimitsIffWindowCounts`).
- The TOTP modulus wraps at 32 bits from ten digits on. The code is still the HOTP value for every MAC exactly
  when the digits are at most nine or the wrapped modulus is at least 2^31 (`Totp.ExactIff`): ten digits
  fail for the word 1410065408, twelve do not (`Totp.TenDigitsFail`).
- The importer updates the sequences without an identity. Where row policies bind, an import whose budget or
  SPD file has rows never completes (`EtlSequences.BoundNeverCompletes`), and one that completes may leave
  ids that are taken (`EtlSequences.StaleRun`); it does not exactly when no larger id is hidden from it
  (`EtlSequences.CompletedFreshIff`). An empty `step` becomes 0, although the statement and
  the column both name 1 as the default (`EtlIntegrity.StepNeverDefaults`).

## Model

| member | source | states |
|---|---|---|
| SpdTables.Repository.CreateSPD | services/spd-service/internal/repo/repo.go:32-52 | Succeeds if and only if the caller may insert into the unit (member, SUPER_ADMIN, or policies off), the number is free and has at most 50 characters, and unit and employee exist; it then adds one DRAFT row with this caller, unit and number, and otherwise changes nothing. |
| SpdTables.Repository.SubmitSPD | services/spd-service/internal/repo/repo.go:104-125 | Succeeds if and only if the order is an undeleted DRAFT that the caller created or may update as SUPER_ADMIN (or policies are off); only its status changes, to SUBMITTED, and otherwise nothing does. |
| SpdTables.Repository.CreatePendingApproval | services/approval-service/internal/repo/repo.go:32-39 | Inserts one PENDING row for an existing order; a duplicate per (order, step) is never suppressed, only a key or foreign-key violation fails. |
| SpdTables.Repository.Approve | services/approval-service/internal/repo/repo.go:41-72 | Succeeds if and only if some row of the order is PENDING for anybody or for the caller. All such rows then hold APPROVED, the comment, the caller as decider and the time, with order, step and approver unchanged; all others are equal; the order becomes APPROVED exactly where the caller may update it. Otherwise nothing changes. |
| SpdTables.Repository.Reject | services/approval-service/internal/repo/repo.go:74-104 | The same for REJECTED. |
| SpdProtocol.RowLockOkStep | services/approval-service/internal/repo/repo.go:48-53 | Across every step, the row under a lock still satisfies its holder's WHERE clause, because the clause is checked again after a wait. |
| SpdProtocol.SpdLockOkStep | services/approval-service/internal/repo/repo.go:61-63 | Across every step, whoever holds an order's lock is about to commit a decision or a submit whose WHERE clause still holds. |
| SpdProtocol.LockInvRun | services/approval-service/internal/repo/repo.go:41-104 | In every run, from any database, locks, transactions and the foreign key stay consistent. |
| SpdSerializability.AppendDecision | services/approval-service/internal/repo/repo.go:48-63 | A committing decision can be placed last in the serial order once the inserts that its scan did not see are moved behind it. |
| SpdSerializability.Serializable | services/approval-service/internal/repo/repo.go:41-104 | Every interleaving of decisions, submits, creates and pending inserts ends in a database that some serial order of the committed transactions gives; that order keeps the commit order of everything but inserts. |
| SpdSafety.SafeRun | services/spd-service/internal/repo/repo.go:111-116 | The workflow invariant, over the two tables, the unpublished events and the copies under way, holds in every reachable state. |
| SpdSafety.ReachableStates | services/approval-service/internal/repo/repo.go:33-103 | For any number of consumers, any losses, policies on or off: an APPROVED (REJECTED) order has a row with that verdict, an order with a row has left DRAFT, and a row is PENDING exactly when it has no decider. |
| SpdSafety.AtMostOnePerConsumer | services/approval-service/internal/http/handler.go:107-122 | With k consumers, rows plus undelivered copies of one order never exceed k, nor do its committed decisions. |
| SpdSafety.DecidedForever | services/approval-service/internal/repo/repo.go:49-51 | A decided row is never changed or removed by any continuation of any run. |
| SpdSafety.HistoryShape | services/spd-service/internal/repo/repo.go:38-42 | An order's status history is DRAFT, then SUBMITTED, then verdicts, no more of them than there were decisions. |
| SpdSafety.OneVerdict | services/approval-service/internal/repo/repo.go:61-63 | With one consumer the history is a prefix of DRAFT, SUBMITTED and one verdict, although the deciding update does not look at the old status. |
| SpdDecisions.EveryRowExplained | services/approval-service/internal/repo/repo.go:47-90 | In every reachable state a row is as a consumer inserted it, or records one committed decision: its order, verdict, caller, time and comment, on a row open to that caller. |
| SpdDecisions.EveryDecisionRecorded | services/approval-service/internal/http/handler.go:134-141 | Every committed decision was made in one of the four deciding roles and stands, with verdict, caller, time and comment, in a row of its order. |
| SpdDecisions.EveryOrderOriginal | migrations/0001_init.sql:74-94 | In every reachable state an order has the creator, unit and number of its creation, the number has at most 50 characters, and no two orders share one. |
| SpdScenarios.DecisionAlone | services/approval-service/internal/http/handler.go:38-62 | The statement-level steps of a decision that nothing interrupts, in any row order, have exactly the effect of the repository call. |
| SpdScenarios.SubmitAlone | services/spd-service/internal/http/handler.go:155-168 | An uninterrupted submit has the effect of SubmitSPD and leaves exactly one event to publish, and none when it fails. |
| SpdScenarios.ApprovedThenRejected | k8s/services/approval-service.yaml:7 | With two or more consumers some run takes an order from APPROVED to REJECTED. |
| SpdScenarios.PermanentIffOneConsumer | services/approval-service/internal/http/handler.go:107-122 | Verdicts are permanent in every run if and only if at most one consumer subscribes. |
| SpdScenarios.DecisionHidden | migrations/0002_rls.sql:34-43 | Under the row policies some run decides the row and leaves the order SUBMITTED. |
| SpdRulings.CommitWritesIff | migrations/0002_rls.sql:34-43 | A finished decision writes the order's status if and only if its caller created the order or is SUPER_ADMIN, or the policies are off; otherwise it leaves all orders alone. |
| SpdRulings.StatusIsRuling | migrations/0002_rls.sql:34-43 | In every reachable state, policies on or off, the status is a verdict if and only if the log has a decision on the order by its creator, by SUPER_ADMIN, or by anybody where the policies are off; APPROVED or REJECTED is then the verdict of the last such decision. |
| SpdScenarios.ShowsIffPoliciesBypassed | migrations/0002_rls.sql:34-43 | Every decision shows in the order's status in every run if and only if the policies do not bind the connection, or nobody consumes. |
| AuthService.Service.InsertRefreshToken | services/auth-service/internal/repo/repo.go:65-71 | Adds an unrevoked row, or fails on a known id and changes nothing. |
| AuthService.Service.SetMFASecret | services/auth-service/internal/repo/repo.go:96-103 | Replaces the stored secret of an existing user and nothing else. |
| AuthService.Service.EnableMFA | services/auth-service/internal/repo/repo.go:105-112 | Switches MFA on for an existing user and keeps the secret. |
| AuthService.Service.DisableMFA | services/auth-service/internal/repo/repo.go:114-121 | Switches MFA off and removes the secret. |
| AuthService.Service.NewTokenID | services/auth-service/internal/http/handler.go:381-387 | Returns an id that no row has. |
| AuthService.Service.Login | services/auth-service/internal/http/handler.go:71-157 | Issues a token if and only if the user is active and passes the second factor where it is on; then exactly one row is added. |
| AuthService.Service.Refresh | services/auth-service/internal/http/handler.go:163-231 | Succeeds if and only if the row is live, unexpired and the claimed active user's; it then rotates, otherwise no row changes. |
| AuthService.Service.Logout | services/auth-service/internal/http/handler.go:233-251 | Revokes the caller's own token without a successor; somebody else's is refused and untouched; without a valid one it succeeds and changes nothing. |
| AuthService.Service.MFAEnroll | services/auth-service/internal/http/handler.go:269-299 | Stores a secret if and only if MFA is off. |
| AuthService.Service.MFAVerify | services/auth-service/internal/http/handler.go:305-338 | Switches MFA on if and only if a stored non-empty secret accepts the non-empty code. |
| AuthService.Service.MFADisable | services/auth-service/internal/http/handler.go:340-379 | Switches MFA off only against an accepted code; succeeds without one when it is off already. |
| TokenRotation.RowKept | services/auth-service/internal/repo/repo.go:87-94 | A step leaves a row as it is or revokes an unrevoked one, with its time and successor; user and expiry never change. |
| TokenRotation.InvRun | services/auth-service/internal/http/handler.go:71-251 | In every interleaving with crashes: tokens descend from logins with one user and growing ids, rows belong to generated tokens, and no two handlers carry the same new token. |
| TokenRotation.Conservation | services/auth-service/internal/http/handler.go:163-231 | Live tokens of a login number 1 + refresh inserts - effective revocations, hence at most 1 + the refreshes whose revoke matched no row, in every interleaving with crashes. |
| TokenGuarantees.SuccessorLinks | services/auth-service/internal/http/handler.go:199-223 | `replaced_by` comes only with a revocation, points to a later id, is injective, and a successor row that exists has the same user. |
| TokenGuarantees.RevokedForever | services/auth-service/internal/repo/repo.go:88-92 | A revoked row never changes again, so `replaced_by` is written at most once. |
| TokenGuarantees.AnsweredRefresh | services/auth-service/internal/http/handler.go:172-223 | A refresh that answers read the row before the token's first revocation, and its tokens carry the user of the original login. |
| TokenGuarantees.RefreshAlone | services/auth-service/internal/http/handler.go:180-223 | The four separate steps of an uninterrupted refresh that is not refused have the effect of the whole handler. |
| TokenHistory.RefusedAlone | services/auth-service/internal/http/handler.go:180-197 | An uninterrupted refresh of an unknown, foreign, revoked or expired token, or for a user who is not active, changes no row and answers with no token. |
| TokenHistory.ResponseHistory | services/auth-service/internal/http/handler.go:180-223 | In every interleaving, an answered refresh read the live, unexpired row of the claimed user and, after that and before the new token had a row, found the user active. |
| TokenHistory.TokensNeedActive | services/auth-service/internal/http/handler.go:191-197 | Every token of every run, a login's or a refresh's, was generated at a step at which its user was active. |
| TokenHistory.NewRow | services/auth-service/internal/repo/repo.go:65-71 | A row that any step inserts is live, belongs to its token's user and expires one lifetime later. |
| TokenHistory.LogoutAlone | services/auth-service/internal/repo/repo.go:87-94 | A logout revokes its unrevoked row without a successor and leaves all other rows alone. |
| TokenChains.OneChainIff | services/auth-service/internal/http/handler.go:180-223 | In every interleaving with crashes, the rows of a login are one `replaced_by` chain if and only if no refresh whose revoke matched no row went on to insert; and then at most one is live. |
| TokenChains.NoMissOneChain | services/auth-service/internal/http/handler.go:217-223 | A login none of whose refreshes missed its revoke keeps one chain with at most one live row, whatever overlaps. |
| TokenGuarantees.SerialChain | services/auth-service/internal/http/handler.go:71-251 | Without overlap that holds for every login. |
| TokenGuarantees.NoRevokedTokenRefreshed | services/auth-service/internal/http/handler.go:187-223 | Without overlap no refresh finds its token already revoked. |
| TokenGuarantees.OneLiveIffSerial | services/auth-service/internal/http/handler.go:180-223 | At most one live token per login in every run if and only if requests do not overlap. |
| MfaLifecycle.HealthyForever | services/auth-service/internal/http/handler.go:269-379 | From a healthy account, handlers that do not overlap keep MFA on only with a verified stored secret, and Login issues tokens while it is on only for a code of that secret. |
| MfaLifecycle.SecretKept | services/auth-service/internal/repo/repo.go:96-121 | While MFA stays on, the secret does not change. |
| MfaLifecycle.VerifiedByCode | services/auth-service/internal/http/handler.go:305-338 | In every interleaving a secret becomes verified only at a step that found a non-empty code of it acceptable while it was stored. |
| MfaLifecycle.IssuedByCode | services/auth-service/internal/http/handler.go:112-125 | In every interleaving a login issues tokens only if, when it read the row, MFA was off or its code was acceptable for the stored secret. |
| MfaLifecycle.HealthyIffWritesFit | services/auth-service/internal/http/handler.go:275-377 | In every interleaving the account stays healthy if and only if each write fits its row: MFA still off for an enrolment, a verified secret still stored for the end of a verification. |
| MfaLifecycle.OvertakenRun | services/auth-service/internal/http/handler.go:279-293 | A run in which an enrolment replaces the secret that a verification has just enabled. |
| MfaLifecycle.DisabledRun | services/auth-service/internal/http/handler.go:330-336 | A run in which a verification enables MFA after a disable has removed the secret. |
| MfaLifecycle.HealthyIffSerial | services/auth-service/internal/http/handler.go:275-293 | So every run from a healthy account stays healthy if and only if handlers do not overlap. |
| MfaLifecycle.HandlersAlone | services/auth-service/internal/http/handler.go:305-379 | Read and write steps that nothing separates have the effect of the whole handler. |
| RateLimiter.Limiter.constructor | shared/httpx/httpx.go:134-140 | Non-positive limit and window become 120 and one minute; the window is cut to whole milliseconds. |
| RateLimiter.Limiter.RunScript | shared/httpx/httpx.go:114-130 | The script's reply and new key are those of the specification function that all results below are about. |
| RateLimiter.WindowState | shared/httpx/httpx.go:119-124 | In every run the key has the expiry that its window's first request set and counts exactly the requests since. |
| RateLimiter.WindowsApart | shared/httpx/httpx.go:119-122 | A window opens only after the previous one has run out. |
| RateLimiter.FirstMaxAllowed | shared/httpx/httpx.go:125-129 | Exactly the first Max requests of a window are allowed, and Remaining is how many more that window will allow. |
| RateLimiter.RetryAfterSuffices | shared/httpx/httpx.go:202-208 | A rejected request does not move the deadline, and one more than Retry-After seconds later is in another window. |
| RateLimiter.RetryAfterTight | shared/httpx/httpx.go:195-207 | The limit header is Max, and Retry-After is tight: one millisecond more reaches another window, one second less does not. |
| RateLimiter.AtMostTwiceMax | shared/httpx/httpx.go:114-130 | In every run an interval of length Window has at most 2 * Max allowed requests, and one that is shorter at most 2 * Max - 1. |
| RateLimiter.BoundReached | shared/httpx/httpx.go:114-130 | Some run reaches 2 * Max - 1. |
| RateLimiter.LimitsIffWindowCounts | shared/httpx/httpx.go:180 | The limiter never rejects anything if and only if the window is below one millisecond. |
| Totp.ComputeTotp | shared/mfax/totp.go:82-107 | The word read at the offset, masked, and the modulus loop give the code of the specification, for any 20-byte MAC. |
| Totp.ComputeModulus | shared/mfax/totp.go:101-104 | The loop yields 10^digits reduced to 32 bits. |
| Totp.TruncateWord | shared/mfax/totp.go:96-99 | The four bytes lie inside the MAC, and masking the word is dropping its top bit, as section 5.3 of RFC 4226 says. |
| Totp.BigEndian | shared/mfax/totp.go:89-90 | The n bytes spell the number, most significant first, for every number that fits. |
| Totp.HotpMeans | shared/mfax/totp.go:89-106 | The code is the one of the standard: `digits` decimal characters with the value of the MAC's 31-bit word modulo 10^digits, the MAC being that of the eight bytes that spell the counter. |
| Totp.TruncDivExact | shared/mfax/totp.go:87 | The counter's division truncates towards zero: the remainder is smaller than the period and has the sign of the time. |
| Totp.ExactIff | shared/mfax/totp.go:101-105 | The remainder is the one that section 5.3 of RFC 4226 asks for, whatever the MAC, if and only if digits is at most 9 or the wrapped modulus is at least 2^31. |
| Totp.TenDigitsFail | shared/mfax/totp.go:101-105 | With ten digits a concrete MAC gets remainder 0 instead of 1410065408; twelve digits are exact. |
| Totp.CodeDigits | shared/mfax/totp.go:101-106 | Whatever the digits, the returned code has exactly that many decimal characters and the value of the word modulo the wrapped modulus. |
| Totp.HotpDigits | shared/mfax/totp.go:105-106 | The standard's code has exactly `digits` decimal characters and the value of the 31-bit word modulo 10^digits. |
| Totp.VerifyTOTP | shared/mfax/totp.go:50-80 | Accepts if and only if the cleaned code and secret are non-empty and some step of the window has that code. |
| Totp.CleanDigits | shared/mfax/totp.go:51-52 | Cleaning leaves a string of digits unchanged. |
| Totp.CleanAround | shared/mfax/totp.go:51-52 | White space around a code makes no difference. |
| Totp.CleanInside | shared/mfax/totp.go:51-52 | Nor does a blank inside. |
| Totp.WindowIsCounters | shared/mfax/totp.go:72-87 | For every exact number of digits, some step of the window has the code if and only if it is the standard's code of a counter in [T - w, T + w], a counter being signed as the eight bytes that spell it. |
| Totp.CodeAccepted | shared/mfax/totp.go:72-78 | The standard's code of the time step of s passes cleaning and is accepted at every time up to w periods away from s. |
| Totp.CodeExpired | shared/mfax/totp.go:72-87 | From w + 1 periods away its counter is outside the window. |
| AuditQuery.Itoa | services/audit-service/internal/repo/repo.go:127-141 | Never leaves its 20-byte buffer for any 64-bit integer, and prints the canonical decimal (nothing for a negative number). |
| Decimal.PrintRoundTrip | services/audit-service/internal/repo/repo.go:127-141 | The printed number has no leading zero and reads back as itself. |
| Decimal.CanonicalUnique | services/audit-service/internal/repo/repo.go:127-141 | It is the only canonical notation of that number. |
| Decimal.PrintInjective | services/audit-service/internal/repo/repo.go:127-141 | Different positions print differently. |
| AuditQuery.BuildWhere | services/audit-service/internal/repo/repo.go:75-97 | The clause and the argument list grow together: condition i refers to argument i. |
| AuditQuery.BuildQuery | services/audit-service/internal/repo/repo.go:99-110 | The finished text and arguments, with the page's two placeholders last. |
| AuditMeaning.ReadBack | services/audit-service/internal/repo/repo.go:75-110 | Reading the text recovers the selected columns, the table, the base condition, every filter with its placeholder, the ordering with its direction, and the page's placeholders. |
| AuditMeaning.FiltersWanted | services/audit-service/internal/repo/repo.go:78-97 | All generated filters together are the conjunction of the filters that are present. |
| AuditMeaning.ScanBack | services/audit-service/internal/repo/repo.go:105-117 | The selected columns are those that Scan expects, in its order: scanning a sent row gives the row. |
| AuditMeaning.ScanRows | services/audit-service/internal/repo/repo.go:115-124 | The loop returns every row of the result in order, or fails if one cannot be scanned. |
| AuditMeaning.QueryMeans | services/audit-service/internal/repo/repo.go:68-125 | For every combination of filters and values, the text as it reads, with its arguments, makes the service return exactly what was asked for: the rows of the log that satisfy the present filters, newest first, then offset and limit. |
| AuditMeaning.SelectCounts | services/audit-service/internal/repo/repo.go:75-97 | The selected rows are the kept ones, each as often as in the table. |
| AuditMeaning.PageRows | services/audit-service/internal/repo/repo.go:99-110 | A page is the rows from position offset on, in order, at most limit of them and fewer only at the end. |
| AuditMeaning.PlaceholdersInOrder | services/audit-service/internal/repo/repo.go:76-110 | The placeholders are $1 to $n, in order, each once, one per argument. |
| ReportCache.KeysDiffer | services/reporting-service/internal/http/handler.go:41-72 | Different (user, role, months, format) never share a key, whatever characters the role has. |
| ReportCache.PrefixesApart | shared/cachex/cache.go:24-29 | Two services with different colon-free prefixes never share a key. |
| ReportCache.Cache.Get | shared/cachex/cache.go:31-43 | Finds the unexpired entry under the prefixed key; an error counts as a miss. |
| ReportCache.Cache.Del | shared/cachex/cache.go:52-61 | Removes exactly the prefixed keys. |
| ReportCache.Cache.GetJSON | shared/cachex/cache.go:63-74 | An entry that does not decode is deleted and counts as a miss; everything else is left alone. |
| ReportCache.Cache.Report | services/reporting-service/internal/http/handler.go:34-101 | A hit is answered from the store. A miss is answered with the report of this user, role and months, in the asked format, and stored for 15 s under the prefixed key if the store can be reached. |
| ReportCache.HitIsOwn | services/reporting-service/internal/http/handler.go:42-47 | A hit on a request's key is an answer stored for that same request. |
| ReportCache.HitWithin | services/reporting-service/internal/http/handler.go:41-65 | A stored report answers the same request again for 15 s, and not a millisecond longer. |
| ReportCache.ReportAlone | services/reporting-service/internal/http/handler.go:34-101 | The separate steps of an uninterrupted handler have the effect of the whole request. |
| ReportCache.EveryResponseGenuine | services/reporting-service/internal/http/handler.go:34-101 | In every run of concurrent handlers each response is the database's report for its own user, role, months and format: CSV from the monthly counts, JSON from both counts, read while the request ran, or stored at most 15 s before from versions no newer than the store. |
| ReportCache.EveryResponseQueried | services/reporting-service/internal/http/handler.go:49-85 | In every run the body of each response comes from queries that one request for the same report made after it began, by status first (JSON only) and then by month, each of the version of the data at that step; for a hit, that request stored it at most 15 s before. |
| EtlIntegrity.NumberRoundTrip | tools/etl/main.go:135-153 | A printed number is read back; outside 64 bits it is refused, or becomes the bound that it exceeds where the error is ignored. |
| EtlIntegrity.StepNeverDefaults | tools/etl/main.go:526-557 | A step is stored as 0 exactly when its text is malformed, empty or zero; the default 1 never applies. |
| EtlIntegrity.ConvertedConforms | tools/etl/main.go:135-180 | Only rows that satisfy every column's type, length, status list and required value are converted. |
| EtlIntegrity.InsertKeeps | migrations/0001_init.sql:6-146 | An insert keeps primary keys, column constraints, foreign keys and unique columns of all tables. |
| EtlIntegrity.AttemptsKeep | tools/etl/main.go:202-644 | Whatever the files contain and wherever attempts stop, the nine tables stay intact. |
| EtlFiles.FileExact | tools/etl/main.go:202-644 | A file's transaction commits if and only if every row converts and the first rows of the new keys find their references and share no unique value; then old rows stay, those first rows are stored, and no other table changes. What the rows say is ImportExact. |
| EtlCells.ReadIntIff | tools/etl/main.go:135-153 | A cell is a number exactly when it is decimal digits with an optional sign, and then that one. |
| EtlCells.WordLists | tools/etl/main.go:155-168 | A flag is true or false exactly for the five words of its list, whatever the case of their letters. |
| EtlCells.CellIff | tools/etl/main.go:133-180 | What a cell stores in each kind of column: text as it is or the default, a 64-bit number or NULL, a parsed time or NULL or NOW, a ciphertext of the cell under the column's associated data or NULL, a flag by its word list, a step by its number. |
| EtlCells.TableIff | tools/etl/main.go:202-644 | The nine INSERT statements: the columns of each table with kind, default, limit and required value. |
| EtlCells.ConvertedIff | tools/etl/main.go:202-644 | A row is converted if and only if its cells say a record, and to such a record: every column follows from its own cell. |
| EtlCells.KeyIff | migrations/0001_init.sql:7-136 | The primary key is the number in the `id` cell, or those in `user_id` and `unit_id`. |
| EtlCells.RefsIff | migrations/0001_init.sql:19-142 | The sixteen foreign keys, told by the cells: a number names an existing row, an empty optional cell nothing. |
| EtlCells.TwinIff | migrations/0001_init.sql:8-76 | Rows collide exactly when they have the same code, nip, username or nomor_surat cell, each in its own table. |
| EtlCells.ImportExact | tools/etl/main.go:202-644 | A file is committed if and only if every row says a record and the first row of each new key refers to existing rows and takes no unique value. Old rows then stay, every new key comes from a row, each column of the first row with it is stored as its own cell says, and no other table changes. |
| EtlFiles.KeysAfter | tools/etl/main.go:225-232 | The keys after a file are the old ones and those of its rows. |
| EtlFiles.CoveredChangesNothing | tools/etl/main.go:225-232 | A file whose keys are all present is imported without error and without change. |
| EtlRuns.Importer.InsertRows | tools/etl/main.go:207-235 | The loop over the rows ends at the first error and otherwise yields the tables after all of them. |
| EtlRuns.Importer.MigrateFile | tools/etl/main.go:202-236 | Commits if and only if the file can be read and imported; then the first row of each new key is stored as its cells say and everything else stays; otherwise nothing changes. A dry run only reads. Afterwards the session has had an identity if the file is one of the two that set it. |
| EtlRuns.Importer.BumpSequences | tools/etl/main.go:646-657 | Sequences are set in order until one update fails; those before it stay set. |
| EtlRuns.Importer.Import | tools/etl/main.go:58-70 | The tool is the run of the nine files and eight sequence updates that stops at the first error. |
| EtlRuns.DoneStays | tools/etl/main.go:58-70 | What a step has achieved, no later step undoes. |
| EtlRuns.Resume | tools/etl/main.go:58-70 | From the state that some steps left, a new import repeats them without effect and goes on as the first would have. |
| EtlRuns.Converges | tools/etl/main.go:58-70 | After any number of attempts, each stopped anywhere, a last import ends exactly as a single one would, completed or failed. |
| EtlRuns.AllOrNothing | shared/db/db.go:42-53 | Wherever an import stops, each table is as it was or holds its whole file, the first row of each new key as its cells say; the latter once its step has committed. |
| EtlRuns.Max | tools/etl/main.go:650 | MAX(id): a member that no other exceeds. |
| EtlSequences.FreshIffSeen | tools/etl/main.go:649-651 | The next id follows the largest id the session saw, or is 2; it exceeds every id present if and only if no larger one was hidden. |
| EtlSequences.BumpIff | tools/etl/main.go:649-651 | A sequence is set to the largest id that the SELECT policies show to a session without an identity (all ids where they do not bind), or to 1 if they show none, and the update fails for a largest id below 1. |
| EtlSequences.ClearedFails | migrations/0002_rls.sql:10-60 | With settings left empty the update fails exactly over a non-empty table. |
| EtlSequences.CompletedFreshIff | tools/etl/main.go:646-657 | After every completed import the next ids of all tables but user_units are free if and only if no larger ids were hidden from its session. |
| EtlSequences.CompletedFresh | tools/etl/main.go:646-657 | Through a connection that the policies do not bind, a completed import leaves next ids above all ids present. |
| EtlSequences.BoundNeverCompletes | tools/etl/main.go:377-453 | Where the policies bind, an import whose budget or SPD file has rows never completes, because its session's settings are left empty. |
| EtlSequences.StaleRun | migrations/0002_rls.sql:10-60 | A run over a database with intact tables (a unit, a user, SPD 7) that completes and leaves a taken next id. |
| EtlSequences.FreshIffNotBound | migrations/0002_rls.sql:10-60 | Completion means fresh ids for every intact database and all files if and only if the policies do not bind the connection. |

## Left out

- HTTP routing, JSON bodies, middleware, logging, metrics and the `cmd/server` wiring: no state of their own.
- Signatures, password hashes, LDAP, AES-GCM, HMAC-SHA-1 and base-32 are abstract functions or checks assumed to have been made; a decryption error ends the handler and changes nothing.
- TokenRotation: token ids are numbered in the order of generation, which stands for random ids that never repeat; access tokens and roles are not modelled.
- MfaLifecycle: one account, never deleted; the columns `mfa_enrolled_at` and `deleted_at` are left out.
- AuthService: methods run one handler at a time; interleaving is the business of TokenRotation and MfaLifecycle, and RefreshAlone and HandlersAlone connect the two. The statements InsertRefreshToken and RevokeRefreshToken are the functions InsertRow and RevokeRow of TokenRotation.
- SpdProtocol: a NATS copy reaches each consumer at most once, as the subject is not persistent; deadlock detection and every other rollback is the step Abort; reads and lists are left out.
- SpdTables: employee, budget and amount columns that no statement here tests are left out; whether a new order's unit and employee exist is an argument of CreateSPD, since these services never write those tables.
- SpdSafety: all orders are created by the application; imported rows, hand-published events and direct SQL edits can start outside the invariant.
- RateLimiter: only requests that the script answered; the fail-open path, the process-local limiter, the choice of the key and 64-bit overflow of INCR are left out. Whether a key still exists in its last millisecond is a parameter. The rounding of Retry-After is done on integers.
- Totp.VerifyTOTP: requires a period of a second or more and a wrapped modulus other than zero (fewer than 32 digits), since the original would divide by zero; fractions of a second in the period are cut, as the code does, and WindowIsCounters is about whole seconds.
- Totp: `time.Add` saturation and times before 1970 in the window theorems (the method covers negative times); bit masks are remainders; GenerateSecretBase32 and OTPAuthURL are left out.
- AuditMeaning: rows are read under the caller's identity but the audit table has no row policy; text is ordered by character code, which no built statement uses; a negative limit or offset, which the caller's clamping excludes, has no answers; the reader knows the statement shape of this query and no other SQL.
- ReportCache: a response or an entry is its text; the two queries, JSON encoding and CSV rendering are functions of the data's version and the request, and decoding and re-encoding a JSON hit is taken to give the text back; a CSV entry is never damaged, because the original does not check one; a nil client is a store that is never reached.
- EtlTables: CSV syntax is read already, headers and cells trimmed; the five time layouts are a parameter; NUL bytes, invalid UTF-8 and row policies on the inserts (which run as SUPER_ADMIN) are left out. Which error a row raises is not modelled, only that the file fails.
- EtlRuns: no other writer during the import; NOW() defaults and nonces are symbols, so the same row imported twice compares equal. The pool hands the same connection to every step; one that it replaces after its maximum lifetime would count as a session without settings. Where a policy cannot be evaluated because an earlier transaction left its setting empty, an update over a non-empty `budgets` or `spds` fails; over an empty one it is taken to succeed.
- Documents, notifications, PDF and spreadsheet generation, budget masking, parameter clamping and the JWT claim checks: foreign calls or single-branch facts.
- Kubernetes, compose, Kong, Grafana and OpenAPI files, except the replica count.
