# The sign-up and sign-in protocol of internal/auth, modelled and proved

This project models the one-time-code challenge, lockout and session protocol of the authentication service, with its
storage, and proves what holds of it over every run: how often a phone can be sent codes, what a lock guarantees, what
stands behind an account, what a confirm or a clear leaves in the tables when any step fails, and what survives when
sessions are validated and revoked at the same time.

`dafny verify dfyconfig.toml` checks the whole project.

## How it is laid out

| file | what it holds |
|---|---|
| `domain.dfy`, `phone.dfy` | entities, timed rules, phone normalisation |
| `storage.dfy`, `like.dfy` | the four tables, the queries, the transaction, SQL `LIKE` |
| `protocol.dfy` | each use case as a decision: one reply and one history entry, and what an entry does to the tables |
| `service.dfy` | the use cases step by step on mutable state, each proved to carry out its decision |
| `history.dfy`, `runs.dfy` | what happened, the rules an entry must obey by the history alone, and runs of calls |
| `counting.dfy`, `invariants.dfy`, `phones.dfy`, `records.dfy`, `reachable.dfy` | the invariants every run keeps |
| `answers.dfy`, `sends.dfy`, `handouts.dfy` | what every call answers, sends and hands out, told by the history alone |
| `deliveries.dfy`, `guesses.dfy`, `guesslimit.dfy`, `lockouts.dfy`, `latest.dfy`, `confirms.dfy`, `clears.dfy`, `recovery.dfy` | the main results over runs |
| `tightness.dfy`, `manyguesses.dfy`, `witnesses.dfy`, `delays.dfy`, `overlaps.dfy` | reachable states and interleavings that show where a promise fails, or that a bound is met |
| `sessions.dfy`, `races.dfy`, `lags.dfy` | throttled expiry against an eager one; interleavings of split calls |
| `listing.dfy`, `paging.dfy` | the account list, its batched lockout lookup, and when its pages fit together |

The tables are a `Store` object with a transaction that restores a snapshot; a challenge and a session that a use case
loads and changes are objects too. Each use case of `AuthService` has one postcondition: reply, tables and provider
outbox are those of its decision. The lemmas then speak about decisions, entries and runs.

The decisions are not the specification: `Justified` in `history.dfy` is. For every kind of entry but a sign-out, which
anyone may try with any token, it states what that entry needs of the past, with no table in sight: codes, guesses and
confirms, locks and clears, link tokens, sessions and their extensions. `HistoryObeysRules` shows that every run of the
code obeys it. `Answered` in `answers.dfy` is the other half: for every faultless call it states the answer and the entry,
again read off the past, with durations and limits written out; `AnsweredByHistory` shows that every run of the code gives
them, and `FaultsOnlyFail` what a failing step can turn them into.

## What the model takes from outside

- An instant is a whole number of seconds and the clock never runs backwards. The clock, fresh codes and tokens, the
  provider's answer, the identity Google proved, and the set `fails` of steps that fail are parameters of a call, so
  every theorem holds for all of them. A step is a repository call, the begin or commit of a transaction, or the
  drawing of randomness.
- A row's id is its position in its table. No statement of the modelled queries deletes a row.
- Two challenges of a phone can carry the same `sent_at`. The latest-challenge query may then answer with either; a
  call's `pick` is that choice, and the theorems hold for every choice.
- Hashes are injective, and the Google link token is an ideal MAC: a run only presents tokens that verify under the
  service's key if the service minted them.
- A `Lost` entry is a code that was delivered although the challenge could not then be stored; a `Slipped` entry is a
  wrong guess the store failed to record. Both are part of every run and appear in the bounds.
- A run is a sequence of states and calls from the empty tables. Its calls are the seven use cases in any order.

## Where the code and its documentation differ

- **The send cap (requirement FR-029).** Five sends to a number in 30 minutes is what
  Request enforces, not what the service enforces: Resend looks at the sends of its own challenge alone
  (internal/auth/service.go:423-438). The true bound without clears and lost sends is 25 (`AnyWindowBounded`), and
  every subscriber number can reach it (`BoundIsReached`). On such runs the cap holds if and only if every resend found
  fewer than five real deliveries in the half hour before it (`CapExactly`); a resend that made the same window query
  as Request would be enough (`CapHoldsIfResendsChecked`). In the other direction the cap may lock a phone to which only
  one code went in the last half hour (`CapLocksEarly`), but never one with fewer than five in the last 70 minutes
  (`CapLocksAreEarned`), and 70 minutes cannot be lowered.
- **"The only row that can hold a current lock" (internal/auth/service.go:655-657).** Five wrong guesses on the older of
  two codes lock it and leave the latest challenge unlocked; every clear of the account then reports that there is
  nothing to lift and lifts nothing (`OlderLockIsHidden`). The comment holds throughout a run if and only if no call
  locks an older challenge, by its fifth wrong guess or by its own cap, or resends one while another is locked
  (`LatestHoldsLockIff`), which each call's own checks could see (`OnlyLatestStep`). In a given state it is exactly what
  a clear needs to leave the phone without a lock (`ClearLiftsEveryLock`).
- **A phone's lockout (requirement FR-008).** The code locks one challenge. A lock on the latest challenge stops codes
  and guesses for the phone until it lifts if and only if every other challenge is consumed, expired or locked
  (`LockSilencesPhone`); it stops codes alone if and only if the others are that or have used up their own five sends
  (`LockMutesPhone`); both fail after two requests and five wrong guesses on the later one (`LatestLockLeaks`). Over all
  its challenges a phone takes at most 49 recorded wrong guesses in any 30 minutes without a clear (`PhoneTakesFortyNine`), and
  can take as many (`GuessLimitIsReached`). No run locks a phone for good: past 30 minutes from its last change an eligible
  request is served (`NoPhoneIsWedged`).
- **"Immediately retry" after a clear (requirement FR-022).** The cleared challenge no longer counts, but sends of the
  phone's other challenges still do. While the phone's challenges stay as the clear left them, whatever other calls
  come in between, a signin request past the cooldown gets its code if and only if those sends stay below the cap and
  the latest challenge found is not locked (`ClearUnsticksIff`). A run of five requests and two resends makes it fail
  (`ClearDoesNotUnstick`); it always holds when Resend was only called on a phone's newest challenge (`ClearUnsticks`).
- A clear keeps `failed_attempts`, so the first wrong guess after a clear of a guess lockout locks again
  (`FirstGuessAfterClearLocks`, reached in `OneGuessAfterClear`).
- **Single use of a code.** Request's cap path can lock a challenge that was already `verified`
  (internal/auth/service.go:173-178), and a clear sets it back to `pending` (internal/auth/service.go:684-686), so one
  code can sign in twice (`CodeConsumedTwice`). In runs of whole calls a challenge is consumed exactly once more for each
  clear that met it consumed and was followed by a confirm, and at most once if and only if there is no such confirm
  (`ConsumedOnceIff`); the right code is accepted if and only if it is unexpired and neither a lock nor a success stands
  uncleared (`RightCodeAccepted`). When two confirms of a signin challenge overlap, one code signs in twice with no
  clear at all (`OverlappingSignins`); for signups the account table prevents it (`OneSignupPerPhone`).
- **Idle expiry (FR-025, docs/adr/0007-session-strategy.md:29-37).** The stored activity may lag by up to a day, so a
  session idle between 59 and 60 days may be rejected early (`NearMissDiffers`), and never later than promised
  (`NeverLaxer`). The two agree if and only if no use falls between the two expiries (`RefinesEagerIff`). Overlapping
  validations keep these limits as long as none takes a day (`IdleLimitsUnderInterleaving`); one that does may set the
  activity back (`DelayedWriteRewinds`).
- **The list's lockout flag (internal/auth/postgres/repository.go:199-202).** It is not always what the single lookup
  reports: two challenges resent at one instant may be told apart differently (`FlagAndClearDisagree`). The flag and a
  clear's report agree if and only if the challenges tied for latest agree (`FlagAgreesIff`), and no tie ever arises if
  and only if no resend falls on the instant another challenge of the phone was sent (`DistinctThroughoutIff`).
- **Pages of the account list (internal/auth/postgres/queries/account_list.sql:8).** Accounts created at one instant may
  come in another order on the next call. Consecutive pages never repeat or miss an account if and only if no two
  matching accounts were created at one instant (`PagesJoinIff`), which two signups can break (`PagesMayRepeat`).
- A wrong guess is compared before it is recorded, so guesses the store fails to record are not bounded
  (`UnrecordedGuesses`); all others are (`GuessesBounded`).

## Model

| member | source | states |
|---|---|---|
| Domain.Verification.RegisterSend | internal/auth/domain.go:261-265 | One more send is counted, the send instant is now and the expiry restarts at ten minutes; every other column stays |
| Domain.Verification.RegisterFailure | internal/auth/domain.go:270-277 | One more failure is counted; the fifth and any later one locks for 30 minutes, and the result says whether it did |
| Domain.Verification.Lock | internal/auth/domain.go:281-285 | The challenge is locked until 30 minutes from now, with status locked, and keeps its counters |
| Domain.Verification.MarkVerified | internal/auth/domain.go:288 | Only the status changes, to verified |
| Domain.SessionRecord.Extend | internal/auth/domain.go:171-175 | Activity moves to now and the expiry to 60 days later; identity and revocation stay |
| Phone.IsAllDigits | internal/auth/domain.go:311-318 | True exactly for a non-empty string of ASCII digits |
| Phone.NormalizePhone | internal/auth/domain.go:293-309 | The stepwise rewriting computes the canonical form, or none |
| Phone.AcceptedExactly | internal/auth/domain.go:293-309 | A number is accepted, as +20 and ten digits, if and only if the input is white space around those digits written after +20, after 0, or alone and not starting with 0, with spaces and dashes put in anywhere; every other input is refused |
| Phone.WithoutIsRest | internal/auth/domain.go:295-296 | A replacement leaves no occurrence of the character and keeps everything else in its order |
| Phone.TrimSpaceIs | internal/auth/domain.go:294 | Trimming takes white space alone off both ends, and all of it |
| Phone.WhiteSpaceIs | internal/auth/domain.go:294 | White space is what Unicode calls so, by ranges |
| Phone.CanonicalIdempotent | internal/auth/domain.go:293-309 | Normalising a normalised number changes nothing |
| Phone.CanonicalFixed | internal/auth/domain.go:299-308 | Every subscriber number after +20 is its own canonical form |
| Like.FilterIsSubstringSearch | internal/auth/postgres/queries/account_list.sql:5-9 | For every filter and phone, LIKE with the escaped filter between percent signs matches exactly the phones that contain the filter |
| Like.LiteralPrefix | internal/auth/postgres/repository.go:26-30 | An escaped filter at the head of any pattern consumes exactly itself, whatever wildcards it is made of |
| Like.EscapedNeverMalformed | internal/auth/postgres/repository.go:26-30 | No filter yields a pattern that ends inside an escape sequence |
| Like.EscapeInjective | internal/auth/postgres/repository.go:26-30 | Different filters have different escaped forms |
| Like.EscapeIsThreeReplacements | internal/auth/postgres/repository.go:26-30 | The single pass equals replacing backslash, then percent, then underscore |
| Storage.Store.Begin | internal/platform/db/uow.go:23-27 | A transaction starts from a snapshot of the tables, unless starting fails |
| Storage.Store.Rollback | internal/platform/db/uow.go:34-39 | The tables are those of the snapshot again |
| Storage.Store.Commit | internal/platform/db/uow.go:40-44 | The writes stay together, or a failed commit leaves none of them |
| Storage.Store.CreateAccount | internal/auth/postgres/repository.go:120-131 | The account is appended unless its phone or Google subject is taken, which answers that it exists and changes nothing |
| Storage.Store.ScanLatest | internal/auth/postgres/queries/verification_find_latest_by_phone.sql:3-9 | The answer is a most recently sent challenge of the phone, either one on a tie, or none exactly when the phone has none |
| Storage.Store.FindLatestByPhone | internal/auth/postgres/repository.go:188-197 | A copy of a most recently sent challenge, or not found exactly when there is none |
| Storage.Store.CountSends | internal/auth/postgres/repository.go:231-237 | The sum of counted sends over the phone's rows sent at or after the start, inclusive |
| Storage.Store.UpdateChallenge | internal/auth/postgres/queries/verification_update.sql:3-11 | Seven columns of one row take the values of the object; phone, intent and pending signup stay, and so does every other row |
| Storage.Store.CreateSession | internal/auth/postgres/repository.go:275-282 | The session is appended unless its token hash is taken |
| Storage.Store.ExtendSession | internal/auth/postgres/queries/session_update.sql:3-6 | Two columns of one session change; its revocation does not |
| Storage.Store.RevokeSessions | internal/auth/postgres/queries/session_revoke_by_token_hash.sql:3-5 | Exactly the sessions with this hash that are not revoked yet get the instant |
| Storage.RevokeByTokenHash | internal/auth/postgres/queries/session_revoke_by_token_hash.sql:3-5 | Session by session: a matching unrevoked one is revoked, any other is as before |
| Storage.Store.CreateAuditEvent | internal/auth/postgres/repository.go:319-334 | One event is appended, or nothing when the step fails |
| Storage.FindByPhone | internal/auth/postgres/queries/account_find_by_phone.sql:2-4 | A found account has the phone; none found means no account has it |
| Storage.FindByGoogleSubject | internal/auth/postgres/queries/account_find_by_google_subject.sql:2-4 | A found account has the subject; none found means no account has it |
| Storage.FindByTokenHash | internal/auth/postgres/repository.go:284-296 | A found session has the hash; none found means no session has it |
| Service.AuthService.RequestVerification | internal/auth/service.go:106-216 | Reply, tables and outbox are those of the decision, for every tie-break, provider answer and set of failing steps |
| Service.AuthService.StartChallenge | internal/auth/service.go:145-216 | The half of Request after the account checks: lock, cooldown and cap of the latest challenge, then a fresh code |
| Service.AuthService.IssueCode | internal/auth/service.go:183-215 | The code is sent before the challenge is stored: a failed send stores nothing, and a failed store leaves the code delivered |
| Service.AuthService.PersistLock | internal/auth/service.go:173-179 | The row is locked and keeps its sends and failures, or nothing changes when the write fails |
| Service.AuthService.ConfirmVerification | internal/auth/service.go:223-335 | Reply, tables and outbox are those of the decision under every set of failing steps, so the transaction is all or nothing |
| Service.AuthService.ConfirmWrites | internal/auth/service.go:280-319 | Account, session and consumed challenge, with each failing step reported in the order of the code |
| Service.AuthService.ResendVerification | internal/auth/service.go:412-460 | Reply, tables and outbox are those of the decision, a send that fails counting nothing |
| Service.AuthService.ClearLockout | internal/auth/service.go:663-698 | Reply and tables are those of the decision; nothing is sent |
| Service.AuthService.ClearWrites | internal/auth/service.go:684-696 | The lifted lock and its audit event appear together if no step fails, and neither does otherwise |
| Service.AuthService.GoogleExchange | internal/auth/service.go:361-406 | Reply and tables are those of the decision: a session for a known subject, a link token for an unknown one |
| Service.AuthService.ValidateSession | internal/auth/service.go:514-543 | Reply and tables are those of the decision: a valid session answers its account and is extended at most once a day |
| Service.AuthService.RevokeSession | internal/auth/service.go:560-565 | Every unrevoked session of the token is revoked, and an unknown token is no error |
| Runs.FreshCodeGuarded | internal/auth/service.go:145-215 | A fresh code is only sent when some most recently sent challenge is unlocked and past its cooldown and the window sum is below five |
| Runs.DecisionGuarded | internal/auth/service.go:106-565 | Whatever the call, faults and tie-break, the entry made meets the conditions its kind needs of the tables; a lock by a cap needs the phone's window sum at five on a latest challenge, or five sends on a live one |
| Invariants.LockedIsDead | internal/auth/domain.go:64-72 | A locked challenge is unusable at every instant, also after its lock has lifted, because the lock outlasts the code by 20 minutes |
| Invariants.RowStep | internal/auth/domain.go:223-288 | Every change of a row keeps: expiry ten minutes after the send, at most five sends, locked exactly with a lock instant, lock ending 20 minutes after the code or later |
| Invariants.RowTallyStep | internal/auth/domain.go:261-288 | Every change keeps a row's counters, code, lock and expiry equal to what its history of sends, guesses, clears and confirms makes them |
| Invariants.TallyStep | internal/auth/service.go:183-254 | The same for every challenge and every entry, rows not concerned and not yet opened ones included |
| Phones.OpeningKeepsOwnTally | internal/auth/service.go:165-183 | A request that passes the cap leaves at most five rows active in the window, one more for each clear |
| Phones.RowChangeKeepsTally | internal/auth/service.go:423-458 | Resends, guesses, locks, confirms and clears keep that bound: a live row was already active in the window it is resent in |
| Phones.LedgerStep | internal/auth/postgres/queries/verification_count_sends_since.sql:3-5 | Every entry keeps the approximate window sum, plus sends forgiven by clears and lost by the store, at or above the real deliveries, for every start of the window |
| Phones.TraceStep | internal/auth/postgres/queries/verification_count_sends_since.sql:3-5 | Every entry keeps the dual: the sends that rows cannot have received before an instant are at most the deliveries recorded since it |
| Phones.CountedWithinReach | internal/auth/domain.go:64-72 | The window sum counts only sends at most 40 minutes older than its window: a row has at most five, ten minutes apart at most |
| Phones.PresentWindow | internal/auth/domain.go:244-265 | A window of 30 minutes up to now holds at most 25 deliveries, ten more for each clear and one for each lost one |
| Records.AccountsGrow | internal/auth/service.go:286-309 | Only a signup confirm adds an account: one, with the confirmed phone, which no account had |
| Records.SessionsStep | internal/auth/service.go:262-268 | Every entry keeps sessions sound: known account, expiry 60 days after activity, no two with one token hash |
| Records.SessionTallyStep | internal/auth/service.go:531-541 | Every entry keeps each session equal to what its issue, extensions and first sign-out make it |
| Records.TokenStep | migrations/20260720120000_create_auth_tables.sql:32 | Every entry keeps the session tokens exactly the issued ones |
| Records.AuditStep | internal/auth/service.go:687-696 | Every entry keeps the audit log equal to the trail of clears, each event naming the account whose phone owns the challenge |
| Records.SettledByLatest | internal/auth/postgres/queries/verification_find_latest_by_phone.sql:6-9 | The greatest send instant among a phone's rows bounds every recorded delivery to it |
| ReachableStates.EntryJustified | internal/auth/service.go:119-543 | In every state that keeps the invariants, the conditions the tables pass imply the rules read off the history |
| ReachableStates.EntryKeeps | internal/auth/service.go:106-565 | Every entry keeps all invariants together |
| ReachableStates.RunKeeps | internal/auth/service.go:106-565 | Every state of every run keeps all invariants |
| ReachableStates.HistoryObeysRules | internal/auth/service.go:106-565 | In every run every entry obeyed, when made, rules that mention only what happened before it: sends, guesses, confirms, cap locks (five codes recorded in the last 70 minutes, the cooldown over, no lock in force), clears (a lock in force on the challenge with the last code, by the account of its phone), link tokens, issued sessions and extensions |
| ReachableStates.TotalsGrow | internal/auth/service.go:106-565 | Along a run counts never shrink, time never goes back and the audit log only gains a suffix |
| Answers.AnsweredByHistory | internal/auth/service.go:106-565 | In every run every faultless call of the seven use cases gives the answer, and records the entry, that the history alone determines, refusals and their order included |
| Answers.RequestAnswered | internal/auth/service.go:106-216 | A request is refused by intent, phone, account, link token, lock in force and cooldown, in that order; at five counted sends it locks the latest challenge for 30 minutes; else it sends and opens the next challenge with the caller's role, language and identity, good for ten minutes |
| Answers.ResendAnswered | internal/auth/service.go:412-460 | A resend is refused for an unknown, locked, consumed or expired challenge and in its first minute; at five counted sends it locks for 30 minutes; else it sends the new code |
| Answers.ConfirmAnswered | internal/auth/service.go:223-335 | A confirm is refused for an unknown, locked, consumed or expired challenge; a wrong code is counted and answered by how many remain, or locks; a right one is answered by RightCodeAnswer |
| Answers.RightCodeAnswered | internal/auth/service.go:275-334 | A right code signs in the account its phone founded, or founds the next one unless phone or Google subject signed up before; the answer carries the session token |
| Answers.ClearAnswered | internal/auth/service.go:663-698 | A clear answers not found for an unknown account, success exactly when the latest challenge is locked, and nothing to lift otherwise |
| Answers.GoogleAnswered | internal/auth/service.go:361-406 | An exchange is refused without a proven identity, signs in the account linked to it, or hands out a link token for exactly this identity, good for ten minutes |
| Answers.ValidateAnswered | internal/auth/service.go:514-543 | A validation is refused for a token never issued, signed out, or 60 days idle; else it answers the account and extends the session when a day has passed since its last extension |
| Answers.SumIsWindowSum | internal/auth/postgres/queries/verification_count_sends_since.sql:3-5 | The query's sum is the unforgiven recorded sends of the phone's challenges whose last code is in the window |
| Answers.FaultsOnlyFail | internal/auth/service.go:106-565 | A call with failing steps is decided as without them, or answers a storage failure with nothing done, a code gone out unrecorded, or a wrong guess unrecorded |
| Answers.SuccessNeedsSteps | internal/platform/db/uow.go:23-44 | An answer that claims a write comes only from a call in which every step of that write worked |
| SendTheorems.CodesFitAccounts | internal/auth/service.go:119-130 | In every run a signin code went only to a phone that had signed up and a signup code only to one that had not, lost ones included |
| SendTheorems.WrongAccountSendsNothing | internal/auth/service.go:119-130 | A signup for a registered phone and a signin for an unregistered one send nothing, change nothing and say so, whatever else fails |
| SendTheorems.RequestDeliversIff | internal/auth/service.go:145-215 | A request in order delivers its code if and only if the latest challenge is not locked or cooling down, the window sum is below five and the provider takes the code |
| SendTheorems.OutOfOrderSendsNothing | internal/auth/service.go:106-143 | A request whose intent, phone, account or link token is not in order sends nothing and changes nothing |
| SendTheorems.CappedRequestLocks | internal/auth/service.go:169-179 | A request in order that meets the cap locks the challenge with the phone's last code until 30 minutes from now, sends nothing and answers that instant |
| SendTheorems.ResendDeliversIff | internal/auth/service.go:423-458 | A resend delivers its code to the challenge's phone if and only if the challenge is usable, cooled down and below five counted sends and the provider takes the code |
| SendTheorems.CappedResendLocks | internal/auth/service.go:432-437 | A resend that is due and meets the cap locks the challenge until 30 minutes from now, sends nothing and answers that instant |
| Handouts.SignInIsStored | internal/auth/service.go:275-334 | Whenever a call answers a sign-in, the session stored carries exactly the token and the account answered |
| Handouts.TokenSignsIn | internal/auth/service.go:514-543 | A token handed out answers its account at every faultless validation before 60 days have passed, over any calls in between, unless it was signed out |
| Handouts.LinkIsMinted | internal/auth/google.go:173-187 | The link token answered is the one minted, for the identity proven and ten minutes |
| Handouts.LinkServes | internal/auth/service.go:134-143 | A link token handed out serves a signup for ten minutes, over any calls in between: the request is answered as without it and the challenge carries exactly the identity proven; at ten minutes it is refused |
| DeliveryTheorems.AnyWindowBounded | internal/auth/service.go:165-181 | Request and Resend together put at most 25 codes on a phone in any 30 minutes, ten more for each clear and one for each lost send |
| DeliveryTheorems.CapExactly | internal/auth/service.go:423-458 | Without clears and lost sends, no 30 minutes hold more than five codes if and only if every resend found fewer than five deliveries in the 30 minutes before it |
| DeliveryTheorems.CapHoldsIfResendsChecked | internal/auth/service.go:165-181 | If every resend found the window sum below five, as Request does, no 30 minutes hold more than five codes plus forgiven and lost ones |
| DeliveryTheorems.RequestRespectsCap | internal/auth/service.go:165-181 | Request sends only when fewer than five real deliveries, plus forgiven and lost ones, lie in the last 30 minutes: the approximate sum never under-counts |
| DeliveryTheorems.CapLocksAreEarned | internal/auth/service.go:165-181 | Whenever the cap locks a challenge, at either endpoint, five codes were recorded for the phone in the last 70 minutes |
| DeliveryTheorems.DeliveriesSpaced | internal/auth/domain.go:234-237 | Request sends at least 60 seconds after every recorded delivery to the phone by either endpoint, Resend at least 60 seconds after the challenge's own last one |
| DeliveryTheorems.LatestRowIsLastDelivery | internal/auth/postgres/queries/verification_find_latest_by_phone.sql:6-9 | The greatest send instant of a phone's rows is exactly that of the last recorded delivery, and that row holds its code |
| DeliveryTheorems.CapNeedsARow | internal/auth/service.go:173-181 | A phone without a challenge has a window sum of zero, so the cap branch without a row to lock is never taken |
| Tightness.BoundIsReached | internal/auth/service.go:412-460 | For every subscriber number some run without clears or lost sends delivers 25 codes in 30 minutes |
| Tightness.FiveRequests | internal/auth/service.go:145-215 | Five requests a minute apart are all served, the fifth at a window sum of four |
| Tightness.ResendRounds | internal/auth/service.go:423-458 | After them each of the five challenges is resent four times, a minute apart, although the phone's window sum passed the cap |
| Witnesses.OlderLockIsHidden | internal/auth/service.go:654-678 | For every subscriber number, a reachable state with an older challenge locked, the latest one not, and every clear reporting that there is nothing to lift |
| Witnesses.LatestLockLeaks | internal/auth/service.go:145-158 | A reachable state with the latest challenge locked in which an older one still takes a guess and a resend before the lock lifts |
| Witnesses.OneGuessAfterClear | internal/auth/service.go:684-686 | A reachable state after a clear of a guess lockout in which any one wrong guess locks again |
| Witnesses.ClearDoesNotUnstick | internal/auth/service.go:659-661 | A reachable state right after a clear, past the cooldown, in which every signin request of the owner is refused |
| Witnesses.CodeConsumedTwice | internal/auth/service.go:169-178 | A reachable state in which one code of one challenge has issued two sessions, with a clear in between |
| Witnesses.FlagAndClearDisagree | internal/auth/postgres/queries/verification_locked_phones.sql:6-9 | A reachable tie on which the list's flag and a clear's report can differ either way |
| Witnesses.CapLocksEarly | internal/auth/service.go:165-178 | A reachable cap lock of a phone to which one code went in the last 30 minutes; one second less than 70 minutes back there are only four |
| Witnesses.PagesMayRepeat | internal/auth/postgres/queries/account_list.sql:8 | A reachable account table whose consecutive pages may repeat one account and miss another |
| ManyGuesses.GuessLimitIsReached | internal/auth/service.go:234-254 | For every subscriber number a reachable state with 49 recorded wrong guesses in 30 minutes and no clear |
| Witnesses.UnrecordedGuesses | internal/auth/service.go:245-249 | For every number there is a reachable state in which that many wrong guesses were compared on one live challenge, none recorded |
| LockoutTheorems.LockOutlivesCode | internal/auth/service.go:234-254 | Once a challenge is locked, on every continuation that does not clear it, no code is resent for it, no guess compared, no confirm succeeds and it stays locked, also after the lock instant has passed |
| LockoutTheorems.GuessesBounded | internal/auth/service.go:245-254 | Wrong guesses compared against a challenge never exceed five plus its clears plus those the store failed to record, whatever the resends; recorded ones never exceed five plus its clears; status is locked exactly while a lock instant is set, exactly while the history bars the challenge |
| LockoutTheorems.LockSilencesPhone | internal/auth/service.go:145-158 | A lock on the strictly latest challenge silences the phone until it lifts, on every run without a clear, if and only if every other challenge is consumed, expired or locked |
| LockoutTheorems.LockMutesPhone | internal/auth/service.go:423-438 | A lock on the strictly latest challenge keeps codes from the phone until it lifts, on every run without a clear, if and only if every other challenge is consumed, expired, locked or has used up its own five sends |
| LockoutTheorems.MutedStep | internal/auth/service.go:145-181 | On such a phone no call without a clear sends a code, and it stays such a phone, although older challenges may still be guessed, confirmed or locked |
| LatestTheorems.OnlyLatestStep | internal/auth/service.go:654-657 | If only the strictly latest challenge of a phone is locked, this stays so after a call if and only if the call does not lock an older one, or resend one beside a locked one |
| LatestTheorems.LatestHoldsLockIff | internal/auth/service.go:654-657 | Throughout a run a current lock sits on the strictly latest challenge only, if and only if no call of the run locks an older one or resends one beside a locked one |
| LatestTheorems.ClearLiftsEveryLock | internal/auth/service.go:668-686 | Every faultless clear of an account leaves its phone without a lock if and only if only the strictly latest challenge is locked |
| LatestTheorems.ClearReportsTheLock | internal/auth/service.go:668-678 | Where only the strictly latest challenge can be locked, a clear reports success exactly when some challenge of the phone is locked |
| LatestTheorems.DistinctThroughoutIff | internal/auth/postgres/queries/verification_find_latest_by_phone.sql:6-9 | No two challenges of a phone are last sent at one instant throughout a run, if and only if no call resends one at the instant another was sent |
| LatestTheorems.FlagAgreesIff | internal/auth/postgres/repository.go:199-229 | The list's lockout flag is what every clear of the account reports, whatever rows the two lookups settle on, if and only if the challenges tied for latest are all locked or all not |
| LatestTheorems.FlagAgreesWithoutTies | internal/auth/service.go:620-640 | Where no two challenges of the phone were sent at one instant, flag and clear always agree |
| GuessTheorems.PhoneGuessesBounded | internal/auth/service.go:234-254 | At most 50 wrong guesses are compared for a phone in any 30 minutes over all its challenges, eleven more for each clear and one for each guess the store failed to record |
| GuessTheorems.GuessInvStep | internal/auth/service.go:165-254 | Every entry keeps: guesses in any window are on rows sent at most ten minutes before it, at most five rows (one more for each clear) were last sent in any one window, and guesses beyond five on a row are paid for by clears |
| GuessLimit.PhoneTakesFortyNine | internal/auth/service.go:145-181 | Without clears at most 49 recorded wrong guesses fall on a phone in any 30 minutes over all its challenges, and one more for each the store failed to record |
| GuessLimit.LateOkStep | internal/auth/service.go:150-158 | Every entry keeps: at most five rows sent before the first late opening can be guessed in the window, and the latest of them then was still sent codes or had at most four guesses |
| RecoveryTheorems.NoPhoneIsWedged | internal/auth/service.go:145-181 | An eligible request gets its code once more than 30 minutes have passed since the last change of a challenge of the phone, whatever happened before |
| LockoutTheorems.SealedStep | internal/auth/service.go:423-431 | On such a phone no call sends a code, compares a guess, confirms or extends the lock, and the phone stays so |
| LockoutTheorems.LiveRowLeaks | internal/auth/service.go:234-254 | Any usable older challenge lets a guess through although the latest one is locked |
| ConfirmTheorems.AccountProvenance | internal/auth/service.go:286-309 | Every account was created by a confirm that submitted the last recorded code of a signup challenge, put on that very phone at most ten minutes before, while the challenge was not locked; role, language and identity are the request's |
| ConfirmTheorems.LinkedAccountProven | internal/auth/google.go:156-204 | A Google-linked account carries the identity the verifier returned when its token was minted and appears within 60 minutes of the minting, 50 more for each clear |
| ConfirmTheorems.LinkWasMinted | internal/auth/service.go:134-143 | A challenge carries a Google identity exactly when it was requested with a token the service minted for it and that had not expired |
| ConfirmTheorems.ConfirmBeforeDeadline | internal/auth/domain.go:64-72 | A confirm succeeds at most 50 minutes after the request that opened its challenge, 50 more for each clear |
| ConfirmTheorems.ConsumedAtMostOnce | internal/auth/service.go:234-243 | A challenge is consumed at most once plus once for each clear that met it consumed, never more than once plus its clears; a phone signs up at most once, exactly when it has an account; no two accounts share phone or subject |
| ConfirmTheorems.ConsumedOnceIff | internal/auth/service.go:684-686 | The successes of a challenge are exactly the clears that met it consumed, plus one if it is consumed now; at most one if and only if no confirm of it came after such a clear |
| ConfirmTheorems.RightCodeAccepted | internal/auth/service.go:234-254 | Where account and token allow it, the right code signs in if and only if the last code is unexpired and neither a lock nor a success of the challenge stands uncleared |
| ConfirmTheorems.ConfirmAllOrNothing | internal/auth/service.go:275-328 | Under any faults a confirm changes nothing, or records one wrong guess on its row, or leaves session, consumed challenge and (signup) account all together |
| ClearTheorems.AuditIsTheClears | internal/auth/service.go:687-696 | In every run the audit log is exactly the list of effective clears in order, each naming the account whose phone owns the cleared challenge |
| ClearTheorems.AuditAppendOnly | internal/auth/service.go:570-583 | Along every run the audit log only grows at its end |
| ClearTheorems.ClearAllOrNothing | internal/auth/service.go:663-698 | A clear that does not report success leaves every table unchanged; one that does lifts the lock, forgets the sends, keeps the failures and adds one event; without faults it succeeds if and only if the latest challenge is locked |
| ClearTheorems.OthersNeverFillCap | internal/auth/service.go:165-181 | If Resend was only called on a phone's newest challenge, that one is strictly latest and the others hold at most four sends in any window from now on |
| ClearTheorems.ClearUnsticksIff | internal/auth/service.go:654-698 | In every later state in which the phone's challenges are still as the clear left them, a signin request past the cooldown gets its code if and only if the latest challenge found is not locked and the other challenges' sends in the window are below five; where the cleared challenge alone is latest, only the sends matter |
| ClearTheorems.ClearUnsticks | internal/auth/service.go:654-662 | If Resend was only called on a phone's newest challenge, a signin request past the cooldown always gets its code in every later state in which the phone's challenges are still as the clear left them |
| ClearTheorems.ClearStandsOnRun | internal/auth/service.go:684-696 | From a clear until the phone's challenges change again, over any other calls, the cleared challenge stays a latest one, unlocked and without counted sends, and the phone keeps its account |
| ClearTheorems.WrongGuessAnswer | internal/auth/domain.go:270-277 | A wrong guess on a live challenge locks it if and only if at least four were recorded on it over its whole life, clears or not; otherwise the answer is how many remain |
| ClearTheorems.FirstGuessAfterClearLocks | internal/auth/service.go:684-686 | A live challenge with five recorded wrong guesses was cleared, and its next wrong guess locks it for 30 minutes |
| Sessions.ValidateTouches | internal/auth/service.go:514-543 | A faultless validation answers by the session's validity and changes that session alone, by at most one extension |
| Sessions.LagBounded | internal/auth/domain.go:177-182 | After any uses in order the stored activity lags the last accepted use by less than 24 hours |
| Sessions.IdleLimits | docs/adr/0007-session-strategy.md:29-37 | After any uses an unrevoked session idle for at most 59 days is accepted and one idle for at least 60 is rejected |
| Sessions.WritesBounded | internal/auth/domain.go:177-182 | The number of extension writes times 24 hours is at most the time from first activity to last use |
| Sessions.NeverLaxer | docs/adr/0007-session-strategy.md:29-37 | The throttled session accepts no use that one extended on every use would reject |
| Sessions.RefinesEagerIff | docs/adr/0007-session-strategy.md:29-37 | The two decide all uses alike if and only if no use falls between the throttled expiry and 60 days after the last accepted use |
| Sessions.NearMissDiffers | internal/auth/service.go:514-543 | Two concrete uses on which the throttled session rejects what the eager one accepts |
| Lags.LagUnderInterleaving | internal/auth/service.go:531-541 | Under every interleaving, if no extension takes as long as a given time of a day or more from its read to its write, the stored activity lags every completed use by less than that time |
| Lags.ActivityStep | internal/auth/postgres/queries/session_update.sql:3-6 | No act moves a session activity except to the use it completes, also when a delayed extension overwrites a later one |
| Lags.IdleLimitsUnderInterleaving | docs/adr/0007-session-strategy.md:29-37 | Under every interleaving in which no validation takes a day, an unrevoked session idle for at most 59 days is valid and one idle for at least 60 is not |
| Delays.DelayedWriteRewinds | internal/auth/service.go:531-541 | An interleaving in which an extension written a day after its read sets the activity back, so that a session idle for 59 days is rejected |
| Races.SessionsKeptThroughout | internal/auth/postgres/queries/session_update.sql:3-6 | Under every interleaving no session disappears, changes owner or token, or loses or moves its revocation |
| Races.RevocationPermanent | internal/auth/service.go:560-565 | Under every interleaving a revoked session keeps its first revocation instant and no validation that reads after the revoke lets its token through, whatever extensions were in flight |
| Races.RevokedTokenStep | internal/auth/service.go:514-543 | No act of any request lets a revoked token through or unrevokes it |
| Races.RevokeTouchesOne | internal/auth/postgres/queries/session_revoke_by_token_hash.sql:3-5 | A sign-out changes the sessions of the presented token that were not revoked, and no other |
| Races.OneSignupPerPhone | internal/auth/postgres/repository.go:120-131 | However confirms that read the same or several challenges overlap each other and every other call, clears included, at most one signup per phone issues a session, exactly when an account exists, and accounts stay unique |
| Overlaps.OverlappingSignins | internal/auth/service.go:224-320 | An interleaving without clears in which two confirms that read one live signin challenge both issue a session |
| Races.SignupsOkThroughout | migrations/20260720120000_create_auth_tables.sql:5-6 | Every act keeps one issued signup for each account and no shared phone or Google subject |
| Listing.List | internal/auth/postgres/repository.go:73-92 | The page cuts a listing of exactly the accounts whose phone contains the filter, each once, newest first |
| Listing.InsertKeepsOrder | internal/auth/postgres/queries/account_list.sql:8 | Adding an account to a newest-first listing keeps it newest first |
| Listing.DistinctLatest | internal/auth/postgres/queries/verification_locked_phones.sql:6-9 | One row for each listed phone with a challenge, none twice, holding the lock of a most recently sent challenge |
| Listing.LockedPhones | internal/auth/postgres/repository.go:203-229 | A phone is in the answer exactly when it was listed and has a challenge, with the lock state of a most recently sent one |
| Listing.BatchedIsSingle | internal/auth/postgres/repository.go:203-229 | Where a phone has one most recently sent challenge, the batched answer is that of the single lookup |
| Listing.ListAccounts | internal/auth/service.go:607-642 | Every item of the page describes its account, in order, with the lockout flag of that phone's own lookup; a failing step fails the call |
| Paging.PagesJoinIff | internal/auth/postgres/queries/account_list.sql:5-9 | Any two consecutive pages, read by two calls, are one page together, if and only if no two matching accounts were created at one instant |

## Left out

- CapHoldsIfResendsChecked: one direction, because the window sum may over-count; the exact condition, on real deliveries, is `CapExactly`.
- CapExactly: for runs without clears and lost sends of the phone; with them Request's own allowance grows (`RequestRespectsCap`).
- BatchedIsSingle: for a phone with one most recently sent challenge; `FlagAgreesIff` says exactly when a tie leaves the answer open.
- GuessesBounded: guesses the store failed to record are added to the bound; without a bound on failures there is none (`UnrecordedGuesses`).
- PhoneGuessesBounded: with clears an upper bound only; without them `PhoneTakesFortyNine` is exact.
- OverlappingSignins: a witness only; how many sessions overlapping signin confirms of one challenge can issue is not bounded, because the code bounds it by nothing but the number of confirms that read it live.
- LagUnderInterleaving: one direction; a slow write only sets the activity back if another came in between.
- Interleavings of reads and updates of one challenge by Request, Resend, Clear and wrong guesses: each is one step. The code gives them no isolation, so the counters are claims about serial calls. Only validations and correct confirms are split in `races.dfy`.
- A commit that takes effect although its acknowledgement is lost, and the panic path of the transaction.
- HTTP handlers, request and response schemas, error codes, middleware, configuration, logging, tracing and command line.
- The WhatsApp client: a send delivers or fails with no effect.
- Google's key fetching and token checking: its answer is a parameter. The link token's signature is ideal.
- bcrypt, SHA-256, base64 and random generation: hashes are injective, codes and tokens are parameters.
- Sub-second instants, microsecond truncation by the database, integer widths and time zones.
- UUIDs: ids are positions. The device label and the audit metadata beyond the challenge id are omitted.
- Admin analytics: documented approximations over simple sums.
- Text that is not valid UTF-8, and database collations.
- Migrations as a process; the unique constraints they declare are part of the store.
