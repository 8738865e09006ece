# ky_server_base: a verified model of its credential protocol

This project models, in Dafny 4.11, the parts of ky_server_base whose correctness depends on how
many actors interleave, and proves what holds in every run.

- **Credential grants.** Users, sessions, MFA challenges and device pairings, the store's writes on
  them (`Store`, `StoreLaws`, `SqlStore`), its transactions statement by statement (`Transactions`,
  `CommittedRuns`), and the handlers for login, MFA, password replacement, pairing, authentication
  and profile updates as step programs of which any number interleave (`Handlers`). When each step can
  be taken, and what each protocol comes to when nothing interferes, is in `Steps` and `Flows`. The
  claims about interleavings are in `StoreRuns`, `Credentials`, `Grants`, `ProfileUpdates`,
  `RestrictedSessions`, `OneTimeUse`, `Redemptions`, `Origins` and `RecoveryCodes`; runs in which a
  promise fails are written out in `LatePairing`, `StaleProfile`, `StaleReplacement` and
  `RedeemedTwice`.
- **Rate limiter** (`RateLimiter`, `LimiterSkew`, `LimiterEvictions`, `LimiterMemory`): the exact number of attempts a key
  gets in one window length, with clock readings in lock order and out of it, and the bounded map of
  windows against an unbounded one.
- **Detached work and shutdown** (`DetachedWork`, `Shutdown`): the condition-variable counter, and
  the waits that come before the store is closed.
- **Client address** (`NetAddresses`, `ClientAddress`): the trusted-proxy list with its IPv4-mapped
  prefixes (section 2.5.5.2 of RFC 4291), and the right-to-left walk of X-Forwarded-For.
- **Migrations** (`Migrations`): concurrent runners that may die at any step.

`dafny verify dfyconfig.toml` checks everything.

## How runs are modelled

A run is a sequence of states and the steps between them, of any length. Every store call is one
step; `ConsumeMFAChallenge` is two, its select and its delete, and `AuthenticateRequest` is three
reads. `Transactions` splits the four transactional calls further, into statements, and
`CommittedRuns.CommittedStatesAreAStoreRun` is what allows the other modules to treat them as single
steps: the committed states of any interleaving of statements are a run of the store. Such a step is
not quite the whole call: a replacement or reset may leave pairings of its user, those inserted after
its delete had looked, so every replacement step of the model may leave any set of them (`late`).
Handlers keep the state indices of what they read, and granted tokens keep a history record (`Grant`),
so that a claim can say "since the credential check" or "at one instant between the reads". These
records are history only: no step decides on them.

A handler whose check fails, or whose write does not report success, ends; the steps of the model are
the ones on which it goes on. Password verification, one-time code validation and recovery-code
matching are abstract: a step that needs one of them to succeed is one that may or may not be taken.

Assumptions:

- The clock does not go back. Tokens, pairing secrets and user ids are never drawn twice, and a
  password replacement writes a hash that was never stored before (salted hashes do not repeat; the
  hash a user is created with may be anything, including the empty hash of an SSO user).
- Reads see committed rows. An update of a user row holds that row until commit, and one that has
  waited evaluates its WHERE clause again.
- A run starts with no sessions and no challenges.
- Every caller of `UpdateUser` in the program reads a row and writes it back with name, mail, display
  name, role and status changed (internal/scim/handler.go:129-182, internal/sso/kysignon.go:76-128), so
  in runs of the handlers a profile update is such a read and such a write. The claims of `StoreRuns`
  are about any profile updates.
- `MatchCode`, the address and prefix parsers, and address printing are given as functions with the
  laws stated in `RecoveryCodes.Lawful` and `ClientAddress.Lawful`.

## Where a promise holds only on a condition

- **Grants follow the password.** `UpdateUser` writes every profile column, password hash and
  change-password flag included, from a copy read earlier, and a SCIM patch reads and writes in two
  steps. `StaleProfile.PatchUndoesReset` is a run in which a patch undoes an operator reset: the old
  password is back in force, a session is left under a hash the user does not hold, and a restricted
  session authorises any route. `Grants.GrantsCurrentIffUpdatesBenign` says when every grant is under
  the credentials its user holds now, `Grants.GrantUnbroken` when one grant's user kept one hash since
  the credential check, and `ProfileUpdates.CredentialsKeptIffNoneSpans` which interleavings that
  leaves: those in which no profile update has a replacement of its user between its read and its
  write.
- **A replacement rests on a check that still holds.** `StaleReplacement.ChangeSurvivesReset` is a run
  in which a change of password commits although a reset came after its authentication;
  `Grants.ReplacementIsFromLiveEpoch` has the exact condition, on the updates of that user between the
  authentication and the commit.
- **Restricted sessions stay restricted.** `PatchUndoesReset` frees one;
  `RestrictedSessions.RestrictedIffNeverFreed` is the exact condition: no profile update leaves its
  user active with the flag clear while the user has an unexpired restricted session. No update that
  spans no replacement of its user does (`UnspannedNeverFrees`).
- **Recovery codes are spent for good.** The same column-wide update writes the code list.
  `RedeemedTwice.CodeRedeemedTwice` is a run in which one code is redeemed twice and opens two
  sessions. `OneTimeUse.SpentForGood` says when one spent slot stays spent, and
  `RecoveryCodes.SpentSlotsStayIff` when all do: no profile update has a redemption of its user between
  its read and its write.
- **Replacement revokes pairings atomically** (README.md:45-51 of the repository). Pairings are
  inserted without the user lock. `LatePairing.PairingOutlivesReset` is a run in which a pairing
  inserted between the delete and the commit survives: the calls replayed in the order they took
  effect do not leave it. `WholeDatabaseSerializesIff` gives the exact condition for that order. What a
  missed pairing leaves is what inserting it after the replacement leaves
  (`Store.MissedAsIfInsertedAfter`), but no serial run goes through the tables committed on the way.
  Users, sessions, challenges and audit records serialize in every run.
- **A key gets at most 2 * limit - 1 attempts in one window length.** `allowAttempt` reads the clock
  before it takes the lock, so readings may be out of lock order. The most a key gets when they are out
  of order by at most d is n * limit - (n - 1) with n = 1 + (2 * window + d) / (window + 1)
  (`LimiterSkew.MostIsExact`): it is 2 * limit - 1 up to one tick, and more from two ticks on
  (`LimiterSkew.OrderBoundIffOneTick`). That is for windows opened only when the one before was over.
  One that is opened earlier, after its key was dropped to make room, adds more: in lock order limit
  for each random eviction, and no less will do (`LimiterEvictions.EvictionBoundIsMet`); out of it as
  `LimiterSkew.AllowedPerSkewedInterval` says.
- **Purging is invisible.** With readings out of lock order a purge may drop a window that is not over
  for a call that read the clock before (`LimiterMemory.PurgeShows`, one tick);
  `LimiterMemory.ForgettingShowsIff` is the exact condition.
- **Nothing tracked runs when the store closes.** A request that registers after `WaitDetached` has
  returned is not waited for (`Shutdown.LateHandlerIsNotWaitedFor`).
  `Shutdown.StoreClosesAfterTheWork` says exactly which handlers run at the close.

## Model

| member | source | states |
|---|---|---|
| Store.ReplacementRevokesEverything | internal/store/sqlstore.go:388-439 | a forced replacement or an operator reset leaves its user without sessions, challenges and pairings, leaves every other row as it was, and changes exactly the columns it names of one row |
| Store.MissedAsIfInsertedAfter | internal/store/sqlstore.go:431-439 | a replacement that misses pairings inserted late leaves the tables it would leave had they been inserted after it |
| Store.SessionsGoOnlyBy | internal/store/sqlstore.go:464-480 | a session is gone after a write exactly when the write is one of those that end it, and is unchanged otherwise: nobody is signed out by what happens to someone else |
| StoreLaws.SucceedsIffAccepted | internal/store/sqlstore.go:202-279 | each write succeeds exactly when the rows that are there meet its WHERE clauses and UNIQUE constraints, and otherwise reports its error and changes nothing |
| StoreLaws.UserRowAfter | internal/store/sqlstore.go:202-279 | the whole row of a user after any write: its own writes change the columns they name, no other write changes any |
| StoreLaws.ChallengeRowAfter | internal/store/sqlstore.go:482-520 | a challenge is gone exactly when it was deleted or its user was, or had the password replaced; every other is as it was |
| StoreLaws.PairingRowAfter | internal/store/sqlstore.go:530-607 | a pairing is gone exactly when its user had the password replaced, unless it came late, or a cleaning found it expired; verification marks it consumed with the device, and leaves its other columns |
| StoreLaws.SessionRowAfter | internal/store/sqlstore.go:381-386 | a new session row is that of the insert, and no other write brings one |
| StoreLaws.AuditAfter | internal/store/sqlstore.go:431-439 | of the writes of the model a password replacement alone adds an audit record, and which |
| SqlStore.Database.RevokePasswordGrants | internal/store/sqlstore.go:431-439 | the loop over the three tables removes all and only the user's rows and appends one audit record, unless one of the four statements fails |
| SqlStore.Database.CreateSession | internal/store/sqlstore.go:358-386 | the statements amount to the guarded atomic insert, with its error cases; if any of them fails nothing has changed |
| SqlStore.Database.CreateMfaChallenge | internal/store/sqlstore.go:482-487 | the same for a challenge, which records the verified hash |
| SqlStore.Database.CompletePasswordChange | internal/store/sqlstore.go:388-404 | the seven statements amount to the atomic replacement; nothing changes when the hash, status, flag or provider does not match, nor when any statement fails half way |
| SqlStore.Database.ResetAdminPassword | internal/store/sqlstore.go:407-429 | the same for the reset of a local account, disabled ones included |
| SqlStore.Database.DeleteUser | internal/store/sqlstore.go:268-279 | sessions and challenges of the user go with its row |
| Transactions.StepKeepsLocked | internal/store/sqlstore.go:356-379 | whoever moves, a transaction under way still holds the lock on its user row, the row still passes the tests of its statements so far, and its deletes still cover every session and challenge of the user |
| Transactions.CommitIsAtomic | internal/store/sqlstore.go:358-439 | at its commit a transaction has the effect of the whole call at that instant: always on users, sessions, challenges and audit, on pairings if and only if none was inserted since the delete looked |
| Transactions.GrantTablesSerialize | internal/store/sqlstore.go:358-439 | for any interleaving with any rollbacks, the committed users, sessions, challenges and audit records, and what every call reported that does not work on pairings, are those of the calls run one at a time in the order they took effect |
| Transactions.WholeDatabaseSerializesIff | internal/store/sqlstore.go:530-548 | with pairings included, every state is that of the calls run in the order they took effect if and only if no replacement commits over a pairing its delete did not see |
| Transactions.AllCanEnd | internal/store/sqlstore.go:358-439 | no deadlock: from every state of every run the open transactions can all be brought to their end by their own statements and commits |
| Transactions.OnlyItsUserIsWaitedFor | internal/store/sqlstore.go:356-379 | nobody waits for a transaction of another user, nor can one be kept from rolling back |
| Transactions.SerialRunsAreRuns | internal/store/sqlstore.go:358-439 | any calls one at a time are one of the runs: with nothing else under way each has the effect and the report of the whole call |
| CommittedRuns.CommittedStatesAreAStoreRun | internal/store/sqlstore.go:358-439 | the committed states of any interleaving of statements and rollbacks are those of a run of the store in which every call is one step and reports what it reported |
| LatePairing.PairingOutlivesReset | internal/store/sqlstore.go:530-548 | a run in which a pairing inserted before the commit of a reset outlives it; the reset run first gives the same tables, but neither order of the two calls goes through the committed ones |
| StoreRuns.SessionUnbroken | internal/store/sqlstore.go:381-386 | a session present at two instants was present, as the same row, at every instant between |
| StoreRuns.EpochUnbroken | internal/store/sqlstore.go:202-429 | a hash held at two instants was held throughout, flag included, if and only if no profile update of that user in between carried other credentials: nothing else undoes a replacement |
| StoreRuns.CredentialsChangeOnlyBy | internal/store/sqlstore.go:202-429 | only replacement, reset and a profile update carrying other values change hash or flag; the first two leave no grants |
| StoreRuns.AcceptedCountersIncrease | internal/store/sqlstore.go:252-266 | the counters accepted for a user strictly increase in commit order in every run (section 5.2 of RFC 6238) |
| StoreRuns.CounterAcceptedIff | internal/store/sqlstore.go:252-266 | a counter presented for a user is accepted if and only if it is above the one stored at any earlier instant and every one accepted since |
| StoreRuns.AlwaysUnique | internal/store/migrations/migrations.go:26-61 | in every run, whatever creations, profile updates and pairings race, no two users have one name and no two pairings one code |
| StoreRuns.DeactivatedUserHasNoSessions | internal/sso/kysignon.go:119-128 | from the session deletion after a deactivation until some write reactivates the user, it has no session rows |
| Credentials.RecheckCoversUserRead | internal/auth/session.go:123-127 | a session found before the user read and again after it was there, unexpired, at the user read |
| Credentials.AlwaysSound | internal/api/auth_handlers.go:72-260 | in every run, what each handler holds was so when it read it, and every grant was inserted under the hash of its credential check |
| Flows.PasswordLogin | internal/api/auth_handlers.go:42-129 | with nothing interfering a password login of an account without second factor gives a session exactly if the user is active |
| Flows.LoginWithSecondFactor | internal/api/auth_handlers.go:88-106 | of an account with one, a challenge under the verified hash and no session |
| Flows.SsoLogin | internal/store/sqlstore.go:381-386 | an SSO login gives a session exactly if the user is active |
| Flows.ConsumeChallenge | internal/store/sqlstore.go:489-520 | ConsumeMFAChallenge, its select and its delete, goes through exactly if the challenge is there and unexpired, and then it is gone |
| Flows.LoginWithCode | internal/api/auth_handlers.go:131-203 | an MFA login with a one-time code: exactly if the challenge is there and unexpired, its user active, with a second factor, under the challenge's hash, and the counter above the recorded one; and which rows it leaves |
| Flows.LoginWithRecoveryCode | internal/api/auth_handlers.go:205-272 | the same with a recovery code: its digest stands at a slot of the list, which is blanked |
| Flows.VerifyDevice | internal/devices/devices.go:87-129 | a device verification: exactly if the query names the pairing, by code or secret, which is pending and unexpired, and its user is active and not flagged; the pairing is consumed and keeps the device, the user gets a session |
| Flows.UpdateProfile | internal/scim/handler.go:129-176 | a profile update: exactly if the user is there and nobody else has the name; five columns change and no other; the revocation after it ends all sessions of the user and no other |
| Flows.ForcedChange | internal/api/password_handlers.go:16-71 | a forced change of password: exactly if the session is there unexpired and its user active, flagged and local; it leaves the new hash, no flag, and not the session |
| Steps.OthersMayStep | internal/store/sqlstore.go:268-607 | every other write with new draws may happen at any point of a run, whether the store accepts it or not, the clock may go on, and a handler may end |
| Grants.GrantsCurrentIffUpdatesBenign | internal/store/sqlstore.go:202-234 | every session and challenge is always under the hash and flag its user holds now if and only if every profile update carries the stored ones or finds no grant |
| Grants.GrantUnbroken | internal/store/sqlstore.go:356-439 | from the credential check through challenge, second factor and insert until the last state a grant exists, the user held one hash and one flag, if and only if no profile update of that user in that stretch carried others |
| ProfileUpdates.CredentialsKeptIffNoneSpans | internal/scim/handler.go:129-176 | all profile updates of a run carry the credentials they find if and only if none has a replacement of its user between its read and its write |
| ProfileUpdates.NoGrantOutlivesItsPassword | internal/store/sqlstore.go:356-357 | as long as no such update has been made, no session or challenge has outlived the password it was made under |
| Grants.AuthenticationLinearizable | internal/auth/session.go:108-133 | whenever AuthenticateRequest succeeds there is one instant between its reads at which the session row existed unexpired and the active user row was the returned one |
| RestrictedSessions.AuthorisesMeansAuthenticates | internal/auth/session.go:108-133 | which sessions authenticate for which routes, read off the state: session unexpired, user active, route open if the flag is set |
| RestrictedSessions.RestrictedIffNeverFreed | internal/auth/session.go:123-133 | sessions granted while the flag was set open only the three open routes, at every point of a run, if and only if no profile update leaves its user active with the flag clear while the user has one unexpired |
| RestrictedSessions.UnspannedNeverFrees | internal/scim/handler.go:129-176 | no profile update does that as long as none has had a replacement of its user between its read and its write |
| RestrictedSessions.RestrictedSessionStaysRestricted | internal/auth/session.go:108-133 | the same for authentications in progress, whatever commits between their reads, with the three routes named |
| Grants.ReplacementIsFromLiveEpoch | internal/api/password_handlers.go:21-71 | a replacement commits only if the user holds the verified hash, flagged, as it did at the authentication it acts on; it did so throughout if and only if no profile update of that user in between carried other credentials |
| Grants.FlagFollowsHash | internal/store/sqlstore.go:202-429 | in every run, a user never holds one hash with the flag set at one time and clear at another |
| Grants.PairedSessionGuarded | internal/api/device_handlers.go:53-66 | in every run, a session from a pairing was inserted while the user was active, not flagged, and held the hash seen before the pairing was consumed |
| Grants.InactiveUserGetsNothing | internal/auth/session.go:114-127 | looked back on from any later state, nothing was granted to a user in a period in which it was not active, and no authentication, however late its recheck, has succeeded on a user read in that period |
| StaleProfile.PatchUndoesReset | internal/scim/handler.go:153-182 | a run in which a patch written back from an old copy restores a reset password and frees a restricted session |
| StaleReplacement.ChangeSurvivesReset | internal/api/password_handlers.go:21-71 | a run in which a change of password commits although an operator reset came after the authentication it acts on |
| Origins.EverySessionIsChecked | internal/api/auth_handlers.go:72-260 | every session was issued by a handler whose check of that user is known: an MFA one goes back to the login that created the very challenge it cost, with the same user and hash, on a read of the user as active and with a second factor, and cost a second factor of that user; one from a pairing to the check of that pairing's user; a plain password one to a login of an account without second factor; it was inserted while the user was active with the hash of the check; and every ticket it cost was taken before and was good then: the challenge found unexpired, the code above the counter, the slot with a digest, the pairing pending and unexpired |
| OneTimeUse.AcquiredFresh | internal/store/sqlstore.go:236-266 | a step takes a challenge, counter, slot or pairing only if it was not spent, and it is spent afterwards |
| Redemptions.TakingIsExact | internal/api/auth_handlers.go:150-260 | what a step takes was good, and the write that takes it changes that one mark of its row and nothing else of it |
| OneTimeUse.SpentForGood | internal/store/sqlstore.go:236-266 | what is spent stays spent, whatever the run does; the slot of a recovery code if and only if no profile update carries a nonblank, missing or unreadable entry there |
| OneTimeUse.TicketTakenOnce | internal/api/auth_handlers.go:150-185 | each challenge, one-time code and pairing is taken at most once under any interleaving; a recovery slot too, as long as no profile update between the two puts an entry back |
| OneTimeUse.OneTicketOneSession | internal/devices/devices.go:87-129 | two sessions never cost the same challenge, code or pairing, in any run; nor the same recovery slot, unless a profile update put an entry back while someone had used it up |
| RecoveryCodes.RedeemRecoveryCode | internal/auth/recovery.go:43-58 | succeeds exactly when the code's digest is in a readable list, blanks that slot and no other |
| RecoveryCodes.GenerateRecoveryCodes | internal/auth/recovery.go:21-38 | one nonblank digest per code in order; a count that is not positive means eight |
| RecoveryCodes.RedeemableAsOftenAsStored | internal/auth/recovery.go:43-58 | a code matches exactly while a copy of its digest is left, and redeeming it takes one copy of its own and none of any other code |
| RecoveryCodes.RedemptionsConserve | internal/api/auth_handlers.go:245-254 | over a stretch in which the profile updates of a user write back the list they find, its list keeps length and positions, redeemed slots are distinct and were good, and successes plus codes left equal the codes there were |
| RecoveryCodes.ListsMoveByRedemptionsIff | internal/store/sqlstore.go:202-250 | the stored lists move by successful redemptions alone if and only if no profile update has a redemption of its user between its read and its write |
| RecoveryCodes.SpentSlotsStayIff | internal/store/sqlstore.go:202-250 | on the same condition, and only on it, every spent recovery slot stays spent throughout the run |
| RedeemedTwice.CodeRedeemedTwice | internal/scim/handler.go:153-176 | a run in which a patch restores a redeemed code, which is redeemed again and opens a second session |
| RateLimiter.Limiter.MakeRoom | internal/api/server.go:175-188 | drops every expired window, and one live one only if the map is still full |
| RateLimiter.Limiter.AllowAttempt | internal/api/server.go:159-169 | the new map and the verdict, with the eviction it made |
| RateLimiter.CapHolds | internal/api/server.go:117-130 | the map never exceeds its cap, and an unknown key is not refused because of it |
| RateLimiter.AllowedPerOpening | internal/api/server.go:190-196 | in any order of clock readings, allowed attempts come out of the window open at the start and the windows opened |
| LimiterSkew.AllowedPerSkewedInterval | internal/api/server.go:159-196 | with readings out of lock order by at most d, the attempts in a closed interval of one window length are bounded by the windows that can have served it and those that start in it, for any number of windows opened before the one before was over; in lock order the bound is (2 + e) * limit - 1, e being the evictions of the key |
| LimiterSkew.PrematurePerDrop | internal/api/server.go:175-188 | a window is opened before the one before was over only after that one was dropped to make room, once per drop |
| LimiterSkew.PrematurePerEviction | internal/api/server.go:175-188 | in lock order, only after a random eviction |
| LimiterEvictions.EvictionBoundIsMet | internal/api/server.go:175-188 | for every limit, window and e some run in lock order evicts the key e times and reaches (2 + e) * limit - 1 |
| LimiterSkew.SkewedBoundIsMet | internal/api/server.go:159-161 | for every limit, window and d some run without evictions and without such windows reaches the bound |
| LimiterSkew.MostIsExact | internal/api/server.go:159-161 | so n * limit - (n - 1), n = 1 + (2 * window + d) / (window + 1), is exactly the most a key gets with such readings |
| LimiterSkew.OrderBoundIffOneTick | internal/api/server.go:159-161 | the bound of lock order holds for every run of skew d without such windows if and only if d is at most one |
| LimiterMemory.ForgettingShowsIff | internal/api/server.go:159-196 | in any order and with any evictions, every call gets the window an unbounded limiter gives it if and only if no call reads at or before the end of a window of its key that was dropped to make room |
| LimiterMemory.SameVerdicts | internal/api/server.go:159-196 | up to the first call that does so, the verdicts differ from the unbounded limiter's exactly when that call's dropped window had reached the limit |
| LimiterMemory.UndercutNeedsCause | internal/api/server.go:159-188 | a call does so only after a random eviction, or if it reads earlier than an earlier purge |
| LimiterMemory.PurgeShows | internal/api/server.go:159-188 | a run with readings out of order by one tick and no eviction in which a purge lets a call through that the unbounded limiter refuses |
| DetachedWork.CountsAndLosesNoWakeup | internal/api/server.go:67-80 | the counter equals the number of tracked requests running, and a waiter parked at zero has a broadcast still coming |
| DetachedWork.ReturnsOnlyAtZero | internal/api/server.go:103-110 | WaitDetached returns only at an instant with no tracked request running |
| DetachedWork.FinishingMakesProgress | internal/api/server.go:74-110 | every step of work under way shrinks a well-founded measure |
| DetachedWork.NobodyIsLeftWaiting | internal/api/server.go:99-110 | when nothing under way can move, every waiter has returned |
| Shutdown.StoreClosesAfterTheWork | cmd/server/main.go:142-181 | if the deadline has not passed at the close, no scheduled run is in flight or starts later, WaitDetached has returned from a check at an idle instant, and a handler runs at the close if and only if it registered since that check and has not finished |
| Shutdown.ItCloses | cmd/server/main.go:142-181 | without a deadline, from every state of every run in which the wait has begun, the work under way can end and the store closes |
| Shutdown.SchedulerIsAt | cmd/server/main.go:199-234 | a scheduled run is in flight exactly when one was found due and has not ended, the loop has been left exactly when the configuration failed or a cancellation was seen, and a waiting loop can take a tick or see the cancellation |
| Shutdown.DeadlineUnblocks | cmd/server/main.go:166-180 | once the deadline has passed neither wait blocks and nothing else can make it block |
| Shutdown.LateHandlerIsNotWaitedFor | cmd/server/main.go:162-181 | a run in which a handler registers after the wait returned and the store closes under it |
| NetAddresses.MaskingPreservesSet | internal/config/config.go:290-290 | a masked prefix contains exactly what the prefix contains |
| NetAddresses.ContainsMeansLeadingBits | internal/auth/clientip.go:81-88 | a prefix contains the addresses of its family, without zone, that agree with it on as many leading bits as its length says |
| NetAddresses.UnmapPreservesMeaning | internal/config/config.go:306-314 | an IPv4 address is in the rewritten prefix exactly when its mapped form is in the IPv6 one |
| NetAddresses.UnmapMeaning | internal/auth/clientip.go:49-79 | an IPv4-mapped address is unmapped to the IPv4 one it maps, and every other is left as it is |
| ClientAddress.IsTrusted | internal/auth/clientip.go:81-88 | true exactly when some prefix of the list contains the address |
| ClientAddress.ParseTrustedProxies | internal/config/config.go:275-304 | accepts exactly the lists in which every entry that is not blank parses and none means every address of a family, and returns the block of every such entry in order |
| ClientAddress.TrustedMeansListed | internal/config/config.go:275-314 | for every accepted list and every address: trusted exactly when some entry, read at the width it was written in, means it; no accepted block has zero bits |
| ClientAddress.EveryLineIsWalked | internal/auth/clientip.go:33-36 | joining and splitting yields the entries of every header line in order |
| ClientAddress.SplitRoundTrip | internal/auth/clientip.go:36-36 | the pieces joined again are the text and none holds a comma |
| ClientAddress.TrimSpaceMeaning | internal/config/config.go:278-278 | trimming takes all surrounding white space and nothing else |
| ClientAddress.ClientIp | internal/auth/clientip.go:26-47 | the rightmost untrusted entry exactly when the peer is trusted and everything to its right parses and is trusted, else the peer |
| ClientAddress.PeerMeaning | internal/auth/clientip.go:66-79 | the peer, IPv4 or IPv6, with a port or in brackets, is the address its host parses to, unmapped; a host that does not parse is returned as it is |
| ClientAddress.EntryMeaning | internal/auth/clientip.go:49-64 | an entry names an address exactly when it is that address, or, being none, has it before its port, unmapped |
| ClientAddress.TrimBracketsMeaning | internal/auth/clientip.go:73-73 | taking the brackets off takes all of them around the text and nothing else |
| ClientAddress.ForgedChainIsIgnored | internal/auth/clientip.go:18-22 | whatever text is put to the left of a chain with a winning entry, the client is the same |
| ClientAddress.SpellingDoesNotMatter | internal/auth/clientip.go:49-79 | peers and entries that are one address, bare, in brackets or with a port, IPv4 ones plain or IPv4-mapped, are attributed to one client |
| ClientAddress.ForwardedResultIsUntrusted | internal/auth/clientip.go:42-44 | a result other than the peer is an untrusted address, and the peer was trusted |
| Migrations.AppliedOnceInOrder | internal/store/migrations/migrations.go:249-294 | with crashes and any number of runners the schema is a prefix of the registry applied once each in order, exactly its versions are recorded, and a run that succeeds leaves all of them |
| Migrations.RegistryAppliedOnce | internal/store/migrations/migrations.go:19-220 | for the four migrations of the program |
| Migrations.BlockedOnlyByOneThatCanCommit | internal/store/migrations/migrations.go:277-289 | a runner that cannot record its version waits for exactly one other, which holds that version and can commit or die; after either the runner goes on, to fail on the recorded version or to take the migration over |
| Migrations.EveryRunnerCanFinish | internal/store/migrations/migrations.go:249-294 | no deadlock: from every state of every run a runner can be brought to its end by steps of its own and at most one commit of another |
| Migrations.AloneItFinishes | internal/store/migrations/migrations.go:249-294 | once no other runner has its version inserted, a runner goes on by its own steps to the end; it succeeds with the whole registry applied exactly when the statements still ahead execute, else leaves what comes before the first that fails; one overtaken in its transaction fails |
| Migrations.NewRunnerMigrates | internal/store/migrations/migrations.go:249-294 | a process that starts then does, step by step, what Migrate does: the same outcome and the same schema |
| Migrations.Migrate | internal/store/migrations/migrations.go:249-294 | one runner alone applies what is pending up to the first migration that does not execute, and succeeds exactly when there is none |

## Left out

- LimiterSkew.AllowedPerSkewedInterval: the bound is shown to be met for windows that do not overlap at any skew, and for any number of evictions in lock order; with overlaps and skew together it may leave a gap.
- LimiterMemory.SameVerdicts: speaks of the calls up to the first that gets another window; after it the two limiters may differ and agree again, and only the windows are compared (`ForgettingShowsIff`).
- Transactions: rows other than users' are not locked, so a write of a pairing or challenge that an open replacement has deleted goes through at once instead of waiting; this only adds runs.
- RecoveryCodes.RedemptionsConserve: stated for stretches in which the profile updates of that user write back the list they find, because it is false otherwise (`CodeRedeemedTwice`).
- OneTimeUse.TicketTakenOnce: for recovery slots stated on the condition of `SpentForGood` between the two steps, because it is false otherwise (`CodeRedeemedTwice`).
- OneTimeUse.OneTicketOneSession: for recovery slots stated for runs in which no profile update puts an entry back into a slot that a handler or session has used up, because it is false otherwise (`CodeRedeemedTwice`).
- A driver error in a single-statement call: it changes nothing and is not modelled; in the transactional calls it is.
- Handlers: login, MFA, authentication, pairing, replacement and profile updates are step programs on values rather than methods on objects, because what is claimed is about their interleavings; their order of store calls is kept, local variables updated in place are not.
- DetachedWork and Shutdown: likewise state machines over steps; the mutex is rendered by making each critical section one step.
- `created_at`, `updated_at` and `last_login_at`: not columns of the model; no branch depends on them.
- The recovery-code column is its list of digests, not its JSON text; text that is no such list is kept as such.
- `InitPairing` and logout: any pairing may be inserted and any session deleted at any step, for any user, which includes what they do.
- Auto-provisioning in the SSO callback: it is a user creation followed by the read the model has.
- Rate limits inside the handlers: a refused attempt ends a handler, which any handler may do at any point.
- Token extraction from headers and cookies, CSRF, CORS, JSON and status codes: each is settled by one reading.
- Hashing, encryption, proof of work, OIDC, SAML and SCIM protocol handling: outside libraries; only their effect on rows is modelled.
- Groups, settings, audit listing and user listing: plain reads and writes with no claim across calls.
- Backup sealing, drills and deposits: file system and network.
- netip and net parsing of addresses and host:port: taken as functions with stated laws.
