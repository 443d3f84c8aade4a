# Verification of the admin backend

A Dafny model of the state machines, loops and arithmetic of the admin service, and proofs of what they
promise. `dafny verify dfyconfig.toml` checks all of it.

## What is modelled

- **Sessions, refresh tokens, lockout and second factor** (`Tokens`, `Sessions`, `Lockout`, `Accounts`,
  `AdminAuth`): the services as classes over the stores they mutate, one whole-second clock, Redis keys as
  maps with deadlines, the index set and the durable history. Each service method is proved against one step
  of the machine in `AuthMachine`; `SessionInvariants`, `AuthRuns`, `AuthTheorems` and `LockoutRuns` prove what
  every run of that machine keeps, `SessionListing` and `SessionEndings` what the session list and the history
  tell about it, `IssuedTokens` what the tokens it hands out are good for, and `AccountHistory` what becomes of
  the account rows. A run mixes sign-ins, codes, refreshes, requests,
  sign-outs, the writes other administrators make to an account, lost history writes and time. Such a write
  only commits the row: cutting the account's sessions is a step of its own, which may come late or never.
- **The activity feed** (`ActivityFeed`, `FeedSources`, `FeedFilters`, `FeedWalk`): what each source selects,
  the five-source merge with its tie extension, one request, and the walk that feeds each cursor back, also
  while rows are being written.
- **The money rows of that feed** (`FeedConservation`): the direction of each row against the balances.
- **The Prometheus parser** (`PromLabels`, `PromRoundTrip`, `PromScrape`, `PromSamples`): the quote- and
  escape-aware label splitter, the accounting pass, and as their partners the printer of the exposition format
  and the shape of its lines, spelled out.
- **The request-body guard** (`JsonValues`, `OversizedArray`): the explicit-stack search.
- **Route access** (`RouteManifest`, `AccessComposition`, `ServedRoutes`): registration, gate selection and the
  boot assertion, their composition with the authenticator, and what the mounted server then answers.
- **Account lifecycle** (`AccountLifecycle`): activation, suspension and reinstatement over runs.
- **Error details** (`DetailScrub`, `DetailPolicy`, `DetailSafety`, `DetailContents`): the scrub and the
  projection per category, what the caller never gets and what the caller does get.
- **Offset paging** (`OffsetPaging`): pages over queries that may each arrange ties differently.

`Prelude` and `StableSort` hold what these share. Code that mutates state is a class or a method with loops;
each such method is proved equal to a function of the inputs or of the old state, and the results are lemmas
about those functions. Passwords, codes and readiness checks are boolean inputs of the step that consults
them; a token's fingerprint is an injective constructor; session ids, jtis and challenge ids are fresh.

## Where the code and its own words differ

The model follows the code. Each item names the lemmas that prove it, with the exact condition where the code
meets its words.

- *A page never drops a row* (account-activity.read.repository.ts:28-37): a source fetches only limit + 1
  rows, so three rows of one source at one instant can be cut. `FeedWalk.EveryWalkIsCompleteIff`,
  `FeedWalk.ThreeTogetherAreLost`.
- *Parsing undoes printing* in the exposition format: a label value with a backslash never reads back, since
  the doubled backslash is not undone (prom-text.ts:73). `PromRoundTrip.RoundTripIff`.
- *Guesses during a lock do not extend anything* (admin-auth.service.ts:191-192): the sign-in path keeps this,
  but the second-factor paths count failures without consulting the lock, so a counter can outlive the lock.
  `LockoutRuns.LockLiftsOnFreshCounter`, `LockoutRuns.CounterCanOutliveLock`.
- *The session list shows live sessions*: it also names a stored session past its absolute cap until something
  reads that key, if its owner signed in again meanwhile. `SessionListing.ListedPastCap`,
  `SessionListing.ListCanNameExpired`.
- *An unreadable mount prefix is a visible failure rather than a silent pass* (route-manifest.ts:580-583): the
  path found without its prefix is out of scope and skipped. A raw registration of a declared key and a path
  that is not a string pass as well. `ServedRoutes.ExtraIsCaughtIff` says what is caught, and
  `UnreadableMountEscapes`, `RawTwinEscapes` and `PatternPathEscapes` give the inputs.
- *`mountedAt` is the prefix the router is mounted at* (route-manifest.ts:333): nothing compares the two, and the
  assertion compares sets of keys, so two routes of one verb and path mounted at each other's place start, and
  a public handler then answers where self-service is declared. `ServedRoutes.SwappedMountsEscape`,
  `MisplacedPublicAnswers`, `PublicSignInCanBeMisplaced`. A handler answers as declared at its key exactly
  when its own access and onboarding membership agree with that declaration: `ServedRoutes.AnswersAsDeclaredIff`.
- *Every route of the enrolment gate is on the onboarding allowlist* (authenticate.middleware.ts:271-273): the
  boot assertion forbids exactly that, an entry must be self-service. `RouteManifest.NoProblemsIff`.
- *Reinstatement restores the prior status* (admin-account.repository.ts:234-248): not after a second
  suspension, and not for an account that was never suspended, since neither call looks at the current status;
  and the recorded status is not cleared. `AccountLifecycle.NeverSlipsIff`, `SuspendedTwiceSlips`,
  `ReinstatedUnsuspendedSlips`, `ReinstatedTwiceDemotes`.
- *The leaf name of a bracketed log path is the header name* (audit-state.ts:35-37): `headers["` is not
  stripped, and a listed name that is not plain letters and digits matches no normalised key.
  `DetailSafety.OnlyPlainNamesDeny`, `DetailSafety.BracketedHeadersAreKept`.
- *The feed's in minus out equals the change in the balance* (account.dto.ts:333-338): except for what moves a
  balance with no ledger row (transaction-sources.ts:961-979), money that comes back from a payout while a debt
  is owed, which every inflow pays first (api-doc/api/money.md:530), and a refund charge with no share to file
  it under. `FeedConservation.FeedBalancesIff`. Whether a write-off is
  filed in the ledger the comments tell both ways (money.gateway.ts:690-692, transaction-sources.ts:969); the
  result holds either way.
- *A unique final key is appended always* (mongo-list.ts:20-25): by `toMongoSort`, which the administrator
  directory (admin-account.repository.ts:171-177) and the approval queue
  (approval-request.repository.ts:84-92) do not use. `OffsetPaging.HandSortPartitionsIff`,
  `OffsetPaging.HandSortsLoseDocuments`.
- *`truncated` says text was cut* (prom-text.ts:86-87): it counts UTF-8 bytes and the cut counts UTF-16 units, so
  it can be set with nothing cut. `PromScrape.BodyIsWholeIff`.

## Model

| member | source | states |
|---|---|---|
| Sessions.SessionService.CreateSession | src/modules/admin-identity/domain/session.service.ts:74-122 | The new key, the index membership with a deadline no earlier than the absolute cap, and the history row, each exactly |
| Sessions.SessionService.GetSession | src/modules/admin-identity/domain/session.service.ts:136-153 | Live, missing or past its cap; a capped session is destroyed by the read, only a touching read moves the idle deadline |
| Sessions.SessionService.RotateRefreshToken | src/modules/admin-identity/domain/session.service.ts:160-181 | Swaps the fingerprint only for a live session whose current token was presented, and leaves its idle deadline where it was |
| Sessions.SessionService.DestroySession | src/modules/admin-identity/domain/session.service.ts:183-202 | Removes the key and the index entry and stamps the row unless it was already ended |
| Sessions.SessionService.DestroyAllSessions | src/modules/admin-identity/domain/session.service.ts:209-235 | The loop over the index removes every indexed key, the set, and stamps every open row of that admin |
| Sessions.SessionService.DestroyOtherSessions | src/modules/admin-identity/domain/session.service.ts:301-315 | The loop ends every indexed session but the kept one, as one operation would |
| Sessions.SessionService.ListSessions | src/modules/admin-identity/domain/session.service.ts:248-274 | Returns each stored session of the index once, newest first, and drops exactly the index entries whose key is gone |
| Sessions.SessionService.ListSessionHistory | src/modules/admin-identity/domain/session.service.ts:340-364 | The newest rows of that admin, cut at the limit, each with its stamp, no ending if still listed, else idle expiry |
| Sessions.SessionService.MarkSeen | src/modules/admin-identity/domain/session.service.ts:367-373 | Changes only the last-seen time of that row |
| SessionInvariants.KeepsDestroyed | src/modules/admin-identity/domain/session.service.ts:183-202 | Destroying keeps the store invariant and revives nothing, whatever admin id the caller passes |
| SessionInvariants.KeepsAllDestroyed | src/modules/admin-identity/domain/session.service.ts:209-235 | Destroying by index leaves no live session of that admin: the index invariant makes the index complete |
| SessionInvariants.KeepsRotate | src/modules/admin-identity/domain/session.service.ts:160-181 | Rotation keeps the invariant: the stored fingerprint is always that of an issued refresh token of this session |
| SessionInvariants.KeepsCreated | src/modules/admin-identity/domain/session.service.ts:74-122 | Creation keeps the invariant: index membership, deadlines, fresh ids |
| SessionInvariants.KeepsHealed | src/modules/admin-identity/domain/session.service.ts:248-274 | Self-healing the index never drops a live session |
| Tokens.TokenService.SignRefresh | src/modules/admin-identity/domain/token.service.ts:89-96 | A refresh token with a fresh jti, expiring with the absolute cap |
| Tokens.TokenService.SignAccess | src/modules/admin-identity/domain/token.service.ts:75-82 | An access token carrying the tier, expiring after the access lifetime |
| Lockout.LockoutService.GetLockState | src/modules/admin-identity/domain/lockout.service.ts:31-43 | Locked exactly while the lock key is held, with the seconds left |
| Lockout.LockoutService.RecordFailure | src/modules/admin-identity/domain/lockout.service.ts:52-67 | The counter, its expiry set on the first failure only, and the lock once the threshold is reached |
| Lockout.LockoutService.ClearFailures | src/modules/admin-identity/domain/lockout.service.ts:70-73 | Deletes both keys of that account and no other |
| Lockout.ComparedGuess | src/modules/admin-identity/domain/lockout.service.ts:31-67 | One more compared guess keeps the bound on a window of one lock duration |
| Lockout.OtherFailure | src/modules/admin-identity/domain/admin-auth.service.ts:319-330 | Failures counted by the second-factor paths never loosen that bound |
| Lockout.LockOutlivesCounterIff | src/modules/admin-identity/domain/lockout.service.ts:52-67 | A recorded failure leaves the lock outliving the counter exactly unless it arrives while locked, after the counter expired, below the threshold |
| LockoutRuns.GuessesAreBounded | src/modules/admin-identity/domain/admin-auth.service.ts:191-239 | Over any run without a sign-in, less than one lock duration holds at most max(MAX, 2*MAX - 2) compared wrong passwords |
| LockoutRuns.BoundIsAttained | src/modules/admin-identity/domain/lockout.service.ts:52-67 | For every threshold of two or more a reachable state and a run meet that bound exactly |
| LockoutRuns.LockLiftsOnFreshCounter | src/modules/admin-identity/domain/lockout.service.ts:52-67 | Over every run, a lock of an account is never due to end before its counter exactly when no wrong code of that account is counted while it is locked with the counter expired and the threshold above one |
| LockoutRuns.CounterCanOutliveLock | src/modules/admin-identity/domain/admin-auth.service.ts:319-330 | For every threshold and lock duration of two or more a run reaches such a state with a held challenge, and the wrong code leaves the counter outliving the lock |
| Accounts.AccountRepository.Create | src/modules/admin-identity/repositories/admin-account.repository.ts:64-82 | A new row, pending unless a status is given, nothing enrolled |
| Accounts.AccountRepository.SetTier | src/modules/admin-identity/repositories/admin-account.repository.ts:210-229 | Compare-and-set on the level the caller read; a miss changes nothing |
| Accounts.AccountRepository.SetSuspension | src/modules/admin-identity/repositories/admin-account.repository.ts:249-278 | Suspends with the status to restore, or restores the given status, `suspended` read as active |
| Accounts.AccountRepository.Activate | src/modules/admin-identity/repositories/admin-account.repository.ts:295-312 | Compare-and-set on pending; a miss changes nothing |
| Accounts.AccountRepository.StageMfaSecret | src/modules/admin-identity/repositories/admin-account.repository.ts:362-368 | Stores the secret and withdraws enrolment |
| Accounts.AccountRepository.ActivateMfa | src/modules/admin-identity/repositories/admin-account.repository.ts:370-376 | Marks the account enrolled |
| Accounts.AccountRepository.ClearMfa | src/modules/admin-identity/repositories/admin-account.repository.ts:394-401 | Removes secret and enrolment |
| AdminAuth.ChallengeService.CreateChallenge | src/modules/admin-identity/domain/mfa.service.ts:104-109 | Stores the challenge for its five minutes |
| AdminAuth.ChallengeService.ReadChallenge | src/modules/admin-identity/domain/mfa.service.ts:116-120 | The challenge while held, else nothing |
| AdminAuth.ChallengeService.ConsumeChallenge | src/modules/admin-identity/domain/mfa.service.ts:122-125 | Removes that challenge only |
| AdminAuth.AuthService.IssueSession | src/modules/admin-identity/domain/admin-auth.service.ts:129-162 | Session, both tokens, cleared lockout and login record, as one step of the machine |
| AdminAuth.AuthService.Login | src/modules/admin-identity/domain/admin-auth.service.ts:164-299 | The ordered checks and effects of a sign-in, step for step the machine of `AuthMachine` |
| AdminAuth.AuthService.CompleteMfa | src/modules/admin-identity/domain/admin-auth.service.ts:301-347 | The second factor: a wrong code counts and keeps the challenge, a right one consumes it and issues a session |
| AdminAuth.AuthService.Refresh | src/modules/admin-identity/domain/admin-auth.service.ts:356-428 | The refresh step, including destruction on reuse, deletion and suspension |
| AdminAuth.AuthService.Authenticate | src/api/middlewares/authenticate.middleware.ts:97-257 | The gate in its order: token, session, account, suspension, pending, pending second factor |
| AdminAuth.AuthService.ActivateMfa | src/modules/admin-identity/domain/admin-auth.service.ts:448-490 | Confirms enrolment with a right code; a wrong one counts towards the lockout |
| AdminAuth.AuthService.SignOut | src/modules/admin-identity/domain/admin-auth.service.ts:499-507 | Ends this session |
| AdminAuth.AuthService.SignOutAll | src/modules/admin-identity/domain/admin-auth.service.ts:509-520 | Ends every session of the caller and reports how many were indexed |
| AdminAuth.AuthService.RevokeSession | src/modules/admin-identity/domain/admin-auth.service.ts:522-560 | Ends one of the caller's own live sessions, otherwise reports it as not found |
| AdminAuth.AuthService.ChangeOwnPassword | src/modules/admin-identity/domain/admin-auth.service.ts:574-655 | Checks, new hash, and every other session ended |
| AuthRuns.StepKeeps | src/modules/admin-identity/domain/admin-auth.service.ts:129-655 | Every event, of the service or of another administrator, keeps the whole invariant and revives nothing |
| AuthRuns.RunKeeps | src/modules/admin-identity/domain/admin-auth.service.ts:129-655 | So does every run |
| AuthRuns.ReachableIsSound | src/modules/admin-identity/domain/session.service.ts:74-315 | Every reachable state satisfies the invariant |
| AuthTheorems.LiveSessionsAreIndexed | src/modules/admin-identity/domain/session.service.ts:92-99 | In every reachable state a live session is in its owner's index set, whose deadline is no earlier than the session's cap |
| AuthTheorems.SignOutEverywhere | src/modules/admin-identity/domain/session.service.ts:209-235 | After signing out everywhere exactly that admin's live sessions are gone |
| AuthTheorems.KeepsOneSession | src/modules/admin-identity/domain/admin-auth.service.ts:574-655 | After a password change exactly the kept session of that admin, and everybody else's, is still live |
| AuthTheorems.AcceptedMeansLive | src/api/middlewares/authenticate.middleware.ts:97-150 | A token is accepted only for a live session of the admin it names |
| AuthTheorems.NeverAcceptedAgain | src/modules/admin-identity/domain/session.service.ts:183-202 | Once a session is not live, no access or refresh token naming it is accepted after any run |
| AuthTheorems.SuspensionIsFinal | src/api/middlewares/authenticate.middleware.ts:130-168 | The first live request or refresh during a suspension ends every token that admin holds for good, reinstatement included |
| AuthTheorems.SuspendedWithLiveSession | src/modules/administrators/domain/administrator.service.ts:525-542 | Between the commit of a suspension and the cut of its sessions a reachable state has a suspended admin with a live session and both tokens, under every configuration |
| AuthTheorems.ExactlyOneRefreshToken | src/modules/admin-identity/domain/admin-auth.service.ts:356-428 | Of all refresh tokens ever signed for a live session exactly the current one is accepted; any other ends the session |
| AuthTheorems.RefreshHandsOver | src/modules/admin-identity/domain/admin-auth.service.ts:395-428 | A refresh leaves the idle deadline, the returned token is the next accepted one, and the replayed one is refused as reuse |
| AuthTheorems.EndedRowsStayEnded | src/modules/admin-identity/domain/session.service.ts:183-235 | An ended history row never belongs to a live session, now or later, and its reason never changes |
| SessionListing.HistoryNamesLive | src/modules/admin-identity/domain/session.service.ts:340-364 | In the history a live session's row has no ending, and one without an ending is live or stored past its cap |
| SessionListing.HistoryIsNewest | src/modules/admin-identity/domain/session.service.ts:340-364 | A row the history leaves out is no newer than any it returns, and the page is full |
| SessionListing.ListIsExactIff | src/modules/admin-identity/domain/session.service.ts:248-274 | The session list names every live session, and only those exactly when no listed one is past its cap |
| SessionListing.ListedPastCap | src/modules/admin-identity/domain/session.service.ts:92-99 | Over every run, a listed session stops being live exactly at birth plus the cap, and stays listed only within the idle window of its last touch and because its owner signed in again after its birth, less than one cap ago |
| SessionListing.ListCanNameExpired | src/modules/admin-identity/domain/session.service.ts:248-274 | A reachable state where it names a session past its cap |
| SessionListing.ListTells | src/modules/admin-identity/domain/session.service.ts:248-274 | Over every run the list names each listed session exactly once, newest first, each with its own start, its own cap, and `current` exactly for the session that asks |
| SessionListing.ListHeals | src/modules/admin-identity/domain/session.service.ts:248-274 | Reading the list leaves that admin's index naming exactly what was listed, and changes nothing else |
| SessionListing.HistoryIsOrdered | src/modules/admin-identity/domain/session.service.ts:340-364 | The history comes newest first |
| SessionEndings.StepTells | src/modules/admin-identity/domain/session.service.ts:183-235 | Every event leaves every history row as it was, but for one ending and one time: an open row of a session the event ends gets this second and the reason of that event if the history takes the write, and a request its gate admits moves the last-seen time |
| SessionEndings.EndsExactlyFor | src/api/middlewares/authenticate.middleware.ts:97-168 | In every reachable state a live session in the history stops being live in a step exactly when that event is a cause to end it: the same causes the history names |
| SessionEndings.RowIsBorn | src/modules/admin-identity/domain/session.service.ts:74-122 | A row appears exactly for a sign-in or a completed second factor the history is told of, with that account, its tier at the time, the factor used and the times |
| SessionEndings.RowShowsFirstEnding | src/modules/admin-identity/domain/session.service.ts:183-235 | Over every run a stored row shows an ending exactly when some event told the history it ends that session, and shows the time and reason of the first such event |
| SessionEndings.RowTellsItsBirth | src/modules/admin-identity/domain/session.service.ts:74-122 | Over every run a row was written by one event that issued this session, and still says what it said then |
| SessionEndings.HistoryTellsEvents | src/modules/admin-identity/domain/session.service.ts:340-364 | Over every run the history an administrator reads shows each session the first ending an event caused; with none, no reason while the session is listed and idle expiry otherwise |
| AuthTheorems.TwoClocks | src/modules/admin-identity/domain/session.service.ts:136-181 | Over every run a token is accepted only before birth plus the cap and less than the idle window after the last touching read |
| AuthTheorems.OnlyTwoClocks | src/modules/admin-identity/domain/session.service.ts:136-181 | Over every run, until the key of a session is deleted, a request whose token, account and gate are in order is admitted exactly inside both clocks |
| AuthTheorems.SessionProvenance | src/modules/admin-identity/domain/admin-auth.service.ts:241-347 | Every stored session was issued by one event of the run: scoped, second factor verified, or neither enrolled nor required |
| AuthTheorems.ChallengeMintsOnce | src/modules/admin-identity/domain/mfa.service.ts:116-125 | A challenge that issued a session issues no other in any later run |
| AuthTheorems.WrongCodeKeepsChallengeIff | src/modules/admin-identity/domain/admin-auth.service.ts:301-330 | A wrong code leaves the challenge usable exactly when the account and its secret still exist |
| IssuedTokens.TokensAreGood | src/modules/admin-identity/domain/admin-auth.service.ts:129-428 | In every reachable state each answer with tokens gives a live session of the account it is about, its current refresh token, and a signed access token naming session and account with the account's current tier and the access lifetime |
| IssuedTokens.AccessIsGoodUntil | src/modules/admin-identity/domain/admin-auth.service.ts:395-428 | After any run the access token a sign-in, a completed second factor or a refresh handed out is admitted exactly while it has not expired, its session is live and account and session meet the gate, and then identifies that session and the account as it is then |
| IssuedTokens.RefreshIsGood | src/modules/admin-identity/domain/admin-auth.service.ts:395-428 | The refresh token such an answer hands out refreshes that session |
| IssuedTokens.LoginAnswers | src/modules/admin-identity/domain/admin-auth.service.ts:191-299 | A sign-in is answered with a challenge exactly for an enrolled account, with a scoped session exactly when the tier needs a factor the account lacks, and refused for the reason that stands first |
| IssuedTokens.ScopedStaysScoped | src/modules/admin-identity/domain/admin-auth.service.ts:241-279 | Over every run the session of such an answer owes the second factor exactly when the answer said so |
| IssuedTokens.LockIsTimed | src/modules/admin-identity/domain/admin-auth.service.ts:191-199 | A lock is reported with the seconds after which, untouched, sign-in is no longer refused for it, to the second |
| IssuedTokens.SignInClears | src/modules/admin-identity/domain/lockout.service.ts:70-73 | A sign-in leaves that account no failures and no lock, and every other account its own |
| IssuedTokens.ChallengeLasts | src/modules/admin-identity/domain/mfa.service.ts:104-120 | A right code completes a sign-in exactly within 300 seconds of its challenge |
| AccountHistory.ActivationAnswers | src/modules/admin-identity/domain/admin-auth.service.ts:448-490 | Enrolment is confirmed exactly by a right code for an existing, not enrolled account with a staged secret; a wrong code is refused as such and changes no account row |
| AccountHistory.StepMovesAccount | src/modules/admin-identity/repositories/admin-account.repository.ts:64-401 | Every field of every account row is moved by its own events only, to the value that event names; rows appear and go only by creation and removal |
| AccountHistory.EnrolledIff | src/modules/admin-identity/domain/admin-auth.service.ts:448-490 | Over every run an account is enrolled exactly when an event confirmed it with a right code for its staged secret and no reset or removal came after |
| AccountHistory.PasswordIsLastGiven | src/modules/admin-identity/domain/admin-auth.service.ts:574-655 | Over every run the stored password is the one the last event to set it for this account gave |
| AccountHistory.ChangeAnswers | src/modules/admin-identity/domain/admin-auth.service.ts:574-655 | A password change is made exactly with the right current password and an accepted new one, reports how many other sessions it ended, and a refusal changes nothing |
| AccountHistory.RevocationAnswers | src/modules/admin-identity/domain/admin-auth.service.ts:522-560 | A caller ends a session exactly when it is live and the caller's own; then that session is gone and every other one is as it was |
| ActivityFeed.MergeActivity | src/modules/accounts/repositories/account-activity.read.repository.ts:79-97 | The merge loop returns the sorted rows, cut at the limit and extended to the end of the tie group |
| ActivityFeed.GetActivityPage | src/modules/accounts/controllers/account.controller.ts:212-241 | One request over five sources: newest first, strictly before the cursor, limit + 1 rows each, then merged |
| FeedSources.BuildCreditFilter | src/modules/accounts/repositories/credit.read.repository.ts:180-198 | The clauses select exactly the owner's rows older than the cursor that no top-up row describes, with the optional terms |
| FeedSources.OwnerScopedFilter | src/modules/accounts/repositories/credit.read.repository.ts:266-277 | The clauses select exactly the owner's rows older than the cursor |
| FeedSources.ListRowsBefore | src/modules/accounts/repositories/credit.read.repository.ts:161-171 | One source of one request is the owner's selection, before the cursor, cut at the fetch |
| FeedSources.GetOwnerActivity | src/modules/accounts/controllers/account.controller.ts:212-241 | The handler over stored rows is one request of that owner's feed, so the walk results below apply to it |
| FeedSources.OwnersFeedIsWellFormed | src/modules/accounts/repositories/credit.read.repository.ts:161-171 | Filtering keeps every source newest first with unique ids |
| FeedSources.FeedShowsIff | src/modules/accounts/repositories/credit.read.repository.ts:24-30 | The merged feed shows exactly the owner's rows, a credit row only when no top-up row describes its event; a malformed owner id shows nothing |
| ActivityFeed.StableMerge | src/modules/accounts/repositories/account-activity.read.repository.ts:106-110 | The comparator under a stable sort gives one order: newest first, larger id first, then by collection |
| FeedWalk.PageIsWindowIff | src/modules/accounts/repositories/account-activity.read.repository.ts:79-97 | A page with a successor is exactly its window of the full merge if and only if no source has more than limit + 1 rows there |
| FeedWalk.LastPageIsRest | src/modules/accounts/repositories/account-activity.read.repository.ts:85-87 | The page with no next cursor is everything left |
| FeedWalk.WalkIsMergeIff | src/modules/accounts/repositories/account-activity.read.repository.ts:65-97 | For one page size, following the cursors returns the full merge below the first cursor if and only if no page is crowded |
| FeedWalk.EveryWalkIsCompleteIff | src/modules/accounts/repositories/account-activity.read.repository.ts:65-97 | From any cursor, following the cursors returns the full merge below it for every page size if and only if no source holds three rows at one instant below it |
| FeedWalk.ThreeTogetherAreLost | src/modules/accounts/controllers/account.controller.ts:219-220 | Three rows of one source at one instant: with one row a page, the third is never returned |
| FeedWalk.RequestsAreFew | src/modules/accounts/repositories/account-activity.read.repository.ts:65-97 | A walk over N rows takes at most N/limit + 1 requests |
| FeedWalk.PageIsShort | src/modules/accounts/repositories/account-activity.read.repository.ts:89-97 | With at most two rows per instant per source, five sources give pages of at most limit + 9 rows |
| FeedWalk.WritersDoNotDisturb | src/modules/accounts/repositories/credit.read.repository.ts:161-171 | Rows inserted at or above the cursor between requests change nothing the walk returns |
| FeedWalk.WalkOverIsCompleteIff | src/modules/accounts/repositories/credit.read.repository.ts:266-277 | So with writers present every row below the first cursor is visited exactly once, in order, for every page size, if and only if no source holds three rows at one instant below it |
| PromLabels.SplitLabels | src/infra/geo/prom-text.ts:47-62 | The scanner loop returns the pieces between unquoted commas, a blank tail dropped |
| PromLabels.SplitRejoins | src/infra/geo/prom-text.ts:40-62 | The pieces rejoin to the block up to one blank tail and none holds an unquoted comma |
| PromLabels.PiecesAreUnique | src/infra/geo/prom-text.ts:40-62 | No other cut of a block has such pieces: a join of atomic closed pieces scans back to them |
| PromLabels.ReadPart | src/infra/geo/prom-text.ts:68-73 | One `key=value` part: trimmed key, unquoted value with two escape passes, blank keys skipped |
| PromLabels.ParseLabels | src/infra/geo/prom-text.ts:64-76 | The label map of a block, a later key overwriting an earlier one |
| PromRoundTrip.ValueReturnsIff | src/infra/geo/prom-text.ts:73 | A value printed with the three escapes of the exposition format reads back exactly when it holds no backslash |
| PromRoundTrip.RoundTripIff | src/infra/geo/prom-text.ts:64-76 | Parsing a printed block of plain distinct keys returns the same map exactly when no value holds a backslash |
| PromScrape.ParsePromText | src/infra/geo/prom-text.ts:85-150 | The pass over the lines of the limited text reports, per metric in order of first mention, the last help and type and its samples in input order |
| PromScrape.BodyIsWholeIff | src/infra/geo/prom-text.ts:86-87 | What is parsed is never longer than the limit, and is the whole text exactly when that fits in UTF-16 units |
| PromScrape.LinesRejoin | src/infra/geo/prom-text.ts:106 | The body is cut at every newline and nowhere else |
| PromScrape.ScrapeAccounts | src/infra/geo/prom-text.ts:85-150 | Every line that is not blank or a comment is exactly one of ignored, filtered, or one reported sample |
| PromScrape.IgnoredWhateverAllowed | src/infra/geo/prom-text.ts:125-142 | The ignored count does not depend on the allowlist |
| PromScrape.ReportIsAllowlisted | src/infra/geo/prom-text.ts:104-147 | Reported names are distinct and allowlisted; a sample stands under its own name if that is allowlisted, else under its base name |
| PromSamples.ReadAsIff | src/infra/geo/prom-text.ts:120-123 | A line is read as a sample exactly when it is a metric name, an optional block in braces, a gap and a text, the block as long as that allows |
| PromSamples.SampleFate | src/infra/geo/prom-text.ts:140-146 | A sample line is kept under its owner with its labels and its value, and filtered exactly when it has no owner: the allowlisted name itself, else the allowlisted name it extends by `_bucket`, `_sum` or `_count` |
| PromSamples.IgnoredIff | src/infra/geo/prom-text.ts:120-141 | A line is counted as ignored exactly when it is data and says no sample with a value |
| PromSamples.DescriptionFate | src/infra/geo/prom-text.ts:109-118 | A help or type line describes its metric, with its text, exactly when that metric is allowlisted |
| PromSamples.SamplesInOrder | src/infra/geo/prom-text.ts:146 | A metric's samples are those of its lines, all of them, in line order |
| PromSamples.OwnersInOrder | src/infra/geo/prom-text.ts:93-100 | Metrics are reported in the order of their first mention |
| PromSamples.TextIsLast | src/infra/geo/prom-text.ts:114-117 | The help or type reported is the last one given |
| PromSamples.SampleIsReportedIff | src/infra/geo/prom-text.ts:85-150 | The sample a line says is in the report under a name exactly when that name is its owner |
| PromSamples.PrintedSampleReturnsIff | src/infra/geo/prom-text.ts:120-146 | A sample printed in the exposition format comes back under its owner with its labels and value, infinities included, exactly when no label value holds a backslash |
| OversizedArray.FindOversizedArray | src/core/validation/validate.ts:23-36 | The explicit-stack search ends and equals the recursive definition |
| OversizedArray.FirstIsFirst | src/core/validation/validate.ts:22-36 | Nothing is found exactly when no array at any depth is too long; otherwise the path reaches one that precedes every other right to left |
| RouteManifest.Registry.DefineRoute | src/api/route-manifest.ts:494-524 | Registers probe, before handlers, gate, CSRF and validation in that order and records the declaration, or refuses a permission route without permissions |
| RouteManifest.ChainInOrder | src/api/route-manifest.ts:506-516 | In every chain the probe comes first, then the route's own guards in their order, the gate, CSRF and validation |
| RouteManifest.CollectRegisteredRoutes | src/api/route-manifest.ts:547-575 | The walk over nested stacks finds the enabled methods of every string path under the prefixes recovered from the compiled patterns |
| RouteManifest.LiteralPrefixIsRecovered | src/api/route-manifest.ts:585-594 | Every literal mount prefix is recovered from its pattern |
| RouteManifest.AssertRouteManifestComplete | src/api/route-manifest.ts:604-683 | Collects every problem, in the order of its three loops |
| RouteManifest.NoProblemsIff | src/api/route-manifest.ts:604-683 | It finds none exactly when keys are distinct, public, service and internal routes are as listed, onboarding entries are self-service, and every registered key in scope is declared |
| RouteManifest.ProblemsAreExact | src/api/route-manifest.ts:604-683 | Each of the seven problems is reported for a key exactly when what it says is wrong with that key is |
| AccessComposition.ChainIsExact | src/api/route-manifest.ts:405-524 | The chain built for a definition reaches its handler exactly when the sender may reach the route and the other guards pass, for every world and key |
| AccessComposition.SameReachIff | src/api/route-manifest.ts:405-478 | Two declarations let the same visits through, in every reachable state of every configuration, exactly when they are of one kind, with the same permissions or on the same side of the onboarding list |
| ServedRoutes.AnswersAsDeclaredIff | src/api/route-manifest.ts:394-683 | When the assertion passes, a `defineRoute` handler at a key it found in scope stands under exactly one declaration and answers as that one says exactly when its own definition agrees with it; where its router is mounted is not assumed |
| ServedRoutes.ReachedAsDeclared | src/api/route-manifest.ts:596-683 | Then a handler that agrees is reached only as declared and past every other guard: without identity only on the public list, by pending accounts and sessions owing the second factor only where listed, nothing internal by a person |
| ServedRoutes.ServerAnswersAsDeclaredIff | src/api/route-manifest.ts:596-683 | On a whole server with readable prefixes and no key in scope registered twice, every handler in scope answers as declared exactly when every one agrees with the declaration at its key |
| ServedRoutes.HonestServerStarts | src/api/route-manifest.ts:604-683 | No false alarm, for every layout of nested routers: readable prefixes, a sound manifest and every handler in scope from `defineRoute` where its definition says; it starts and each answers as declared |
| ServedRoutes.NestedServerStarts | src/app.ts:133-151 | The layout of this server, API routers over domain routers over routes, meets every condition of these results once its manifest is sound |
| ServedRoutes.OnboardingIsSound | src/api/route-manifest.ts:247-274 | The onboarding list is consistent: its fifteen keys are distinct, none is internal, and declared self-service they form a manifest that starts |
| ServedRoutes.RawFreeIff | src/api/route-manifest.ts:665-675 | With the assertion passed, all handlers in scope came from `defineRoute` exactly when no key in scope is registered twice, wherever the routers are mounted |
| ServedRoutes.ExtraIsCaughtIff | src/api/route-manifest.ts:665-675 | An extra registration fails start-up exactly when the walk finds in it a key in scope that nothing declared |
| ServedRoutes.RawTwinEscapes | src/api/route-manifest.ts:665-675 | A raw handler repeating a declared key is not noticed |
| ServedRoutes.PatternPathEscapes | src/api/route-manifest.ts:554 | Nor is one whose path is not a string |
| ServedRoutes.UnreadableMountEscapes | src/api/route-manifest.ts:577-594 | Nor one below a mount prefix that is not recovered, although it answers under the real prefix |
| ServedRoutes.SwappedMountsEscape | src/api/route-manifest.ts:394-398 | Nor are two routes of one verb and path mounted at each other's place, each answering at the other's key |
| ServedRoutes.MisplacedPublicAnswers | src/api/route-manifest.ts:494-520 | So a server starts in which a public handler stands at a self-service key and lets anybody through there |
| ServedRoutes.PublicSignInCanBeMisplaced | src/api/route-manifest.ts:494-520 | A concrete such server: the sign-in route at the key of a self-service route |
| AccountLifecycle.ActivationService.ActivateAdministrator | src/modules/administrators/domain/activation.service.ts:49-178 | Checks outside, re-check and compare-and-set inside, with any writes in between |
| AccountLifecycle.ActivationService.ApplySuspension | src/modules/administrators/domain/administrator.service.ts:543-587 | Suspends, recording the status it found |
| AccountLifecycle.ActivationService.ApplyReinstatement | src/modules/administrators/domain/administrator.service.ts:589-634 | Restores the recorded status, active when none is recorded |
| AccountLifecycle.OnlyPendingIsActivated | src/modules/administrators/domain/activation.service.ts:134-178 | Whatever happens between the checks and the write, only a pending, ready account of somebody else becomes active and no other row changes |
| AccountLifecycle.ActivationAnswers | src/modules/administrators/domain/activation.service.ts:49-178 | A pending, ready account of somebody else, still so inside the transaction, does become active, and each refusal names what stood in the way |
| AccountLifecycle.NeverSlipsIff | src/modules/admin-identity/repositories/admin-account.repository.ts:231-278 | Over any run, an account is active only if somebody let it in exactly when every reinstatement before that finds `pending` recorded |
| AccountLifecycle.StatusIsProvenance | src/modules/admin-identity/repositories/admin-account.repository.ts:231-312 | With suspensions in turn: active, or suspended from active, exactly when created active or activated; activated at most once; `activated_by` names who did |
| AccountLifecycle.SuspensionRestoresIff | src/modules/administrators/domain/administrator.service.ts:561-572 | Suspending and reinstating restores the status exactly when the account was not suspended already |
| AccountLifecycle.SuspendedTwiceSlips | src/modules/administrators/domain/administrator.service.ts:561-572 | Suspended twice and reinstated, a pending account is active and activated by nobody |
| AccountLifecycle.ReinstatedUnsuspendedSlips | src/modules/administrators/domain/administrator.service.ts:603-614 | Reinstating a pending account that was never suspended makes it active |
| AccountLifecycle.ReinstatedTwiceDemotes | src/modules/admin-identity/repositories/admin-account.repository.ts:265-275 | The recorded status outlives reinstatement: a second one returns an activated account to pending |
| DetailScrub.ScrubValue | src/core/errors/detail-policy.ts:119-131 | The recursive loops build the scrubbed value |
| DetailContents.ScrubTells | src/core/errors/detail-policy.ts:119-131 | A path leads somewhere exactly when it did, names no denied key and is at most four deep; there a leaf is unchanged, a container at the last level is the mark, an array keeps its length and an object exactly its surviving keys, in order |
| DetailScrub.ScrubIsIdempotent | src/core/errors/detail-policy.ts:119-131 | Scrubbing twice is scrubbing once |
| DetailScrub.PickKeys | src/core/errors/detail-policy.ts:133-143 | The listed keys, each scrubbed one level down |
| DetailPolicy.ProjectDetails | src/core/errors/detail-policy.ts:157-219 | The branch per category, the empty case, the failing serialisation and the size limit |
| DetailSafety.ProjectionIsPresentable | src/core/errors/detail-policy.ts:157-219 | Unmasked: nothing, the truncation marker, or a non-empty object within 8192 characters, four levels and no denied key anywhere |
| DetailContents.ProjectionTells | src/core/errors/detail-policy.ts:199-219 | Unmasked: nothing when the category gives no key of the details, the whole projection when it serialises within 8192 characters, else the mark with the size; the projection has each given key, in order, with what the scrub leaves below it |
| DetailSafety.OnlyListedKeys | src/core/errors/detail-policy.ts:199-206 | Authorization and rate-limit refusals carry only their listed keys |
| DetailSafety.MaskedTellsNothingElse | src/core/errors/detail-policy.ts:163-197 | Masked: details and message are decided by the four upstream fields and the registered text alone |
| DetailContents.MaskedTells | src/core/errors/detail-policy.ts:163-197 | Masked: the two codes that are strings and the two statuses that are numbers arrive under their own names, and nothing else does |
| DetailContents.DeniedIff | src/core/errors/detail-policy.ts:110-117 | A key is denied exactly when its letters and digits, in either case and whatever stands between them, spell a plain denied name |
| DetailSafety.OnlyPlainNamesDeny | src/core/errors/detail-policy.ts:110-117 | A listed name denies some key exactly when it is made of lower-case letters and digits alone |
| DetailSafety.BracketedHeadersAreKept | src/modules/audit/domain/audit-state.ts:33-50 | So three redacted header names, listed with their bracket, are not denied as detail keys |
| OffsetPaging.MongoSortSeparates | src/core/data/mongo-list.ts:30-43 | Every sort document ends in `_id`, so no two documents of a collection tie |
| OffsetPaging.PageLength | src/infra/platform/platform.repository.ts:99-117 | Pages before the last are full, the last holds one to limit documents, later ones are empty |
| OffsetPaging.PagesAreEnough | src/core/http/list-query.ts:61-70 | The page count is the least that holds every document |
| OffsetPaging.PagesPartition | src/infra/platform/platform.repository.ts:99-117 | Whatever arrangement each query returns, pages 1 to ceil(total/limit) concatenate to the sorted collection when nothing ties |
| OffsetPaging.ListEndpointsPartition | src/core/data/mongo-list.ts:17-43 | So they do for every sort `toMongoSort` builds |
| OffsetPaging.SortFollowsRequest | src/core/data/mongo-list.ts:30-43 | The sort built for a request orders by the path of the field it names, downwards exactly after a dash, ties by id in the same direction |
| OffsetPaging.HandSortPartitionsIff | src/modules/admin-identity/repositories/admin-account.repository.ts:171-177 | A hand-written sort pages without loss, whatever the queries do, exactly when no two documents agree on all of its keys |
| OffsetPaging.HandSortsLoseDocuments | src/modules/dual-control/repositories/approval-request.repository.ts:84-92 | So two requests created at one instant, or two administrators of one tier created at one instant, can lose one of them |
| OffsetPaging.PagingPartitionsIff | src/core/data/mongo-list.ts:20-25 | Paging partitions the matched documents for every limit and every choice of arrangements exactly when no two documents tie |
| OffsetPaging.TiesLoseDocuments | src/core/data/mongo-list.ts:20-25 | Without a tiebreak, two tied neighbours and one-document pages lose one of them |
| FeedConservation.StepConserves | src/modules/accounts/read-models/account.dto.ts:728-805 | Each money step changes the feed total by its balance effect plus what it leaves unreported |
| FeedConservation.FeedAccounts | src/modules/accounts/read-models/account.dto.ts:333-338 | Over any run the feed's in minus out changes by the whole balance plus what left it without a row |
| FeedConservation.FeedBalancesIff | src/modules/accounts/read-models/account.dto.ts:333-338 | The two agree exactly on runs where no money comes back from a payout while a debt is owed and no charge without a share takes from pending or available |
| FeedConservation.DebtIsPaidFirst | api-doc/api/money.md:530 | Over any run from such a state nothing is available while a debt is owed: every inflow pays it down first |
| FeedConservation.ReturnedPayoutUnbalances | src/modules/money/domain/transaction-sources.ts:961-978 | A payout that comes back while a debt is owed leaves the feed showing the debt or the payout, whichever is less, too much |
| FeedConservation.UnfiledChargeUnbalances | src/modules/money/domain/transaction-sources.ts:973-979 | A refund charge with no share to file it under lowers the balance and leaves the feed as it was |

## Left out

- Interleavings inside one operation of the authentication service: each is one atomic step. The writes of other administrators and the session cuts that follow them are separate steps, and `AccountLifecycle.Activation` lets other writers run between its checks and its transaction.
- bcrypt, AES-GCM, TOTP and the JWT encoding: verdicts and an injective fingerprint stand for them; nothing is claimed about timing or secrecy.
- IP addresses, user agents, display fields and audit rows: no modelled decision reads them.
- PromScrape.ParsePromText: half of a surrogate pair split by the cut is written as the replacement character, which no rule of the parser tells from it.
- PromScrape.ReportIsAllowlisted: `Number` is an arbitrary function of the value text.
- FeedSources.ListRowsBefore: the status, origin and date-window terms of the ledger and payout filters are absent, as the feed passes none of them.
- FeedWalk.WritersDoNotDisturb: covers rows written at or above the cursor; a row inserted below it, or moved, is outside the promise.
- ServedRoutes.ReachedAsDeclared: about handlers from `defineRoute` at keys the walk finds, whose definition agrees with the declaration there. When all in scope are such is `RawFreeIff` and `AnswersAsDeclaredIff`; `RawTwinEscapes`, `PatternPathEscapes`, `UnreadableMountEscapes` and `SwappedMountsEscape` give a passing server for each that fails.
- ServedRoutes.ServerAnswersAsDeclaredIff: which of two layers answers a request that both match is not modelled.
- AccessComposition.ChainIsExact: CSRF, rate limits and body schemas are verdicts of the request; the audit probe always passes it on.
- RouteManifest.LiteralPrefixIsRecovered: path-to-regexp is not part of this model; a literal prefix is taken to be compiled with a backslash before each slash and dot.
- The audit half of the boot assertions (the audit allowlist and what a route promises to record): declarations only.
- AccountLifecycle.StatusIsProvenance: asks that suspensions hit an account that is not suspended and reinstatements one that is; without that the exact condition is `NeverSlipsIff`.
- Tier rules, dual control, employee readiness and permission grants: `grants` and `ready` are inputs.
- The unused `setStatus` of the account repository: nothing calls it.
- DetailPolicy.ProjectDetails: `JSON.stringify` is an arbitrary length function that may fail; dates, cycles and other non-JSON values are not modelled.
- OffsetPaging.PagesPartition: field values are integers or missing; array values, mixed BSON types, writers between pages and join stages are not modelled.
- `assertInclusionOnly` and `assertReadOnlyPipeline`: shape checks on a pipeline, easy members.
- FeedConservation.FeedAccounts: balances and ledger rows are written by another service; each step moves them as this repository's comments and API guide state (a write-off is at most the debt, a refund becomes debt once nothing is available, payouts and reserves are taken from what is available), and a clawback row's amount is what left pending and available.
- Plan, top-up and credit rows of the feed: field-by-field mapping without a balance to agree with.
- Environment schema, cookies, CORS, health probes, start-up and drain, geo and platform clients, CLI scripts, Zod field schemas, error-code registry: configuration and plumbing.
