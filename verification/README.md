# psina, verified

psina is an authentication service: refresh-token sessions, personal access tokens, OAuth and
wallet sign-in, over a memory or a PostgreSQL store. Its hard part is that every request is
several store calls, and any number of requests interleave. This project models those protocols
in Dafny and proves what they guarantee in every interleaving, together with the text and byte
cores around them. `dafny verify dfyconfig.toml` checks all of it.

## How it is built

- `RefreshStore` states the atomic operations on users and refresh tokens; `MemoryStore.Store` is
  store/memory as a class whose methods are proved to perform exactly those operations.
- `RefreshService` is the machine of `Refresh`, `Logout`, sign-ins and user deletions: each
  request is a program counter, each store call one step, clocks and schedules arbitrary, and a
  request may be lost at any point. `RefreshTheorems` holds what every run guarantees.
  `RefreshProgress` what a request let run on by itself comes to from any reachable state.
  `AuthService.Service` is the same code as straight-line methods on the memory store, each with
  its outcome written out and shown to walk one path of that machine.
- `PostgresRefresh` is store/postgres statement by statement, row by row, with share and
  exclusive row locks and READ COMMITTED statement snapshots. `PostgresRefinement` proves that it
  refines the atomic operations; `PostgresService` puts the service on top of it, so the
  guarantees carry over to committed rows. `PostgresProgress` and `PostgresServiceProgress` show
  that no call and no request is ever stuck.
- `PatStore`, `PatTheorems`, `PostgresPat` and `PostgresPatProgress` treat the cap on personal access tokens and the
  pruning of expired ones, in both stores, against a shadow table that is never pruned.
- `Challenges`, `OAuthSignIn` and `WalletSignIn` are the single-use gates and the first sign-in
  races, OAuth's with password registrations among them; `OAuthRuns` holds the concrete runs and
  what each request comes to by itself.
- `Evm`, `Address`, `Config` and `ClientIp` are the pure cores: EIP-4361 messages and EIP-191
  frames, EIP-55 addresses, configuration flattening, and the forwarded-for walk. `Sets` and
  `Strings` are shared helpers.

Times are integers on one scale. New hashes, nonces and ids are fresh. Hash functions, signature
checks, IP parsing and time formatting are parameters about which nothing is assumed (Keccak has
32 bytes).

Where the code and its remarks differ:

- store/postgres/postgres.go:324-325 says that the read after an unmatched UPDATE cannot
  contradict it. It can when the token is issued in between: live, it is then reported as expired
  (`LiveTokenReportedExpired`). It cannot exactly when the presented hash had been stored before
  (`ClassifiedAtomicallyIffStored`). The service refuses missing and expired tokens alike, so to
  its requests nothing changes (`PostgresRunsAreServiceRuns`).
- auth/oauth.go:351-352 names a window in which a rollback loses a link. It is real
  (`WindowLosesALink`), and it is not the only one: a registration whose password save fails
  deletes its user without looking (provider/local/local.go:88-95), and a callback with the same
  verified email may have linked that user by then, for it has no password yet
  (`UndoLosesALink`). Links are lost in these two windows and nowhere else
  (`LinksAreLostExactlyInTheWindows`), and only they let one provider account sign in as two
  users (`SignInsAgreeIffNoHit`, `WindowSplitsAnAccount`, `UndoSplitsAnAccount`). Neither is ever
  hit with auto-link off (`NothingLostWithoutAutoLink`).
- CreatePAT reads its clock before the store call, so the clocks of one user's creates may reach
  the store out of order, and a prune then shows (`ClockRunsBack`); `VerifyDiffersExactly` and
  `DecisionDiffersExactly` say exactly when, for either store.

## Model

| member | source | states |
|---|---|---|
| `RefreshService.InvAlways` | auth/service.go:298-402 | In every state of every run: keys are row hashes; owners exist; every parent is a stored root of the same user, so depth is at most one; a token is revoked exactly when rotated or ended; a member carries EndedAt exactly when its root does; every in-flight copy agrees with the store on owner, family, expiry and rotation. |
| `RefreshService.InvStep` | auth/service.go:298-402 | Each step, a lost request included, keeps that invariant. |
| `RefreshTheorems.EndedSessionsStayDead` | auth/service.go:335-343 | Once a family's root is ended or gone, no later state of the run has an unrevoked member of it, also when a refresh rotated before the logout and saves after it. |
| `RefreshTheorems.ReportedEndIsFinal` | auth/service.go:373-402 | After a reported logout, or a reuse whose revocation did not fail, the family is dead in that and all later states. |
| `RefreshTheorems.TokensOnlyAge` | store/memory/memory.go:212-269 | A stored token keeps owner, family and expiry while stored, is never un-revoked, and its rotation stamp, once set, never changes. |
| `RefreshTheorems.RootSpeaksForFamily` | store/memory/memory.go:170-181 | In every reachable state the root alone has EndedAt exactly when the family summary says the session ended. |
| `RefreshTheorems.GrantedExactlyDuplicates` | auth/service.go:311-370 | From the refused rotation on, a replay has been granted if and only if the leeway is positive, the token was unexpired and rotated within the leeway of the call's clock, on either side, and the request read its family at an instant at which the session was stored and not ended and no member had been rotated later. |
| `RefreshTheorems.LateReplayEndsTheFamily` | auth/service.go:311-318 | Theft detection (section 5.2.2.3 of RFC 6819): a replay outside the window, which in strict mode is every replay, is never exchanged; from then on its request is revoking the family or has ended as reuse, and if the revocation did not fail the family has no live member in that or any later state. |
| `RefreshTheorems.ExpiredReplayIsReuse` | auth/service.go:351-354 | An expired token gets no grace: its replay ends as reuse, however recently it was rotated. |
| `RefreshTheorems.LeewayAccounting` | auth/service.go:298-343 | For any leeway and interleaving, live members plus refreshes between exchange and save never exceed one plus the duplicates granted to the family. |
| `RefreshTheorems.StrictModeIsLinear` | auth/service.go:128-137 | With leeway zero or less, live members plus refreshes in flight are at most one per family. |
| `RefreshTheorems.OneSuccessorPerToken` | auth/service.go:302-323 | One token yields at most one pair plus one per duplicate granted of that token; in strict mode at most one. |
| `RefreshProgress.LiveTokenCanBeExchanged` | auth/service.go:298-343 | In every reachable state every live, unexpired token can be exchanged: its refresh stamps it with its own clock and stores a live token of the same user and session, good for seven days. |
| `RefreshProgress.ExchangeCanFinish` | auth/service.go:327-343 | A refresh past its rotation or grant whose user is stored and whose session is open can end with a pair. |
| `RefreshProgress.DuplicateCanBeServed` | auth/service.go:311-343 | A replay inside the window, of the latest rotation of an open session, can be served another pair. |
| `RefreshProgress.SignInCanFinish` | auth/service.go:560-580 | A stored user can always be given a new session. |
| `RefreshProgress.SessionCanBeEnded` | auth/service.go:393-402 | Whoever holds a stored token can end its session: every member is revoked and carries an end, every other row is untouched. |
| `AuthService.Service.Refresh` | auth/service.go:298-343 | The whole outcome in terms of the store before: an unknown or expired token is refused and nothing changes; a live one is stamped as rotated and exchanged for a live token of its session, or reported as reuse if the session is not open; a revoked one is exchanged again exactly if it is a duplicate, and otherwise its whole family is ended. The machine reaches the same outcome and store by its own steps. |
| `AuthService.Service.Rotate` | auth/service.go:299-304 | The first store call leaves the request where the machine's rotation step does, for each of the four answers. |
| `AuthService.Service.Replay` | auth/service.go:311-323 | A duplicate is exchanged; anything else ends the whole family, row by row. |
| `AuthService.Service.IsDuplicateRefresh` | auth/service.go:350-370 | Answers yes exactly when the leeway is positive, the token is unexpired and was rotated within it on either side, no member of its family has ended, and none was rotated later. |
| `AuthService.Service.RevokeReusedFamily` | auth/service.go:373-380 | Ends the whole family, row by row, and reports reuse, as the machine does. |
| `AuthService.Service.Exchange` | auth/service.go:327-343 | Refused exactly without the user; reuse exactly if the session is not open; otherwise a pair, whose token is stored live for seven days under the family root, and nothing else changes. |
| `AuthService.Service.Conclude` | auth/service.go:304-343 | What each of the four answers to the rotation comes to. |
| `AuthService.Service.IssueTokens` | auth/service.go:560-580 | Stores the successor if the session is open and reports reuse if not. |
| `AuthService.Service.Logout` | auth/service.go:393-402 | Ends the family of whichever member was presented, row by row; an unknown token changes nothing. |
| `AuthService.CallsContinueRuns` | auth/service.go:298-402 | Such a call continues any run of the machine, so the run theorems apply after it. |
| `RefreshStore.SummaryIsUnique` | store/memory/memory.go:233-251 | A family summary is determined by the table. |
| `PostgresRefinement.AnswersAreAtomic` | store/postgres/postgres.go:232-372 | A statement that answers its call changes the committed tables exactly as the atomic operation with that answer, except the read after an unmatched UPDATE when it meets a live row, which changes nothing; every other statement leaves the tables alone. |
| `PostgresRefinement.InvStep` | store/postgres/postgres.go:251-272 | Every statement, single row and rollback keeps the lock invariant: locks exclude each other, a joining successor's root stays stored and open, and a revocation or deletion at work has seen every row it must change. |
| `PostgresRefinement.CommittedTablesAreAtomic` | store/postgres/postgres.go:352-371 | In every interleaving of statements the committed tables move only by the atomic operations answered. |
| `PostgresRefinement.NoLiveChildUnderEndedRoot` | store/postgres/postgres.go:251-272 | No committed state holds an unrevoked child under an ended root, whatever calls are made. |
| `PostgresRefinement.RowsOnlyAge` | store/postgres/postgres.go:308-318 | In every run a hash once stored is never stored anew, and while its row is there its expiry stands and it is never un-revoked. |
| `PostgresRefinement.StoredIsClassifiedAtomically` | store/postgres/postgres.go:308-334 | Whatever rotations, revocations and deletions come between UPDATE and read, a token that had been stored is classified as the atomic rotation does at an instant of the call. |
| `PostgresRefinement.UnstoredMayBeMisread` | store/postgres/postgres.go:324-333 | Every run that ends in an unmatched UPDATE for a hash never stored has a continuation in which the read answers what the atomic rotation answers at no instant of the call. |
| `PostgresRefinement.ClassifiedAtomicallyIffStored` | store/postgres/postgres.go:308-334 | For every run that ends in an unmatched UPDATE: in all its continuations the read answers as the atomic rotation does at some instant of the call, if and only if the presented hash had been stored before the UPDATE. |
| `PostgresRefinement.LiveTokenReportedExpired` | store/postgres/postgres.go:324-333 | A run from the empty database in which a token is issued between the two statements and, live, is reported as expired, which the atomic rotation answers at no instant of the call. |
| `PostgresProgress.EveryCallCanBeAnswered` | store/postgres/postgres.go:232-372 | From every reachable state a call in flight can be answered, as the atomic operation does on the tables committed now, if the others roll back; only a rotation whose UPDATE missed a token since stored may be answered as expired. |
| `PostgresProgress.EveryCallCanBeMade` | store/postgres/postgres.go:232-372 | And every call can be made and is then answered atomically; a save, under a hash never stored before. |
| `PostgresService.PostgresRunsAreServiceRuns` | store/postgres/postgres.go:232-372 | Every run of the service over PostgreSQL statements is, to its requests, a run over atomic operations, also when a hash is presented before or while its token is saved: a misread rotation counts as the refusal of a missing token, at the UPDATE. |
| `PostgresService.ViewIsFaithful` | auth/service.go:302-310 | In that run the rows and the history are the real ones, and every request is where it is, or already refused while it waits to be refused. |
| `PostgresService.CallsAreFresh` | auth/service.go:560-580 | The service meets the store's freshness condition by itself: what it saves was never stored and is saved once, and it revokes only families that were stored. |
| `PostgresService.PostgresKeepsSessions` | auth/service.go:298-402 | On PostgreSQL too, ended sessions stay dead and the accounting bounds hold, of the committed rows. |
| `PostgresService.PostgresIssuesOneSuccessor` | auth/service.go:302-323 | On PostgreSQL too, one token yields at most one pair plus one per duplicate granted of it; in strict mode at most one. |
| `PostgresService.PostgresEndsAreFinal` | auth/service.go:373-402 | On PostgreSQL too, after a reported logout or completed reuse revocation no later committed state has a live member of the family. |
| `PostgresService.PostgresDetectsTheft` | auth/service.go:311-318 | On PostgreSQL too, a replay outside the window ends as reuse, and with the revocation done the family stays dead. |
| `PostgresServiceProgress.EveryRequestCanGoOn` | auth/service.go:298-402 | From every reachable state of the service on PostgreSQL a request about to call the store can be answered atomically and goes where that answer leads. |
| `MemoryStore.Store.Create` | store/memory/memory.go:59-89 | Succeeds exactly when the id is new and no user has that non-empty email; keeps the email index the inverse of the users' non-empty emails. |
| `MemoryStore.Store.GetByEmail` | store/memory/memory.go:105-115 | Finds exactly the user with that email, and nobody for the empty one. |
| `MemoryStore.Store.Delete` | store/memory/memory.go:135-155 | Of refresh tokens, PATs, OAuth and wallet identities exactly the rows of other users stay, unchanged; the user and its password go, challenges stay; keeps every key, owner and index invariant. |
| `MemoryStore.Store.SaveRefreshToken` | store/memory/memory.go:160-189 | Refused exactly under a missing or ended root, then for a missing user, else stored and nothing else changed. |
| `MemoryStore.Store.GetRefreshToken` | store/memory/memory.go:199-209 | Finds exactly the stored token. |
| `MemoryStore.Store.RotateRefreshToken` | store/memory/memory.go:212-230 | Missing, revoked, expired and live tokens get their four answers; only a live one changes, revoked and stamped with the call's clock. |
| `MemoryStore.Store.GetRefreshFamily` | store/memory/memory.go:233-251 | The loop, in any order, finds whether some member has ended and the greatest rotation stamp. |
| `MemoryStore.Store.RevokeTokens` | store/memory/memory.go:254-269 | Every member is revoked and carries an end, its earlier one if it had one; every other row is untouched. |
| `MemoryStore.Store.EndMembers` | store/memory/memory.go:258-266 | The loop alone, in any order, leaves exactly the family-revoked table. |
| `MemoryStore.Store.SavePAT` | store/memory/memory.go:274-297 | Stores the token unless its user is missing or its hash is taken. |
| `MemoryStore.Store.SavePATLimited` | store/memory/memory.go:302-324 | Refused for a missing user, then if the user's live tokens reach the limit; exactly the user's expired tokens go, and the new one is stored if neither refusal applies and its hash is free. |
| `MemoryStore.Store.PrunePATs` | store/memory/memory.go:309-319 | Deletes exactly the user's expired tokens and counts exactly the others, in any order. |
| `MemoryStore.Store.DeletePAT` | store/memory/memory.go:360-372 | Deletes one token with that id and owner if there is one, and nothing else; with unique ids that is all there are. |
| `MemoryStore.Store.TouchPAT` | store/memory/memory.go:375-384 | Changes only the last-used time of that token. |
| `MemoryStore.Store.SaveOAuthIdentity` | store/memory/memory.go:389-407 | Stores a link for a stored user under a free natural key, else reports which failed. |
| `MemoryStore.Store.SaveWalletIdentity` | store/memory/memory.go:444-462 | The same for wallets. |
| `MemoryStore.Store.SavePasswordHash` | store/memory/memory.go:556-567 | Stores a hash only for a stored user. |
| `MemoryStore.Store.SaveChallenge` | store/memory/memory.go:501-519 | Exactly the challenges not expired at `now` stay, unchanged, and the new one is stored. |
| `MemoryStore.Store.GetChallenge` | store/memory/memory.go:523-538 | Returns an unexpired challenge, drops an expired one, changes nothing else. |
| `MemoryStore.Store.DeleteChallenge` | store/memory/memory.go:541-551 | Removes the challenge and says whether it was there. |
| `PatTheorems.CapHolds` | auth/service.go:507-513 | After any interleaving of store calls no user holds more stored tokens than the limit (50 when unset), expired ones included. |
| `PatTheorems.AcceptedExactly` | auth/service.go:420-445 | After any history a token speaks for a user at t if and only if that user created it and it was saved, nothing has revoked it or deleted the user since, t is not past its expiry, and, where there is a limit, no later create of the user read a clock past it. |
| `PatTheorems.StoredExactly` | store/memory/memory.go:274-372 | A store that never prunes holds exactly the tokens that were saved and not revoked or deleted with their user since. |
| `PatTheorems.PrunedExactly` | store/memory/memory.go:309-323 | After any history the store lacks, of what a store that never prunes holds, exactly the tokens for which a later create of their owner read a clock past their expiry. |
| `PatTheorems.VerifyDiffersExactly` | auth/service.go:420-435 | A verification at t differs from one over the store that never prunes if and only if a later create of the token's owner read a clock past its expiry while t is not past it. |
| `PatTheorems.DecisionDiffersExactly` | store/memory/memory.go:309-323 | A limit decision differs from counting the unexpired tokens of the store that never prunes if and only if the tokens lost to a create with a later clock make up for the room found. |
| `PatTheorems.IdsAreUnique` | store/memory/memory.go:360-372 | With fresh ids no two stored tokens ever share one, so a deletion by id finds at most one. |
| `PatTheorems.PruningIsInvisible` | store/memory/memory.go:309-323 | If no user's creates carry a clock that runs back, every limit decision is the one a separate store that never prunes makes on the same history, and every verification not before the owner's creates answers as over that store. |
| `PatTheorems.ClockRunsBack` | auth/service.go:481-516 | A history of one user's creates that read 0, 20 and 5, after which a token that expires at 10 is refused at 5 and a third token is let in over a limit of two. |
| `PostgresPat.CapHoldsOnPostgres` | store/postgres/postgres.go:407-466 | In every interleaving of statements the committed tokens of a user stay within the limit; an insertion commits what the atomic operation does at that instant, and a refusal is one the atomic operation makes at that instant. |
| `PostgresPat.CommitIsAtomic` | store/postgres/postgres.go:430-452 | A commit leaves exactly the pruned table, with the new token if it was inserted, as of the instant of the commit. |
| `PostgresPat.DecisionIsAtomic` | store/postgres/postgres.go:435-451 | The counted condition accepts or refuses as the atomic operation does at that instant. |
| `PostgresPat.PrunedExactly` | store/postgres/postgres.go:430-452 | In every interleaving of statements the committed table lacks, of one that is never pruned, exactly the tokens during whose life a create of their owner whose clock read past their expiry has committed. |
| `PostgresPat.VerifyDiffersExactly` | store/postgres/postgres.go:430-433 | A verification at t differs from one over the table that is never pruned if and only if such a create has committed while t is not past the expiry. |
| `PostgresPat.DecisionDiffersExactly` | store/postgres/postgres.go:435-451 | The counted condition differs from counting the unexpired rows of the table that is never pruned if and only if the lost tokens make up for the room found. |
| `PostgresPat.PruningIsInvisibleOnPostgres` | store/postgres/postgres.go:430-451 | If no user's creates carry a clock that runs back, in every interleaving of statements every decision that commits is the one a separate database that never prunes makes at the same instant, and every verification not before the owner's commits answers as over it. |
| `PostgresPatProgress.CreateCanCommit` | store/postgres/postgres.go:407-452 | From every reachable state a create of a stored user can commit if the others roll back: the user's expired tokens go, every other row stays, and the new token is there exactly if the user held fewer live ones than the limit. |
| `PostgresPatProgress.CreateCanBegin` | store/postgres/postgres.go:407-452 | And such a create of a token with a new hash can be begun. |
| `Challenges.ChallengesPassOnce` | auth/oauth.go:250-283 | No two requests ever pass a gate with the same challenge. |
| `Challenges.OnlyPassingBurns` | auth/wallet.go:194-224 | An unexpired challenge disappears only by the delete of a request that had passed every check for it. |
| `Challenges.RefusedBurnsNothing` | auth/oauth.go:250-283 | The steps of a request that ends up refused leave every unexpired challenge in place. |
| `Challenges.PassingMatchesOrigin` | auth/wallet.go:208-215 | Who passes the OAuth gate holds the secret of a flow started for the same provider and redirect; who passes the wallet gate signed the message issued for the same chain and address; both before expiry. No challenge of one kind passes the other gate. |
| `Challenges.HonestRequestsPass` | auth/wallet.go:194-224 | In every run, of a request that matches the origin of its stored challenge, well formed and in time at both clocks, the read passes every check and the delete passes the gate. |
| `Challenges.HonestRequestCanPass` | auth/oauth.go:250-283 | From every reachable state such a request can pass, and burns exactly its own challenge. |
| `Challenges.WalletCanBeChallenged` | auth/wallet.go:123-161 | A wallet of a configured chain can always be given a challenge, whose row is written out. |
| `Challenges.FlowCanBeStarted` | auth/oauth.go:180-195 | A flow of a configured provider can always be started, with the joined binding and the hash of the browser's secret in its row. |
| `Challenges.BindingsCollideIff` | auth/oauth.go:440-444 | Two provider names share a binding for some redirects if and only if they are equal or one continues the other after a newline. |
| `Challenges.BindingsAreInjective` | auth/oauth.go:440-444 | For provider names without a newline the joined binding determines provider and redirect. |
| `WalletSignIn.SignInsConverge` | auth/wallet.go:228-293 | No concurrent sign-in fails; all with one wallet return the same user; at most one reports a new user, none if the wallet was linked; a finished sign-in's created user remains exactly if it reported it as new. |
| `WalletSignIn.SomeoneIsNew` | auth/wallet.go:228-265 | Once a sign-in with an unlinked wallet has finished, some finished sign-in reports that user as new. |
| `WalletSignIn.LinkedWalletSignsIn` | auth/wallet.go:228-235 | By itself, a sign-in with a linked wallet returns its user and changes nothing, and creates no user. |
| `WalletSignIn.NewWalletIsCreated` | auth/wallet.go:236-257 | With an unlinked one it creates a user and links it. |
| `WalletSignIn.LoserReturnsTheWinner` | auth/wallet.go:259-265 | After losing the race it takes its user back and returns the winner's. |
| `OAuthSignIn.NoUserIsStranded` | auth/oauth.go:287-366 | Without storage failures, the user an ended request created is deleted or can sign in: after a callback it has an identity, after a registration its password. |
| `OAuthSignIn.CreatedIsReportedByCreator` | auth/oauth.go:330-342 | A finished sign-in reports its user as created exactly when it created that user, so at most one does. |
| `OAuthSignIn.LinksAreLostExactlyInTheWindows` | auth/oauth.go:346-366 | In every run of callbacks and registrations, storage failures and lost requests included, a step removes an identity link if and only if it deletes a user to which a link landed in a window: between the check and the delete of a callback's rollback, or between the create and the delete of a registration whose password was not saved. |
| `OAuthSignIn.RollbacksKeepLinks` | auth/oauth.go:346-366 | With check and delete as one step no sign-in's rollback ever removes a link, whatever fails; links are lost exactly to undone registrations. |
| `OAuthSignIn.SignInsAgreeIffNoHit` | auth/oauth.go:287-344 | A sign-in that finishes after another with the same provider account returns the same user if and only if neither kind of window was hit for that user between the two. |
| `OAuthSignIn.SignInsAgreeIffNoUndo` | auth/oauth.go:287-344 | With check and delete as one step, if and only if no registration's undo met a link to that user in between. |
| `OAuthRuns.WindowLosesALink` | auth/oauth.go:351-352 | A concrete run from the start in which it does. |
| `OAuthRuns.UndoLosesALink` | provider/local/local.go:83-95 | A concrete run from the empty directory in which a registration's undo removes the link of a finished sign-in, however callbacks roll back. |
| `OAuthSignIn.PasswordAccountsAreLinkedOnlyByRace` | auth/oauth.go:373-391 | A callback is about to link a user it did not create that has a password only if the password was saved between its check and the link. |
| `OAuthRuns.WindowSplitsAnAccount` | auth/oauth.go:346-366 | With auto-link on, a concrete run from the start in which, after a rollback's window, one provider account has signed in as two users. |
| `OAuthRuns.UndoSplitsAnAccount` | provider/local/local.go:83-95 | The same after a registration's undo. |
| `OAuthSignIn.LinksOwnUsersOnly` | auth/oauth.go:376-378 | With auto-link off, every link a run adds is to a user that the callback saving it has created itself. |
| `OAuthSignIn.NothingLostWithoutAutoLink` | auth/oauth.go:346-366 | With auto-link off neither window is ever hit: no link is lost and the sign-ins of one provider account always agree. |
| `OAuthSignIn.UnverifiedOnlyLooks` | auth/oauth.go:297-305 | A callback without a valid, verified email creates no user, and no step of it changes what is stored. |
| `OAuthRuns.LinkedAccountSignsIn` | auth/oauth.go:288-291 | By itself, a callback of a linked account returns its user and changes nothing. |
| `OAuthRuns.UnverifiedIsRefused` | auth/oauth.go:297-305 | One of an unlinked account without a valid, verified email is refused and changes nothing. |
| `OAuthRuns.FreeEmailIsCreated` | auth/oauth.go:307-328 | With a free email it creates a user and links it. |
| `OAuthRuns.TakenEmailIsLinked` | auth/oauth.go:307-328 | With a taken one it links that user, if auto-link is on and the user has no password. |
| `OAuthRuns.TakenEmailIsRefused` | auth/oauth.go:375-391 | And is refused otherwise, and changes nothing. |
| `OAuthRuns.LoserReturnsTheWinner` | auth/oauth.go:330-343 | After losing the race it takes its user back unless that is linked, and returns the winner's, as created exactly if that is its own. |
| `OAuthRuns.FailedLinkIsRolledBack` | auth/oauth.go:330-366 | After a link that failed in storage it takes its user back unless that is linked, and fails. |
| `OAuthRuns.FreeEmailCanRegister` | provider/local/local.go:62-105 | A registration with a free email stores the user and its password. |
| `OAuthRuns.TakenEmailCannotRegister` | provider/local/local.go:62-69 | One with a taken email is refused and changes nothing. |
| `OAuthRuns.FailedRegistrationIsUndone` | provider/local/local.go:88-95 | One whose password is not saved takes its user back. |
| `Evm.BuildMessage` | provider/wallet/evm/evm.go:81-95 | The text of EIP-4361, written out, with the optional statement and expiry; it is also the lines the parser reads, joined by line breaks. |
| `Evm.MessageRoundTrip` | provider/wallet/evm/evm.go:81-95 | A parser recovers every field from the text, for all fields without line breaks. |
| `Evm.FramesAreInjective` | provider/wallet/evm/evm.go:151-154 | The length-prefixed EIP-191 frame determines the message. |
| `Evm.SignedBytesDetermineFields` | provider/wallet/evm/evm.go:81-154 | Equal framed bytes mean equal fields. |
| `Address.Checksum` | provider/wallet/evm/evm.go:158-172 | The in-place loop stays in bounds; character by character, exactly the letters whose half byte of the hash, high half first, is at least 8 are uppercased. |
| `Address.NormalizeIsIdempotent` | provider/wallet/evm/evm.go:61-77 | The canonical form keeps the digits, is itself accepted, and is its own canonical form. |
| `Address.SameAccountIffSameDigits` | provider/wallet/evm/evm.go:61-77 | Two accepted spellings normalize to one address if and only if their digits agree ignoring case. |
| `Address.MistypedIffMixedAndWrong` | provider/wallet/evm/evm.go:57-75 | Forty digits are refused exactly when both letter cases occur and some letter's case is not the one its nibble asks for. |
| `Address.OnlyAddressesAreAccepted` | provider/wallet/evm/evm.go:61-69 | Only 0x with forty hex digits is accepted, and every letter of the result has the case its half byte asks for. |
| `Config.Flattener.Flatten` | cmd/psina/config.go:204-223 | In every visiting order: succeeds if and only if no lowercased leaf path, nulls included, repeats or was spelled before; then exactly the section's leaves were added. |
| `Config.CheckAncestors` | cmd/psina/config.go:192-199 | The loop over keys and dots answers whether no key is a dotted ancestor of another. |
| `Config.LoadConfigFile` | cmd/psina/config.go:178-200 | Loads if and only if no two leaves lowercase to one path and no non-null leaf is a dotted ancestor of another; the result is the file's flat form, without capitals and prefix-free. |
| `Config.PathJoins` | cmd/psina/config.go:204-211 | The path of a leaf is its keys joined by dots. |
| `Config.FlatFormIsUnique` | cmd/psina/config.go:169-177 | A file has at most one flat form, so the result does not depend on the order. |
| `ClientIp.ForwardedFor` | auth/clientip.go:68-78 | The nested loops collect the trimmed, non-empty entries of all lines in order. |
| `ClientIp.HopsAreEntries` | auth/clientip.go:68-78 | Every hop is non-empty, trimmed and without a comma. |
| `ClientIp.PaddedEntryIsRead` | auth/clientip.go:68-78 | An entry is read as it was written, whatever blanks surround it. |
| `ClientIp.Trusted` | auth/clientip.go:57-64 | Answers whether some configured prefix contains the address. |
| `ClientIp.Resolve` | auth/clientip.go:25-55 | The peer if untrusted; behind a trusted peer the rightmost hop that is not a trusted proxy, or the last vouched address if that hop does not parse, or the leftmost if all are trusted; without hops the X-Real-IP or the peer. |
| `ClientIp.ClientIsUnique` | auth/clientip.go:41-54 | That description has one answer. |
| `ClientIp.ClaimsAreIgnored` | auth/clientip.go:41-52 | Entries left of the hop where the walk stops do not change the client. |
| `ClientIp.LineBreaksDoNotMatter` | auth/clientip.go:66-78 | However the header is split across lines, the hops are those of one comma-joined line. |

## Left out

- JWT signing and parsing, SHA-256, Argon2, secp256k1 recovery and the providers' HTTP exchanges: foreign code. `compactSignature` only rearranges bytes.
- Handlers, cookies, audit records, health endpoints, start-up and shutdown: plumbing.
- Password and email validation, PAT name and expiry validation, list sorting, error texts: single checks that would add easy members.
- Creation times, names, scopes and update times of rows: they decide nothing here. The defaulting of a zero CreatedAt is not modelled.
- Sharing of row structs by reference inside the memory store: rows are values, as its copying on every read and write makes them appear.
- Deadlock detection, timeouts, pool behaviour and ambiguous commits of PostgreSQL: a transaction commits, rolls back, or waits.
- PostgreSQL statements for identities and challenges: each is a single statement, taken as atomic.
- User deletion by an embedding program during OAuth and wallet sign-in: in this repository users are deleted only by the rollbacks of `OAuthSignIn` and `WalletSignIn` and by undone registrations, and a wallet's user has no email by which a callback could find it.
- Saving a refresh token under a hash already stored, which fresh hashes rule out: the memory store would overwrite the row, PostgreSQL would refuse it.
- RFC 3339 formatting: times enter a message as their text.
- Unicode: lowercasing and trimming cover ASCII.
- Saturation of time differences at the ends of Go's Duration range.
