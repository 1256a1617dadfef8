# Fulla, verified

A Dafny model of the parts of Fulla, an OAuth 2.0 / OpenID Connect server, whose correctness is a
statement about every run or every input: the token store and its Redis cache, the SQL migration
splitter and pass, organisation succession and consent requests, login lockout and stored password
hashes, the serialised token refresh of the TypeScript client, the API-surface gate, and single-use
authorization codes.

Code that updates state step by step is a class whose methods are proved against functions on its
abstract value; loops are methods with invariants. What the system promises is then proved about
those functions, over whole runs. SQL statements and Lua scripts are atomic steps on maps, a callback
is an event that may arrive in any order the code allows, and what lies outside the code (the clock,
statement failures, random bytes, the key derivation, the effect of a migration statement) is a
parameter of the step or of the run. `dafny verify dfyconfig.toml` checks the whole project.

| file | about |
|---|---|
| `Options`, `Tokens`, `TokenStore`, `TokenRuns`, `TokenLiveness` | the token records; `MemoryTokenRepository`; purging, single redemption and family revocation over runs; what an undisturbed token answers |
| `TokenTiers`, `TokenTierRuns` | `PostgresTokenRepository`'s revocations, statement by statement, against the memory store's; whole runs on either |
| `TokenCodec`, `TokenCache`, `CachedRepository` | the cache's serialisers and script decoder; its asynchronous steps, with the delayed double delete; the repository object, callback by callback |
| `TokenShield`, `TokenStaleness`, `CacheServes` | the revocation shield; bounded staleness of every cache hit; a miss served from the table and then a hit |
| `TokenPairs` | `saveTokenPair` as a protocol of concurrent calls |
| `SqlLexicon`, `SqlSplitter`, `SqlResplit`, `SqlChecker` | the lexical definition, the splitter, re-splitting, and agreement with the second lexer |
| `Migrations` | the all-or-nothing migration pass |
| `Callbacks`, `Succession` | the single-invocation guard; nominations and the three-statement seat swap |
| `ConsentRequests` | the consent-request status machine |
| `Lockout`, `PasswordHash` | the lockout ladder; the stored-hash string |
| `M2MClient`, `M2MHistory` | the promise chain and `authedFetch`; where every token comes from |
| `ApiSkeleton`, `ApiLexemes`, `ApiBodies`, `ApiDeclarations`, `ApiBaseline`, `ApiDiff` | header skeletons, the lexemes of a header, function bodies, what the skeleton keeps, the baseline file, and the drift report |
| `AuthCodes` | authorization codes in memory, Postgres and Redis |

Where a promise does not hold as stated, the code is kept, an input shows the failure, and the exact
condition is proved:

- A cache hit is not always strictly before the token's expiry: the TTL is computed in whole seconds
  and starts when the SET lands (`HitAfterExpiry`, `OutlivesTokenIff`).
- Behind Postgres a revocation through the cache leaves a refresh token alive, and a refused statement
  leaves an access token alive (`RefreshTokenOutlivesRevoke`, `RevokeKillsRowIff`).
- The memory store leaves the refresh token paired with a revoked access token redeemable, Postgres
  does not (`PairedRefreshAfterRevoke`, `TiersRevokeTokenAlike`).
- The memory tier treats an empty family id as a family, Postgres ignores it (`EmptyFamilyExample`,
  `TiersRevokeAlike`).
- The two SQL lexers differ on digit-tagged dollar delimiters (`DigitTagExample`, `TokensAgree`).
- Postgres uses up an authorization code on a mismatched `redirect_uri`, although a comment in the
  Redis tier calls the Postgres semantics authoritative (`MismatchExample`, `PostgresIsStricter`).
- The cache serialisers drop the organisation (`OrganisationLostOnHit`, `AccessRoundTrip`), and codes
  saved in Redis or Postgres lose a challenge method without a challenge and a negative
  authentication time (`ReadBackExample`, `SavedMirrors`).
- A skeleton line can start with two slashes, although a comment in the API gate says it never does,
  and is then lost from the baseline (`OddApostropheExample`, `FreshBaselineIff`).
- A purge can let an access token survive the revocation of its family (`EarlyExpiryIsVisible`,
  `LinkedDiesIff`).

## Model

| member | source | states |
|---|---|---|
| `TokenShield.RevokedForGood` | libs/storage-redis/src/RedisCachedTokenRepository.cc:190-444 | from the start, over every interleaving: any run, a revoke call that takes, any run, the marker's SET, any run, the key's second delete before the marker expires with no stale fill in flight, any run; no request whose lookup executes after the SET, even one made before it, is ever answered with an unrevoked token or an active introspection |
| `TokenShield.RevocationShield` | libs/storage-redis/src/RedisCachedTokenRepository.cc:205-394 | the part after the marker, from any state with a dead row and a live marker, on the hit, miss and Redis-error paths |
| `TokenShield.RevokeKillsRowIff` | libs/storage-postgres/src/PostgresTokenRepository.cc:732-846 | a revoke call leaves the token's rows dead if and only if the backend is the memory store, or each row is absent, dead already, or (access row) found and updated by one of the two statements, (refresh row under the same key) reached by the cascade |
| `TokenShield.EndpointKillsRowIff` | libs/drogon/src/controllers/TokenEndpointController.cc:909-919 | with the revokeRefreshToken the revocation endpoint sends after it, the rows are dead unless the access row lives on because its lookup or both updates were refused |
| `TokenShield.RefreshTokenOutlivesRevoke` | libs/storage-postgres/src/PostgresTokenRepository.cc:747-845 | behind Postgres, revokeAccessToken on a refresh token changes no row: the marker hides it for sixty seconds and then it introspects as active again |
| `TokenShield.MarkerLands` | libs/storage-redis/src/RedisCachedTokenRepository.cc:414-432 | executing the marker's SET gives a marker alive for exactly 60 s and leaves the table untouched |
| `TokenShield.ReachableIsSane` | libs/storage-redis/src/RedisCachedTokenRepository.cc:190-488 | in every reachable state requests are numbered consistently, a request still pending has not been answered, markers are set for 60 s, and every pending second delete was scheduled 50 to 2000 ms after the first |
| `TokenShield.DeadRowStaysDead` | libs/storage-redis/src/RedisCachedTokenRepository.cc:190-488 | no step of any task, and no call on either backend, revives a revoked row that is not issued again |
| `TokenShield.LateFillIsServed` | libs/storage-redis/src/RedisCachedTokenRepository.cc:233-266 | the in-time hypothesis is needed: a stale fill landing with no marker alive is served as an unrevoked token |
| `TokenStaleness.ReachableInv` | libs/storage-redis/src/RedisCachedTokenRepository.cc:190-488 | in every reachable state each access entry, fill and answer stems from a token the wrapped repository returned or saved, each introspection entry, fill and answer from an access row an introspection read or from a refresh token, and every TTL is the lifetime left when it was decided, capped |
| `TokenStaleness.AccessHitIsBounded` | libs/storage-redis/src/RedisCachedTokenRepository.cc:233-266 | a visible access entry decodes to such a token on its thirteen serialised fields, was set less than the maximum TTL ago, and outlives the token by less than the fraction of a second it was decided in plus the time its SET took |
| `TokenStaleness.IntrospectionHitIsBounded` | libs/storage-redis/src/RedisCachedTokenRepository.cc:334-380 | a visible introspection entry is the active answer about an access row the table held when the introspection read it, never about a refresh token, under the same bounds against that row's expiry |
| `TokenStaleness.HitAfterExpiry` | libs/storage-redis/src/RedisCachedTokenRepository.cc:457-488 | hits are not always strictly before expiry: a concrete run serves a token half a second after the table stopped returning it |
| `TokenStaleness.OutlivesTokenIff` | libs/storage-redis/src/RedisCachedTokenRepository.cc:457-488 | for every visible access entry of every reachable state, exactly when it is still visible at or past the expiry: the part of a second gone when its fill was decided plus the time its SET took exceeds the slack the maximum TTL left |
| `TokenCodec.AccessRoundTrip` | libs/storage-redis/src/RedisCachedTokenRepository.cc:33-82 | serialising and deserialising a token gives it back without its organisation; lossless exactly when it has none |
| `TokenCodec.IntrospectionRoundTrip` | libs/storage-redis/src/RedisCachedTokenRepository.cc:84-126 | the same for an introspection answer |
| `TokenCodec.DecodeScript` | libs/storage-redis/src/RedisCachedTokenRepository.cc:139-162 | the reply decoder tells revoked, value and miss apart exactly as the script means them |
| `TokenStaleness.OrganisationLostOnHit` | libs/storage-redis/src/RedisCachedTokenRepository.cc:33-52 | an input that shows the loss: a live token saved with an organisation is served from the cache without it, while either backend returns it |
| `TokenRuns.PurgeIsInvisible` | libs/storage-memory/src/MemoryTokenRepository.cc:45-303 | two runs that differ only in purge calls answer every getAccessToken, getRefreshToken and introspectToken alike forever, and a redemption differs only on an expired token (clock never back, no key both access and refresh, refresh tokens not expiring before their access tokens) |
| `TokenRuns.SweptFamily` | libs/storage-memory/src/MemoryTokenRepository.cc:118-137 | the simulation step through revokeTokenFamily: a live access token is reached through a refresh token that has not been purged |
| `TokenRuns.EarlyExpiryIsVisible` | libs/storage-memory/src/MemoryTokenRepository.cc:118-137 | the expiry assumption is needed: otherwise a purge lets an access token survive the revocation of its family |
| `TokenRuns.RedeemedAtMostOnce` | libs/storage-memory/src/MemoryTokenRepository.cc:95-116 | over every run a refresh token is redeemed at most once per time it was issued |
| `TokenRuns.FamilyStaysDead` | libs/storage-memory/src/MemoryTokenRepository.cc:118-137 | after revokeTokenFamily no refresh token issued earlier in the family is returned, redeemed or active again (section 4.14.2 of RFC 9700) |
| `TokenRuns.LinkedStaysDead` | libs/storage-memory/src/MemoryTokenRepository.cc:118-220 | nor is the access token linked to it (section 2.2 of RFC 7662) |
| `TokenRuns.LinkedDiesIff` | libs/storage-memory/src/MemoryTokenRepository.cc:118-137 | with no assumption on expiries: an access token live when its family is revoked dies exactly when the refresh token linked to it is still stored, that is, not yet purged |
| `TokenTierRuns.RedeemedAtMostOnceOn` | libs/storage-postgres/src/PostgresTokenRepository.cc:499-546 | on either backend, any statements refused, a refresh token is redeemed at most once per time it was issued |
| `TokenTierRuns.FamilyStaysDeadOn` | libs/storage-postgres/src/PostgresTokenRepository.cc:548-592 | on either backend, once the call that kills a family reaches its refresh tokens, none issued earlier is ever returned, redeemed or active again |
| `TokenTierRuns.LinkedStaysDeadOn` | libs/storage-postgres/src/PostgresTokenRepository.cc:548-592 | nor, once it reaches the access tokens too, the access token linked to one |
| `TokenTierRuns.MemberDiesIff` | libs/storage-postgres/src/PostgresTokenRepository.cc:548-592 | a live member dies exactly when the backend is the memory store, or the family id is not empty and the first statement is accepted |
| `TokenTierRuns.MemoryRunIsRun` | libs/storage-memory/src/MemoryTokenRepository.cc:26-303 | on memory these runs are the runs of TokenRuns |
| `TokenTiers.TiersRevokeAlike` | libs/storage-postgres/src/PostgresTokenRepository.cc:548-592 | with no statement refused, the Postgres statements and the memory loop revoke a family alike exactly when the id is not empty or an empty id names nothing alive |
| `TokenTiers.EmptyFamilyExample` | libs/storage-postgres/src/PostgresTokenRepository.cc:548-592 | a live refresh token issued without a family is dead in memory and redeemable in Postgres after the same call |
| `TokenTiers.TiersRevokeTokenAlike` | libs/storage-postgres/src/PostgresTokenRepository.cc:732-846 | the tiers revoke an access token alike exactly when all the Postgres cascade reaches is revoked already and no refresh row is stored under the key unless it carries this very revocation |
| `TokenTiers.PairedRefreshAfterRevoke` | libs/storage-postgres/src/PostgresTokenRepository.cc:764-805 | after an access token is revoked its paired refresh token can still be redeemed in memory and cannot in Postgres |
| `TokenTiers.RefreshKeyIsLeft` | libs/storage-postgres/src/PostgresTokenRepository.cc:841-845 | a key held only as a refresh token is revoked by the memory store and left alone by Postgres, whatever is refused |
| `TokenTiers.PostgresTokenRepository.RevokeAccessToken` | libs/storage-postgres/src/PostgresTokenRepository.cc:732-846 | the callback chain, any of its statements refused: the row is revoked exactly when it was or it is found and one update goes through, a missing row changes nothing, and the cascade is the closed form |
| `TokenTiers.PostgresTokenRepository.RevokePaired` | libs/storage-postgres/src/PostgresTokenRepository.cc:780-805 | by way of the one paired refresh token, its family on the audited path or the pair alone; none or several paired rows cascade nothing |
| `TokenTiers.PostgresTokenRepository.RevokeTokenFamily` | libs/storage-postgres/src/PostgresTokenRepository.cc:548-592 | the two statements of a family, either refused; refresh tokens of other families are unchanged |
| `TokenTiers.RevokeAccessOnlyRevokes` | libs/storage-postgres/src/PostgresTokenRepository.cc:732-846 | whatever is refused, no row is added, removed, un-revoked or changed beyond its revocation marks |
| `TokenStore.MemoryTokenRepository.SaveAccessToken` | libs/storage-memory/src/MemoryTokenRepository.cc:26-43 | stores the token, stamping missing issue and not-before times |
| `TokenStore.MemoryTokenRepository.GetAccessToken` | libs/storage-memory/src/MemoryTokenRepository.cc:45-58 | the token exactly when present, unexpired and unrevoked |
| `TokenStore.MemoryTokenRepository.SaveRefreshToken` | libs/storage-memory/src/MemoryTokenRepository.cc:60-66 | stores the token under its key |
| `TokenStore.MemoryTokenRepository.GetRefreshToken` | libs/storage-memory/src/MemoryTokenRepository.cc:68-81 | the token exactly when present, unexpired and unrevoked |
| `TokenStore.MemoryTokenRepository.RevokeRefreshToken` | libs/storage-memory/src/MemoryTokenRepository.cc:83-93 | marks the token revoked if it is there |
| `TokenStore.MemoryTokenRepository.AtomicRevokeRefreshToken` | libs/storage-memory/src/MemoryTokenRepository.cc:95-116 | compare-and-swap: the value exactly when it was unrevoked, and revoked afterwards |
| `TokenStore.MemoryTokenRepository.RevokeTokenFamily` | libs/storage-memory/src/MemoryTokenRepository.cc:118-137 | the loop revokes exactly the members of the family and their linked access tokens; other families are unchanged |
| `TokenStore.MemoryTokenRepository.IntrospectToken` | libs/storage-memory/src/MemoryTokenRepository.cc:141-220 | access tokens shadow refresh tokens; inactive when revoked or expired, otherwise the fields UndisturbedAccess and UndisturbedRefresh list |
| `TokenStore.MemoryTokenRepository.IncrementIntrospectCount` | libs/storage-memory/src/MemoryTokenRepository.cc:222-232 | counts on the access row only |
| `TokenStore.MemoryTokenRepository.RevokeAccessToken` | libs/storage-memory/src/MemoryTokenRepository.cc:236-267 | the rows of the key in both tables are revoked, with the time and the revoker |
| `TokenStore.MemoryTokenRepository.PurgeExpired` | libs/storage-memory/src/MemoryTokenRepository.cc:271-303 | both sweeps remove exactly the rows whose expiry is past |
| `TokenPairs.SavesAreExactlyOnceAndAtomic` | libs/storage-postgres/src/PostgresTokenRepository.cc:83-312 | for any number of concurrent saves in any callback order from any tables: a settled call was answered exactly once and an unsettled one not at all; answered true, both rows are stored, column by column, and its own; otherwise it owns no entry in either table; every other visible row is an initial one, unchanged |
| `TokenPairs.TrueOnlyIfCommitReported` | libs/storage-postgres/src/PostgresTokenRepository.cc:130-168 | a call is answered true exactly when its commit was reported, even if a commit callback arrives after an error |
| `TokenPairs.PostgresTokenRepository.SaveTokenPair` | libs/storage-postgres/src/PostgresTokenRepository.cc:83-98 | a missing client answers false at once; otherwise the call waits for its transaction |
| `TokenPairs.PostgresTokenRepository.InvokeOnce` | libs/storage-postgres/src/PostgresTokenRepository.cc:130-142 | only the first answer reaches the caller |
| `TokenPairs.PostgresTokenRepository.OnTransaction` | libs/storage-postgres/src/PostgresTokenRepository.cc:154-168 | no transaction answers false; otherwise the access insert is sent |
| `TokenPairs.PostgresTokenRepository.OnAccessReply` | libs/storage-postgres/src/PostgresTokenRepository.cc:260-309 | a failed access insert rolls back and answers false; a successful one sends the refresh insert |
| `TokenPairs.PostgresTokenRepository.OnRefreshReply` | libs/storage-postgres/src/PostgresTokenRepository.cc:170-258 | a failed refresh insert rolls both rows back and answers false |
| `TokenPairs.PostgresTokenRepository.OnCommit` | libs/storage-postgres/src/PostgresTokenRepository.cc:164-168 | a reported commit makes both rows visible and answers true; a failed one leaves neither |
| `TokenPairs.PostgresTokenRepository.OnLateCommit` | libs/storage-postgres/src/PostgresTokenRepository.cc:164-168 | a commit callback after the end changes no table and no answer already given |
| `SqlSplitter.SplitSqlStatements` | apps/server/src/SchemaManager.cc:15-163 | the index loop computes Split for every input |
| `SqlSplitter.SplitMeetsLexicon` | apps/server/src/SchemaManager.cc:15-163 | every reading of the text as strings, comments, dollar bodies and plain characters, cut at the semicolon tokens, trimmed, and rid of blanks and lone semicolons, is the list Split returns |
| `SqlSplitter.TokenizationExists` | apps/server/src/SchemaManager.cc:15-163 | every text has such a reading |
| `SqlLexicon.TokenIsUnique` | apps/server/src/SchemaManager.cc:26-127 | and only one: at each position the lexical definition admits exactly the token the scanner takes |
| `SqlLexicon.TokenLengthIsToken` | apps/server/src/SchemaManager.cc:26-127 | what the scanner takes is a token by that definition, also when the text ends inside it |
| `SqlSplitter.ChunksLoseNothing` | apps/server/src/SchemaManager.cc:15-163 | the chunks concatenate to the input |
| `SqlSplitter.ScanLineComment` | apps/server/src/SchemaManager.cc:26-38 | the loop stops where the line comment token ends |
| `SqlSplitter.ScanBlockComment` | apps/server/src/SchemaManager.cc:39-56 | the loop stops where the block comment token ends |
| `SqlSplitter.ScanQuoted` | apps/server/src/SchemaManager.cc:57-81 | the loop stops where the literal ends, doubled quotes staying inside |
| `SqlSplitter.ReadOpener` | apps/server/src/SchemaManager.cc:84-106 | finds a dollar-quote delimiter exactly when the lexicon has one |
| `SqlSplitter.FindDelimiter` | apps/server/src/SchemaManager.cc:111-121 | the inner loop stops at the delimiter's next occurrence or the end |
| `SqlSplitter.ScanDollarBody` | apps/server/src/SchemaManager.cc:106-124 | the loop stops after the matching delimiter |
| `SqlResplit.ResplitIsFixedPoint` | apps/server/src/SchemaManager.cc:26-162 | joining the emitted statements with newlines and splitting again returns the same list, for every script |
| `SqlResplit.StatementSplitsToItself` | apps/server/src/SchemaManager.cc:26-162 | each emitted statement alone splits to itself, the last even when unterminated |
| `SqlResplit.SplitIsWellCut` | apps/server/src/SchemaManager.cc:128-162 | every statement is trimmed, all but the last end at a semicolon token, and the last may be unterminated |
| `SqlChecker.TokensAgree` | tools/migration-check/migration_check.py:95-129 | the checker and the runtime splitter cut a script into the same tokens if and only if no token starts with a digit-tagged dollar delimiter |
| `SqlChecker.PiecesAreStrippedChunks` | tools/migration-check/migration_check.py:95-133 | then the semicolons strip_sql leaves correspond one to one, in order, to the statement-ending ones, each piece being the stripped chunk |
| `SqlChecker.CheckerSeesTheChunks` | tools/migration-check/migration_check.py:95-133 | split_statements of the stripped text lists the runtime splitter's chunks, in order, each stripped and without its semicolon, the unterminated last one included, leaving out only those that are then blank |
| `SqlChecker.NoDollarDigit` | tools/migration-check/migration_check.py:95-129 | a script with no '$' directly before a digit meets that condition |
| `SqlChecker.DigitTagExample` | tools/migration-check/migration_check.py:119-125 | on `$1$;$1$` the runtime executes two statements where the checker sees one blank |
| `SqlChecker.StripSql` | tools/migration-check/migration_check.py:95-129 | the Python loop computes Strip for every input |
| `Migrations.Database.Migrate` | apps/server/src/SchemaManager.cc:176-287 | a failed pass changes nothing; a successful one is exactly the pending non-empty files applied in order; a statement refused at its turn fails the pass; without outside failures it succeeds whenever the files can be applied |
| `Migrations.Database.ApplyMigration` | apps/server/src/SchemaManager.cc:407-463 | empty files are skipped; success executes every statement of the file and records it once; a statement refused at its turn, or an aborted transaction, never succeeds |
| `Migrations.Database.CountPending` | apps/server/src/SchemaManager.cc:289-326 | the number of files whose version is not recorded, -1 when the check fails |
| `Migrations.SuccessfulPass` | apps/server/src/SchemaManager.cc:176-287 | success records exactly the earlier versions plus those of the non-empty files, earlier records unchanged, the statements executed in strictly ascending version order |
| `Migrations.SecondPass` | apps/server/src/SchemaManager.cc:176-326 | a second pass executes nothing and changes nothing, and what is still counted pending is exactly the empty, never recorded files |
| `Migrations.AppliedScript` | apps/server/src/SchemaManager.cc:407-463 | applying files executes the concatenation of their statement lists |
| `Migrations.AppliedDistinct` | apps/server/src/SchemaManager.cc:407-463 | no version is recorded twice |
| `Succession.OrgSuccessionRepository.EffectSuccession` | libs/storage-postgres/src/OrgSuccessionRepository.cc:489-626 | one answer on every path, also with a late commit callback; true exactly when no step was refused and this nominee's nomination is pending; then the nominee is the only owner, earlier owners are admins, no seat is lost, other organisations and nominations are unchanged and one nomination is consumed; false leaves every table as it was |
| `Succession.OrgSuccessionRepository.DemoteAndMark` | libs/storage-postgres/src/OrgSuccessionRepository.cc:31-97 | gives up, with one false answer, exactly when a statement fails or the guarded update matches no row |
| `Succession.OrgSuccessionRepository.UpsertNomination` | libs/storage-postgres/src/OrgSuccessionRepository.cc:106-145 | the pending row becomes this nomination, or a new one is it; every other nomination and every seat is unchanged, and a refused statement changes nothing |
| `Succession.OrgSuccessionRepository.WithdrawPending` | libs/storage-postgres/src/OrgSuccessionRepository.cc:452-487 | exactly the pending rows of the organisation are gone, and their number is returned |
| `Succession.SwapSeatSucceeds` | libs/storage-postgres/src/OrgSuccessionRepository.cc:31-97 | the three statements together do what a reported success promises, row by row |
| `Succession.RunKeepsIndex` | libs/storage-postgres/src/OrgSuccessionRepository.cc:106-145 | at most one pending nomination per organisation after every run |
| `Succession.AcceptanceNeedsNominationInForce` | libs/storage-postgres/src/OrgSuccessionRepository.cc:489-626 | over every run an acceptance succeeds exactly when no step is refused and some earlier call nominated this user and nothing since replaced, withdrew or consumed it |
| `Succession.OwnerNeverLost` | libs/storage-postgres/src/OrgSuccessionRepository.cc:489-626 | an organisation that has an owner never loses its last one, and nobody loses a seat |
| `Succession.LastAcceptorOwns` | libs/storage-postgres/src/OrgSuccessionRepository.cc:489-626 | whoever accepted last is the only owner |
| `Succession.AcceptedForGood` | libs/storage-postgres/src/OrgSuccessionRepository.cc:31-97 | each success leaves exactly one more accepted nomination, and accepted rows never change or go away |
| `Lockout.LockoutRateBound` | libs/storage-postgres/src/PostgresIdentityRepository.cc:421-471 | over every run of sequential attempts from a fresh account, the k-th counted wrong password since the last success comes after the first by at least 60 (k - 5) seconds for k from 5 to 10, 300 + 300 (k - 10) to 15, 1800 + 1800 (k - 15) to 20, and 10800 + 3600 (k - 20) from there; any two are at least the locks between them apart |
| `Lockout.CheckedRateBound` | libs/identity/src/AuthService.cc:288-361 | when the counter updates reach the row, the bound holds for every wrong password checked |
| `Lockout.UnstoredAttempts` | libs/identity/src/AuthService.cc:337-342 | without that there is none: with updates that never reach the row any number of wrong passwords is checked at one instant |
| `Lockout.LockoutRateBoundIsTight` | libs/storage-postgres/src/PostgresIdentityRepository.cc:421-471 | for every k one run meets every one of these bounds with equality |
| `Lockout.RunIsTracked` | libs/identity/src/AuthService.cc:288-361 | the counter never falls below the failures counted, and the lock in force covers the last of them |
| `Lockout.LocksFrom20` | libs/storage-postgres/src/PostgresIdentityRepository.cc:437-452 | the first n locks of the ladder add up to 10800 + 3600 (n - 19) seconds for n >= 19 |
| `Lockout.Account.ValidateUser` | libs/identity/src/AuthService.cc:288-361 | accepts exactly an unlocked, policy-allowed, correct attempt; attempts rejected as locked or by the legacy policy leave the account as it was |
| `Lockout.Account.IncrementFailedLogins` | libs/storage-postgres/src/PostgresIdentityRepository.cc:421-471 | one more failure, and a lock from now of 60, 300, 1800 or 3600 seconds from the 5th, 10th, 15th and 20th, none before |
| `Lockout.Account.ResetFailedLogins` | libs/storage-postgres/src/PostgresIdentityRepository.cc:379-419 | back to a fresh account |
| `M2MClient.OneRequestInFlight` | clients/ts/src/auth.ts:435-463 | under any interleaving at most one token request is in flight (section 4.4 of RFC 6749) |
| `M2MClient.FailureDoesNotBlock` | clients/ts/src/auth.ts:443-461 | whatever settled before, the oldest unsettled caller's job can start or be answered |
| `M2MClient.ChainDrains` | clients/ts/src/auth.ts:443-461 | and each such step is one fewer, so every queued caller is answered in boundedly many steps |
| `M2MClient.QueuedCallersShareOneFetch` | clients/ts/src/auth.ts:435-463 | with a token cached and nothing in flight, any number of queued and new non-forced callers are served that token and none makes a request while the clock is outside the skew |
| `M2MClient.FetchServes` | clients/ts/src/auth.ts:446-458 | every successful fetch with no forced caller queued leaves such a state |
| `M2MClient.AuthedFetchIsBounded` | clients/ts/src/auth.ts:470-476 | an authedFetch makes at most two resource requests and one forced refresh; the first request carries the token its job settled with, the second, only after that refresh, the token of the forced job, which made a request of its own |
| `M2MClient.Client.GetAccessToken` | clients/ts/src/auth.ts:435-443 | returns the cached token exactly when not forced and outside the skew, otherwise appends a job behind the chain |
| `M2MClient.Client.RunJob` | clients/ts/src/auth.ts:443-448 | re-checks the cache and otherwise issues the request |
| `M2MClient.Client.OnReply` | clients/ts/src/auth.ts:450-460 | a reply settles the job with its own token, which is cached until the start of that fetch plus the lifetime; a failure settles the job as rejected and nothing else; no other job changes |
| `M2MClient.Client.AuthedFetch` | clients/ts/src/auth.ts:470-472 | starts with the cached token or awaits a job |
| `M2MClient.Client.OnToken` | clients/ts/src/auth.ts:471-475 | the awaited token settling sends the first or the second request with that token; a failed job ends the fetch |
| `M2MClient.Client.OnResponse` | clients/ts/src/auth.ts:473-475 | a forced refresh after a first 401, otherwise the fetch ends with exactly this status; no request is sent |
| `ApiDiff.DiffSnapshots` | tools/api-diff/api_diff.py:405-421 | no drift is reported if and only if the header sets match and each header has the same multiset of lines, after reclassification too; it is breaking if and only if a header is gone or some common header has a line the pairing keeps as removed; each header is listed with exactly its removed and added lines; and when not breaking no line was lost without its comma form appearing |
| `ApiDiff.ExtractDefaultedParamAppends` | tools/api-diff/api_diff.py:354-402 | computes the pairing; removed lines are divided, copy for copy, into kept and excused ones; an excused line has its comma form among the added, everything else added at its indentation is a defaulted parameter or another comma form, and some added line is always left to report |
| `ApiDiff.HeaderBreaksIff` | tools/api-diff/api_diff.py:354-402 | a header is not breaking exactly when each line gone from it, in sorted order, has its comma form among the new lines, and the new lines at its indentation not claimed before are some, all defaulted parameters |
| `ApiDiff.HeaderFacts` | tools/api-diff/api_diff.py:405-421 | a header is reported unchanged exactly when its line multisets are equal, and every lost line is reported removed |
| `ApiDiff.SortLines` | tools/api-diff/api_diff.py:330-336 | the one sorted sequence of the lines |
| `ApiDiff.OneCommaExcusesTwo` | tools/api-diff/api_diff.py:379-398 | the pairing does not count copies of the comma form: a last parameter line and the same line with its closing parenthesis are both excused by one added line |
| `ApiDiff.DiffHeader` | tools/api-diff/api_diff.py:410-420 | the lines reported for one header are exactly the removed and added ones; none when the line multisets are equal, and every lost line |
| `ApiDiff.Unmatched` | tools/api-diff/api_diff.py:330-336 | the multiset difference, copy for copy, in sorted order |
| `ApiDiff.FreshBaselineIsClean` | tools/api-diff/api_diff.py:209-275 | a baseline rendered from the headers and parsed back is the snapshot itself, so the gate is clean, when no header line ends inside a literal and no skeleton line starts with the header mark |
| `ApiDiff.FreshBaselineIff` | tools/api-diff/api_diff.py:209-275 | for any headers, the baseline written from them reads back as their snapshot if and only if no skeleton line is taken for a comment or a header mark |
| `ApiDiff.OddApostropheExample` | tools/api-diff/api_diff.py:247-252 | the literal condition is needed, against the comment there: after one odd apostrophe a comment line is kept in the skeleton, written to the baseline and not read back |
| `ApiBaseline.RoundTripIff` | tools/api-diff/api_diff.py:247-275 | a snapshot survives rendering and parsing if and only if none of its lines starts like a comment or a header mark |
| `ApiBaseline.RenderRoundTrip` | tools/api-diff/api_diff.py:247-275 | then the version is read back as well, whatever the header order |
| `ApiBaseline.ParseBaseline` | tools/api-diff/api_diff.py:261-275 | the parsing loop computes ParseLines of the split text |
| `ApiSkeleton.SkeletonIsPlain` | tools/api-diff/api_diff.py:75-217 | when no header line ends inside a literal, no skeleton line is empty, holds a line break or starts like a comment |
| `ApiSkeleton.CommentsKeepLayout` | tools/api-diff/api_diff.py:75-133 | comment stripping keeps the length, keeps or blanks each character, and keeps newlines exactly where they were |
| `ApiSkeleton.StrippedHasNoComments` | tools/api-diff/api_diff.py:75-133 | stripping a second time changes nothing |
| `ApiSkeleton.StripCommentsLoop` | tools/api-diff/api_diff.py:75-133 | the scanner loop computes StripComments, which StripsExactlyComments and KeptExactlyOutsideComments characterise |
| `ApiSkeleton.StripBodiesLoop` | tools/api-diff/api_diff.py:158-206 | the loop computes StripBodies, which BodyGone and BodilessIsKept characterise |
| `ApiSkeleton.IsFunctionBody` | tools/api-diff/api_diff.py:136-155 | the backward scan reaches a ')' over trivia only |
| `ApiBodies.ReachesParenIff` | tools/api-diff/api_diff.py:136-155 | a brace opens a function body exactly when only skipped characters and scope operators stand between it and some earlier closing parenthesis |
| `ApiBodies.BodyEditsAreInvisible` | tools/api-diff/api_diff.py:158-206 | a function body the scan reaches, balanced with its literals closed, can be replaced by any other such body without changing the stripped text |
| `ApiBodies.BodyGone` | tools/api-diff/api_diff.py:182-202 | such a body is replaced by one semicolon and the scan goes on right behind it |
| `ApiSkeleton.SkeletonOf` | tools/api-diff/api_diff.py:209-217 | the whole pipeline computes Skeleton, which DeclarationsOnly and DeclarationShows characterise |
| `ConsentRequests.OnePendingPerRequester` | libs/storage-postgres/src/OrgConsentRequestRepository.cc:34-70 | at most one pending row per organisation, client and requester after every run |
| `ConsentRequests.RequestsAreConserved` | libs/storage-postgres/src/OrgConsentRequestRepository.cc:286-406 | over every run the counts returned to callers satisfy filed = pending + approved + rejected + withdrawn, and the table holds exactly the approved and rejected rows they add up to |
| `ConsentRequests.DecidedForGood` | libs/storage-postgres/src/OrgConsentRequestRepository.cc:286-360 | a decided row never changes or goes away |
| `ConsentRequests.IdentityIsFixed` | libs/storage-postgres/src/OrgConsentRequestRepository.cc:286-406 | a row keeps its organisation, client and requester, and a withdrawn id is never used again |
| `ConsentRequests.ApprovalLeavesNonePending` | libs/storage-postgres/src/OrgConsentRequestRepository.cc:286-360 | approving and then resolving the others leaves a pending row for that organisation and client exactly when one of the two statements was refused while it had a row to decide |
| `ConsentRequests.OrgConsentRequestRepository.FileRequest` | libs/storage-postgres/src/OrgConsentRequestRepository.cc:34-70 | inserts one pending, undecided row exactly when no pending row has this organisation, client and requester, and says so |
| `ConsentRequests.OrgConsentRequestRepository.DecidePending` | libs/storage-postgres/src/OrgConsentRequestRepository.cc:286-322 | exactly when the row is still pending it gets the status, the decider and the reason and keeps its identity; no other row changes |
| `ConsentRequests.OrgConsentRequestRepository.ResolveOtherPending` | libs/storage-postgres/src/OrgConsentRequestRepository.cc:324-360 | approves, in the decider's name, exactly the other pending rows of the organisation and client and counts them; every other row is unchanged |
| `ConsentRequests.OrgConsentRequestRepository.WithdrawOwnPending` | libs/storage-postgres/src/OrgConsentRequestRepository.cc:362-406 | deletes exactly the requester's own pending row in that organisation |
| `AuthCodes.MemoryRedeemsOnce` | libs/storage-memory/src/MemoryGrantRepository.cc:54-97 | over any sequence of consume and mark-used calls a code is redeemed at most once, and only with the recorded redirect_uri when there is one (sections 4.1.2 and 4.1.3 of RFC 6749) |
| `AuthCodes.PostgresIsStricter` | libs/storage-postgres/src/PostgresGrantRepository.cc:149-264 | for codes saved in both tiers, every Postgres success is a success in memory at the same call, with the value as Postgres stored it; conversely exactly if the code had not been presented before |
| `AuthCodes.PostgresSuccessIsRedisSuccess` | libs/storage-redis/src/RedisGrantRepository.cc:48-118 | saved in both, every Postgres success before expiry is a Redis success with the same value |
| `AuthCodes.PostgresRedeemsOnce` | libs/storage-postgres/src/PostgresGrantRepository.cc:186-264 | in Postgres, too, a code is redeemed at most once |
| `AuthCodes.MismatchExample` | libs/storage-postgres/src/PostgresGrantRepository.cc:203-229 | after a mismatched redirect_uri the right one still redeems in memory but not in Postgres |
| `AuthCodes.RedisAnswersAsMemory` | libs/storage-redis/src/RedisGrantRepository.cc:179-329 | before expiry memory and Redis give identical answers to every call of every sequence, although the scripts' rewrite rounds the key's life or drops its expiry |
| `AuthCodes.RedisRedeemsOnce` | libs/storage-redis/src/RedisGrantRepository.cc:221-329 | a Redis code is redeemed at most once, past its expiry too |
| `AuthCodes.SavedMirrors` | libs/storage-redis/src/RedisGrantRepository.cc:48-118 | a code saved in both tiers reads back alike exactly when it has no challenge method without a challenge and no negative authentication time |
| `AuthCodes.ReadBackExample` | libs/storage-redis/src/RedisGrantRepository.cc:56-90 | inputs on which memory answers differently from Redis and Postgres: a challenge method without a challenge, and an authentication time before the epoch |
| `AuthCodes.MemoryState` | libs/storage-memory/src/MemoryGrantRepository.cc:54-97 | a code is used exactly if it was or an earlier call marked it or consumed it with a matching redirect_uri; nothing else changes |
| `AuthCodes.PostgresState` | libs/storage-postgres/src/PostgresGrantRepository.cc:149-264 | in Postgres exactly if it was or any earlier call named it |
| `AuthCodes.MemoryGrantRepository.ConsumeAuthCode` | libs/storage-memory/src/MemoryGrantRepository.cc:66-97 | answer and new table of one consume call, checks in the order the tier makes them |
| `AuthCodes.MemoryGrantRepository.MarkAuthCodeUsed` | libs/storage-memory/src/MemoryGrantRepository.cc:54-64 | the code, if there, is used and nothing else changes |
| `AuthCodes.PostgresGrantRepository.ConsumeAuthCode` | libs/storage-postgres/src/PostgresGrantRepository.cc:186-264 | answer and new table of one consume call, checks in the order the tier makes them |
| `AuthCodes.PostgresGrantRepository.MarkAuthCodeUsed` | libs/storage-postgres/src/PostgresGrantRepository.cc:149-184 | the code, if there, is used and nothing else changes |
| `AuthCodes.RedisGrantRepository.ConsumeAuthCode` | libs/storage-redis/src/RedisGrantRepository.cc:221-329 | answer and new table of one consume call, checks in the order the tier makes them |
| `AuthCodes.RedisGrantRepository.MarkAuthCodeUsed` | libs/storage-redis/src/RedisGrantRepository.cc:179-219 | the code, if there, is used and nothing else changes |
| `PasswordHash.VerifyAcceptsEqualKeys` | libs/identity/src/AuthService.cc:160-227 | for every password, candidate, 16-byte salt and key derivation, the string hashPassword builds is not a legacy digest and verifyPassword accepts a candidate exactly when its derived key equals the original's (section 5.2 of RFC 8018) |
| `PasswordHash.VerifyPbkdf2` | libs/identity/src/AuthService.cc:183-227 | for any stored string: accepted exactly when it has four fields, a readable iteration count, and the derived key equals the decoded one |
| `PasswordHash.SameBytes` | libs/identity/src/AuthService.cc:220-226 | the or of all xors is zero exactly when the byte strings are equal |
| `PasswordHash.HexRoundTrip` | libs/identity/src/AuthService.cc:24-57 | hex reads back to the bytes it was printed from and holds no separator |
| `PasswordHash.DecimalRoundTrip` | libs/identity/src/AuthService.cc:178-212 | every non-negative int is read back by stoi as to_string printed it |
| `PasswordHash.FieldsOfPrinted` | libs/identity/src/AuthService.cc:179-200 | splitting the printed string at '$' gives back its four fields |
| `PasswordHash.BytesToHex` | libs/identity/src/AuthService.cc:24-35 | the loop computes ToHex |
| `PasswordHash.HexToBytes` | libs/identity/src/AuthService.cc:37-57 | the loop computes FromHex: odd tails dropped, non-digits read as zero |
| `PasswordHash.SplitFields` | libs/identity/src/AuthService.cc:193-200 | the getline loop yields the non-empty '$' fields in order |
| `PasswordHash.HashPassword` | libs/identity/src/AuthService.cc:160-181 | the printed string, or the failure when the key has the wrong size |
| `CachedRepository.RedisCachedTokenRepository.RevokeForGood` | libs/storage-redis/src/RedisCachedTokenRepository.cc:190-444 | the shield on the object: after any schedule around a revoke that takes, the marker's SET and the timely second delete, every answer to a request whose lookup executed after the SET is harmless |
| `CachedRepository.RedisCachedTokenRepository.Run` | libs/storage-redis/src/RedisCachedTokenRepository.cc:190-488 | the object executes any schedule of calls, callbacks and failures as the step functions say, so what is proved of every run holds of it |
| `CachedRepository.RedisCachedTokenRepository.GetAccessToken` | libs/storage-redis/src/RedisCachedTokenRepository.cc:190-208 | a new request number that no answer carries; nothing is answered or stored yet |
| `CachedRepository.RedisCachedTokenRepository.IntrospectToken` | libs/storage-redis/src/RedisCachedTokenRepository.cc:285-310 | the same for an introspection |
| `CachedRepository.RedisCachedTokenRepository.RevokeAccessToken` | libs/storage-redis/src/RedisCachedTokenRepository.cc:400-408 | the row is dead exactly when the wrapped repository revokes it; no cache entry changes before the callback |
| `CachedRepository.RedisCachedTokenRepository.SaveAccessToken` | libs/storage-redis/src/RedisCachedTokenRepository.cc:449-457 | exactly this row is written; no cache entry changes before the callback |
| `CachedRepository.RedisCachedTokenRepository.FillEntry` | libs/storage-redis/src/RedisCachedTokenRepository.cc:236-261 | a SET is sent exactly when lifetime is left, for a positive time within both that and the maximum; nothing is visible before it executes |
| `CachedRepository.RedisCachedTokenRepository.InvalidateWithDoubleDelete` | libs/storage-redis/src/DelayedDoubleDelete.cc:59-91 | one delete at once and one scheduled 50 to 2000 ms later, whatever delay is configured |
| `CachedRepository.RedisCachedTokenRepository.OnAccessReply` | libs/storage-redis/src/RedisCachedTokenRepository.cc:209-232 | under a visible marker the answer is no token whatever is cached; else a readable entry is the answer; else nothing is answered and the table is read |
| `CachedRepository.RedisCachedTokenRepository.OnAccessRead` | libs/storage-redis/src/RedisCachedTokenRepository.cc:233-267 | nobody is answered and nothing stored by the read, which finds a token exactly when the row is there and, in memory, live; on a dead row it finds nothing harmful |
| `CachedRepository.RedisCachedTokenRepository.OnAccessAnswer` | libs/storage-redis/src/RedisCachedTokenRepository.cc:233-267 | the caller gets exactly what the read found; a fill follows exactly on the miss path for a token with lifetime left |
| `CachedRepository.RedisCachedTokenRepository.OnIntroReply` | libs/storage-redis/src/RedisCachedTokenRepository.cc:303-333 | under a visible marker the answer is inactive whatever is cached; else a readable entry; else the table is read |
| `CachedRepository.RedisCachedTokenRepository.OnIntroRead` | libs/storage-redis/src/RedisCachedTokenRepository.cc:334-380 | nobody is answered and nothing stored by the read, and on a dead row it is not active |
| `CachedRepository.RedisCachedTokenRepository.OnIntroAnswer` | libs/storage-redis/src/RedisCachedTokenRepository.cc:334-346 | the caller gets exactly what the read found; it becomes a candidate for the cache exactly when active and on the miss path |
| `CachedRepository.RedisCachedTokenRepository.OnExistsReply` | libs/storage-redis/src/RedisCachedTokenRepository.cc:346-356 | the answer stays a candidate exactly when an access entry is visible |
| `CachedRepository.RedisCachedTokenRepository.OnIntroFill` | libs/storage-redis/src/RedisCachedTokenRepository.cc:350-375 | its SET is sent exactly when it has lifetime left |
| `CachedRepository.RedisCachedTokenRepository.OnSaved` | libs/storage-redis/src/RedisCachedTokenRepository.cc:457-488 | the access entry is warmed exactly when the token has lifetime left |
| `CachedRepository.RedisCachedTokenRepository.OnRowRevoked` | libs/storage-redis/src/RedisCachedTokenRepository.cc:408-442 | the marker for 60 s is sent first, then a delete and a timer for each positive key; no key changes yet |
| `CachedRepository.RedisCachedTokenRepository.OnSet` | libs/storage-redis/src/RedisCachedTokenRepository.cc:246-258 | the entry expires its TTL after this instant; every other key, the table and the answers are unchanged |
| `CachedRepository.RedisCachedTokenRepository.OnDelete` | libs/storage-redis/src/DelayedDoubleDelete.cc:31-57 | the key is no longer visible; every other key, the table and the answers are unchanged |
| `CachedRepository.RedisCachedTokenRepository.OnTimer` | libs/storage-redis/src/DelayedDoubleDelete.cc:76-91 | nothing before it is due, then the second delete is sent |
| `CachedRepository.RedisCachedTokenRepository.OnRedisError` | libs/storage-redis/src/DelayedDoubleDelete.cc:31-57 | answers nobody and stores nothing: a failed lookup reads the table and will not fill, a delete is retried exactly once, a failed SET is lost |
| `TokenLiveness.UndisturbedAccess` | libs/storage-memory/src/MemoryTokenRepository.cc:141-220 | over every run: an access token issued unrevoked and since neither revoked, reissued nor linked to a family that was killed is active exactly while now <= expiresAt, with every field of the answer as issued, and getAccessToken returns it as issued, uses counted, exactly while now < expiresAt |
| `TokenLiveness.UndisturbedRefresh` | libs/storage-memory/src/MemoryTokenRepository.cc:68-220 | the same for a refresh token, what getRefreshToken returns for it and that it can be redeemed until it expires |
| `TokenLiveness.PurgeIsExact` | libs/storage-memory/src/MemoryTokenRepository.cc:271-303 | a purge removes exactly the rows whose expiry is past and touches no other |
| `Lockout.LocksAre` | libs/storage-postgres/src/PostgresIdentityRepository.cc:437-452 | the locks earned before the k-th failure add up to the spacing of its rung, for every k |
| `Lockout.AccountIsHistory` | libs/storage-postgres/src/PostgresIdentityRepository.cc:379-471 | with updates stored, the account holds the number of wrong passwords since the last success, and the lock the last of them earned, 60, 300, 1800 or 3600 seconds, from the moment it was written |
| `Migrations.PassChain` | apps/server/src/SchemaManager.cc:407-463 | a successful pass has a chain of schemas from the one before to the one after, one link per statement of the pending files in order, each the effect of that statement on the schema before it |
| `Migrations.RefusedAt` | apps/server/src/SchemaManager.cc:443-446 | a statement that exec refuses on the schema the statements before it lead to, wherever it stands, makes the list refused |
| `Migrations.RefusedPassFails` | apps/server/src/SchemaManager.cc:458-462 | pending files whose statements are refused at some turn cannot be applied |
| `M2MHistory.CacheIsLastReply` | clients/ts/src/auth.ts:456-458 | over every run the cached token is that of the last successful reply, and it expires at the start of that fetch plus the reply's lifetime |
| `M2MHistory.NoReplyNoToken` | clients/ts/src/auth.ts:434-458 | a token is cached exactly if some reply succeeded, and then its request had been started |
| `M2MHistory.CallersGetTheReply` | clients/ts/src/auth.ts:443-459 | over every run a job that made a request settles with the answer to its own request, and one that did not with the token of the last successful reply before it started |
| `M2MHistory.RepliesReachTheJob` | clients/ts/src/auth.ts:450-459 | every reply settles the job it answers, with its token or as a failure |
| `M2MHistory.RequestsExactlyWhenNeeded` | clients/ts/src/auth.ts:443-447 | a job makes a request exactly when it is forced, or no token was received, or the last one is within the skew of its expiry when it starts |
| `M2MHistory.SendsAtOnceExactlyWhenGood` | clients/ts/src/auth.ts:435-442 | a fetch waits for no token exactly when the last one received is still outside the skew when it is called |
| `M2MHistory.CachedTokenIsSent` | clients/ts/src/auth.ts:470-472 | and then its first request carries the token of the last successful reply before the call |
| `M2MHistory.FinishedWithLastResponse` | clients/ts/src/auth.ts:470-476 | a fetch that ends returns the status of its last response, a 401 only from the retry, or fails because the token it awaited last was refused |
| `ApiLexemes.StripsExactlyComments` | tools/api-diff/api_diff.py:75-133 | for every reading of a header as comments, literals and single characters, stripping is that reading with the comments blanked and everything else as it stands |
| `ApiLexemes.ReadingExists` | tools/api-diff/api_diff.py:75-133 | every text has such a reading |
| `ApiLexemes.KeptExactlyOutsideComments` | tools/api-diff/api_diff.py:75-133 | position by position: a character is unchanged exactly when it lies outside every comment or is a blank or a newline, and otherwise a blank |
| `ApiLexemes.CommentlessIsKept` | tools/api-diff/api_diff.py:75-133 | a header without comments is returned as it is |
| `ApiDeclarations.BodilessIsKept` | tools/api-diff/api_diff.py:158-206 | from one reached position to another with no function body opening between, every character is kept |
| `ApiDeclarations.BodilessTextIsKept` | tools/api-diff/api_diff.py:158-206 | a text in which no function body opens is unchanged |
| `ApiDeclarations.CutsAtBreak` | tools/api-diff/api_diff.py:212-213 | the line splitting cuts at every kind of break, with CR LF as one, and loses nothing else |
| `ApiDeclarations.NormalizeIsSpaced` | tools/api-diff/api_diff.py:214-214 | a normalised line is the words of the line with one blank between neighbours |
| `ApiDeclarations.KeptInOrder` | tools/api-diff/api_diff.py:212-217 | lines are kept in order, each as its words, blank ones left out |
| `ApiDeclarations.DeclarationsOnly` | tools/api-diff/api_diff.py:209-217 | the skeleton of a header without comments and bodies is its lines, normalised |
| `ApiDeclarations.DeclarationShows` | tools/api-diff/api_diff.py:209-217 | in any header, a line without literal or brace that lies outside comments and is reached outside bodies is in the skeleton, normalised, unless it is blank |
| `ApiDiff.ParamShapedIff` | tools/api-diff/api_diff.py:386-390 | an added line counts as a parameter beside a removed one exactly when it is not its comma form, starts with the same blanks, and goes on with no bracket that closes or opens |
| `ApiDiff.CommaFormIs` | tools/api-diff/api_diff.py:345-383 | the comma form of a parameter line, closing parenthesis on it or not, is the line up to there with one comma |
| `CacheServes.MissReadsTheTable` | libs/storage-redis/src/RedisCachedTokenRepository.cc:205-267 | from any state, a live token neither cached nor marked is answered with the row, all of it in memory and its seven mapped columns in Postgres, and the SET that caches it is sent |
| `CacheServes.HitAfterFill` | libs/storage-redis/src/RedisCachedTokenRepository.cc:205-232 | once that SET has executed, a read any time before the entry expires is answered from the cache, the same token without its organisation, and the table is not read |
| `CacheServes.MissDescribesTheRow` | libs/storage-redis/src/RedisCachedTokenRepository.cc:303-346 | from any state, the introspection of a live token neither cached nor marked answers with the row's fields and becomes a candidate for the cache |
| `CacheServes.CandidateIsCached` | libs/storage-redis/src/RedisCachedTokenRepository.cc:346-375 | a candidate whose access entry is visible and whose lifetime is left gets its SET |
| `CacheServes.IntroHitAfterFill` | libs/storage-redis/src/RedisCachedTokenRepository.cc:303-333 | and the next introspection before the entry expires is answered from it |
| `ConsentRequests.RowsComeFromTheRun` | libs/storage-postgres/src/OrgConsentRequestRepository.cc:34-360 | over every run from an empty table each row was filed by a call for its organisation, client and requester, names no decider while pending, and once settled carries the status, decider and reason of a call that settled it |
| `Succession.UpsertRows` | libs/storage-postgres/src/OrgSuccessionRepository.cc:106-145 | after a nomination its row is in force, in place of the pending one or new, and no other row has changed |
| `AuthCodes.RewriteKeepsLifetime` | libs/storage-redis/src/RedisGrantRepository.cc:179-219 | a used code keeps its lifetime to within half a second, loses its expiry exactly with less than half a second left, and no other key changes |
| `AuthCodes.MemoryRedeemsIff` | libs/storage-memory/src/MemoryGrantRepository.cc:66-97 | over every sequence memory redeems a code exactly when it is known and unused, the redirect_uri is the recorded one or none is recorded, and no earlier call marked it or presented it with one that would do; the caller gets it as saved |
| `AuthCodes.PostgresRedeemsIff` | libs/storage-postgres/src/PostgresGrantRepository.cc:186-264 | Postgres exactly when, besides, no earlier call named the code at all |
| `PasswordHash.AcceptsPrinted` | libs/identity/src/AuthService.cc:183-227 | a string stored with any iteration count up to the int maximum is checked with that count: accepted exactly when the derived key equals the stored one |
| `PasswordHash.MalformedIsRefused` | libs/identity/src/AuthService.cc:202-214 | a stored string with any other number of fields, or whose count does not start like a number, is refused |
| `PasswordHash.StoiReads` | libs/identity/src/AuthService.cc:206-214 | the count is read past blanks and a sign up to the first character that is no digit, and refused out of range |
| `PasswordHash.HexAt` | libs/identity/src/AuthService.cc:24-35 | byte k is printed as its two nibbles, high one first |
| `PasswordHash.HexDigits` | libs/identity/src/AuthService.cc:24-57 | the digits are the sixteen of lower-case hex, and upper case reads alike |
| `SqlChecker.StripKeepsPlainText` | tools/migration-check/migration_check.py:95-129 | every plain character comes through in order; literals become an empty literal, dollar bodies a blank, comments nothing |
| `SqlResplit.ChunkIsStatement` | apps/server/src/SchemaManager.cc:128-162 | a chunk is its trimmed text between blanks, and exactly that text is emitted unless it is empty or a lone semicolon |
| `ApiDeclarations.LastLine` | tools/api-diff/api_diff.py:212-213 | a text without a break is its one line, and the empty text has none |
| `PasswordHash.OtherReadsZero` | libs/identity/src/AuthService.cc:37-57 | a character that is no hex digit reads as zero |
| `PasswordHash.NumberOf` | libs/identity/src/AuthService.cc:206-214 | one more digit is ten times the number so far plus that digit |
| `AuthCodes.RedisRedeemsIff` | libs/storage-redis/src/RedisGrantRepository.cc:221-329 | Redis exactly when the code is there, unused and not expired, the redirect_uri is the recorded one or none is recorded, and every earlier call on it came after the expiry or with a wrong one |
| `ApiDeclarations.LiteralsAgree` | tools/api-diff/api_diff.py:125-181 | comment stripping and body stripping end every literal at the same place, escapes included |
| `PasswordHash.DigestIsLegacy` | libs/identity/src/AuthService.cc:129-133 | a stored string without separators is taken for a legacy digest |

## Left out

- Drogon, Postgres and Redis client calls, logging, metrics and JSON text: statements and scripts are atomic steps, JSON is a map of fields.
- Cryptography: SHA-256, PBKDF2 and random bytes are parameters; the legacy SHA-256 branch of verifyPassword and its case folding are not modelled.
- Reader replicas: reads and writes see the same table, so replication lag in front of the cache is not captured.
- The cached repository without a Redis client, which forwards every call to the wrapped repository.
- A save whose wrapped insert failed still warms the cache in the code; the cache model lets every save and every refresh-token update succeed, and a table read never fails. Postgres rows take the same stamps as the memory store's.
- Statement-level interleaving in Postgres: each succession transaction, and each whole revocation with its cascade, is one step, any of whose statements may be refused. A commit reported as failed is taken not to have happened.
- Migrations.Database.Migrate: the listing is given already parsed and in the order scanMigrationFiles produces; the file-name pattern and the integer conversion of versions are not modelled. Migration statements do not touch the tracking table, and an aborted transaction never reports a commit.
- SqlChecker.StripSql: the word class of the regular expression is restricted to ASCII, because `\w` in the Python pattern is Unicode while the C++ scanner's classes are bytes; the rule checks on the listed statements are not modelled.
- Lockout.LockoutRateBound: counts the wrong passwords whose counter update reached the row (CheckedRateBound is the case where all do, UnstoredAttempts shows the rest has no bound); the 32-bit counter is unbounded here, and attempts are handled one at a time.
- ConsentRequests.OrgConsentRequestRepository.DecidePending: takes the two statuses the organisation service passes, not an arbitrary string.
- TokenPairs.PostgresTokenRepository.SaveTokenPair: rows hold the columns the INSERTs name; the schema defaults of the others are not modelled.
- ApiDiff.DiffSnapshots: the header names are sets, without the order they are printed in; the defaulted-parameter regular expression is an arbitrary predicate.
- ApiBaseline.RenderRoundTrip: the two banner lines are any comment lines that are not the version line.
- AuthCodes.RedisAnswersAsMemory: calls before expiry, with no failed Redis command; saving and reading a code without consuming it are covered only by SavedMirrors.
- M2MClient.AuthedFetchIsBounded: a token reply without a numeric expires_in, and header merging, are not modelled.
- Authorization transactions: placeholders in Postgres, and keyed differently by the Redis scripts that save and consume them.
- The refresh-token methods of RedisTokenRepository, which do nothing by design, and the client, consent, MFA, WebAuthn and social repositories, whose methods are single-row reads and writes without a protocol between them.
- Token issuance and scope decisions, HTTP endpoints, report generation, configuration, start-up, frontends and generated clients.
