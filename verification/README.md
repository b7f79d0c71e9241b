# Kanidm: the Unix cache, its web handles, its load-test log and its home tasks

This project models four parts of Kanidm that keep state and are hard to get right by
reading them, and proves what they promise over all inputs and whole runs.

1. **The Unix resolver's cache** (`kanidm_unix_int/src/db.rs`, `cache.rs`). Three tables
   (accounts, groups, memberships) written by hand-made upserts inside transactions, and
   above them a state machine (Online, Offline, OfflineNextCheck), expiry times, a bounded
   memory of identifiers the server did not know, and offline authentication.
   `KeyedTable`, `CacheTables`, `Memberships`, `CacheDb`, `NegativeCache`, `CacheSpec`,
   `CacheLayer`, `CacheEffects`, `CacheAnswers`, `CacheRuns`, `TableHistory`,
   `MembershipRuns`, `NegativeRuns`, `ConnectivityRuns`, `AuthRuns`.
2. **The glue of the compiled web UI** (`kanidmd_web_ui/pkg/kanidmd_web_ui.js`). A table of
   object handles with its free list threaded through the array, a borrow stack, closure
   reference counts, and strings passed as UTF-8 with an ASCII fast path.
   `HandleSlab`, `ClosureLifetime`, `StringPassing`.
3. **The load-test log preprocessor** (`orca/src/preprocess.rs`). `AscendingSeq`,
   `OrcaRecords`, `OrcaConnections`, `OrcaAccess`.
4. **The home-directory task protocol** (`kanidm_unix_int/src/daemon.rs`,
   `tasks_daemon.rs`, `client_sync.rs`). `HomeTasks`, `HomeDirectory`,
   `HomePaths`, `HomeRedelivery`, `ResponseReader`.

## How it is built

The cache is a class over a database connection and a least-recently-used map. Each method
is proved equal to a function of `CacheSpec`, for some choice of storage errors: any SQL
statement may fail, and a ghost result says which transaction did. The clock, the server's
replies and the shell check are inputs (`Env`). A run is a sequence of states and events,
with arbitrary operations, replies, errors and restarts; the run theorems are about every
run. Foreign-key enforcement is a boolean `fk`, because the code never sets it.

Where a promise is false of the code, the code is kept and the exact condition is proved:

- "The latest credential the server accepted" is not what an offline check compares with.
  `OldCredentialStillAnswers` gives a run in which the store of a new credential fails and
  the old one stays in force. `CachedTrueIsLatestIff` says, for every run, exactly when the
  two agree, and `AuthProvenance` is stated with the credentials that were confirmed.
- With foreign keys enforced a group's members are not those that list it:
  `MemberLostRun` is a run that loses one, `EnforcedMembershipIff` the exact condition over
  every run. A user whose groups push each other out cannot be stored
  (`SameNameGroupsRefused`, `LinkableIffCoherent`).
- A lookup by name finds the row just written only if no other row carries that text in a
  column of another kind (`PutThenFind`); otherwise it answers an error (`NameMeetsSpn`).
- A missing account also silences the group lookup of the same identifier, which shares
  the negative cache (`MissingHidesEither`).
- Creating a home again at once is harmless exactly when no alias names a link on the path
  to an existing home (`RedeliveryHarmlessIff`, `RedeliveryRefused`). But a request whose
  sending failed queues up behind others (`RequeueOvertakes`), and its second delivery may
  undo one of them (`OvertakenRedelivery`); `RedeliveryAfterIff` says exactly when it does
  not.
- Creating a home again after a failed call repairs the tree under the condition of
  `RetryRepairsIff` (`RetryRefused`); a home left without its owner is never repaired
  (`HalfMadeForever`).
- Nested borrows restore the stack exactly up to a depth of 31 (`NestingRestoresIff`);
  dropping a handle that is not live ties the free list into a loop (`DropKeepsChainIff`);
  a fresh call of a freed closure frees it again (`FreshCallFreesTwice`).

The `ON CONFLICT(uuid)` clause of the account upsert never fires (`UpsertRefinesPut`),
which is as well: it would store the name in the spn column.

## Model

| member | source | states |
|---|---|---|
| `KeyedTable.UpsertRefinesPut` | kanidm_unix_int/src/db.rs:348-398 | For every table, the DELETE, UPDATE and INSERT of the account upsert never hit a UNIQUE column, the conflict clause never fires, and together they are the one abstract write |
| `KeyedTable.ReplaceRefinesPut` | kanidm_unix_int/src/db.rs:674-702 | The group INSERT OR REPLACE is the same abstract write, since no group row has a password to keep |
| `KeyedTable.PutKeepsUnique` | kanidm_unix_int/src/db.rs:348-398 | The write keeps uuid, name, spn and gid unique, and after the purge nothing is left to clash with |
| `KeyedTable.PutThenFind` | kanidm_unix_int/src/db.rs:219-299 | After a write each of uuid, name, spn and gid finds that token and expiry if and only if no surviving other row answers to the same text; the gid always does |
| `KeyedTable.NameMeetsSpn` | kanidm_unix_int/src/db.rs:219-242 | A failing input: a row is found by its name until another row is written whose spn is that name; then the lookup is an error |
| `KeyedTable.FindWritten` | kanidm_unix_int/src/db.rs:268-299 | A row is found by an identifier it answers to if and only if no other row answers to it; otherwise the lookup is an error |
| `KeyedTable.FindMeans` | kanidm_unix_int/src/db.rs:219-299 | A lookup by name compares uuid, name and spn, one by gid the gid alone: none if no row answers, that row's token and expiry if exactly one does, an error otherwise |
| `KeyedTable.GidNeverAmbiguous` | kanidm_unix_int/src/db.rs:244-266 | With unique columns no two rows answer to one gid |
| `KeyedTable.LastWriterWins` | kanidm_unix_int/src/db.rs:205-217 | Over every history of writes, deletes, clears, invalidations and password changes: a uuid is present exactly when its latest write was not followed by its deletion, a clear, or a clashing write of another uuid, and its row is that write, expired if invalidated since |
| `KeyedTable.PasswordProvenance` | kanidm_unix_int/src/db.rs:450-471 | Over every history: a row has password p if and only if the latest password set for it was p and the row has stayed in the table since |
| `KeyedTable.HistoryKeepsUnique` | kanidm_unix_int/src/db.rs:122-153 | Every history leaves all four columns unique |
| `KeyedTable.ColumnsUnique` | kanidm_unix_int/src/db.rs:122-153 | After every history no two rows share a name, an spn or a gid |
| `CacheTables.PutAccountSound` | kanidm_unix_int/src/db.rs:336-436 | Storing an account keeps every table invariant: unique columns, columns that agree with the token, membership rows that agree with the token, references when enforced |
| `CacheTables.PutGroupSound` | kanidm_unix_int/src/db.rs:674-702 | Storing a group keeps every table invariant, cascades included |
| `CacheTables.PutGroupsSound` | kanidm_unix_int/src/cache.rs:299-303 | So does storing all groups of a user, and it leaves the accounts alone |
| `CacheTables.DelAccountSound` | kanidm_unix_int/src/db.rs:438-448 | Deleting an account keeps every table invariant |
| `CacheTables.DelGroupSound` | kanidm_unix_int/src/db.rs:704-711 | Deleting a group keeps every table invariant |
| `CacheTables.ClearSound` | kanidm_unix_int/src/db.rs:205-217 | Clearing keeps every table invariant, also with membership rows left behind when foreign keys are off |
| `CacheTables.InvalidateSound` | kanidm_unix_int/src/db.rs:189-203 | Invalidating keeps every table invariant |
| `CacheTables.PasswordSound` | kanidm_unix_int/src/db.rs:450-471 | Storing a password keeps every table invariant |
| `Memberships.MembershipAgreement` | kanidm_unix_int/src/db.rs:605-637 | A token not cached is never returned for a group; a cached one at most as often as it lists the group, and without enforcement exactly that often |
| `Memberships.UnenforcedMemberIff` | kanidm_unix_int/src/db.rs:605-637 | Without enforcement a token is answered for a group if and only if it is cached and one of its groups has that uuid |
| `Memberships.GroupWriteKeepsExact` | kanidm_unix_int/src/db.rs:157-163 | Storing a group keeps an account's memberships exact if and only if foreign keys are off or the account is in none of the groups whose rows give way |
| `Memberships.GroupSurvives` | kanidm_unix_int/src/cache.rs:299-303 | After a user's groups are stored in order, one is present if and only if no later one of the list clashes with it |
| `Memberships.LinkableIffCoherent` | kanidm_unix_int/src/db.rs:417-435 | The membership inserts succeed if and only if foreign keys are off or the token's groups do not push each other out |
| `Memberships.SameNameGroupsRefused` | kanidm_unix_int/src/db.rs:417-435 | A failing input: with enforcement a user with two groups of one name cannot be stored, whatever is in the tables |
| `CacheDb.Connection.constructor` | kanidm_unix_int/src/db.rs:108-171 | A new database has empty tables and no open transaction |
| `CacheDb.DbTxn.constructor` | kanidm_unix_int/src/db.rs:70-86 | Starting a transaction changes no table and remembers the state to roll back to |
| `CacheDb.DbTxn.Commit` | kanidm_unix_int/src/db.rs:173-187 | The first commit makes the changes permanent; a second one is an error and changes nothing |
| `CacheDb.DbTxn.Drop` | kanidm_unix_int/src/db.rs:720-730 | An uncommitted transaction leaves the tables as they were when it began |
| `CacheDb.DbTxn.Invalidate` | kanidm_unix_int/src/db.rs:189-203 | Both tables get expiry 0; an error exactly on a storage error |
| `CacheDb.DbTxn.ClearCache` | kanidm_unix_int/src/db.rs:205-217 | Both tables are emptied, with their cascades |
| `CacheDb.DbTxn.GetAccount` | kanidm_unix_int/src/db.rs:219-299 | The one account that answers to the identifier, none, or an error when several do |
| `CacheDb.DbTxn.GetGroup` | kanidm_unix_int/src/db.rs:523-603 | The same for groups |
| `CacheDb.SelectOne` | kanidm_unix_int/src/db.rs:268-299 | Collecting the matching rows and refusing two or more agrees with the lookup as defined |
| `CacheDb.DbTxn.UpsertAccount` | kanidm_unix_int/src/db.rs:348-398 | The statements as written perform the abstract write and the cascade of the purged rows |
| `CacheDb.DbTxn.RelinkAccount` | kanidm_unix_int/src/db.rs:400-435 | The account's membership rows become exactly the listed groups, or an error exactly when a row would dangle |
| `CacheDb.DbTxn.UpdateAccount` | kanidm_unix_int/src/db.rs:336-436 | Succeeds exactly when storage holds, the expiry fits 64 bits signed and the groups can be linked, and then performs the whole write |
| `CacheDb.DbTxn.DeleteAccount` | kanidm_unix_int/src/db.rs:438-448 | The row goes, with its cascade |
| `CacheDb.DbTxn.UpdateAccountPassword` | kanidm_unix_int/src/db.rs:450-471 | Sets the password of that row only, and of none if it is absent |
| `CacheDb.DbTxn.CheckAccountPassword` | kanidm_unix_int/src/db.rs:473-521 | True exactly when the row exists and holds that password |
| `CacheDb.DbTxn.GetGroupMembers` | kanidm_unix_int/src/db.rs:605-637 | The tokens of the join of accounts and memberships |
| `CacheDb.JoinRows` | kanidm_unix_int/src/db.rs:605-637 | The row-by-row join agrees with the join as defined |
| `CacheDb.DbTxn.UpdateGroup` | kanidm_unix_int/src/db.rs:674-702 | Replaces every row in the way, with their cascades |
| `CacheDb.DbTxn.DeleteGroup` | kanidm_unix_int/src/db.rs:704-711 | The row goes, with its cascade |
| `NegativeCache.EvictionDistance` | kanidm_unix_int/src/cache.rs:151-155 | After any sequence of lookups and insertions, an entry is still remembered if and only if fewer than the capacity of other identifiers were touched since it was last used |
| `NegativeCache.InsertOther` | kanidm_unix_int/src/cache.rs:151-155 | Remembering one identifier forgets another exactly when that puts a full capacity of identifiers ahead of it |
| `NegativeCache.Lru.Get` | kanidm_unix_int/src/cache.rs:190-208 | A lookup returns the deadline and makes the entry the most recent |
| `NegativeCache.Lru.Put` | kanidm_unix_int/src/cache.rs:151-155 | An insertion puts the entry first and drops the least recent one when full |
| `NegativeCache.Lru.Contains` | kanidm_unix_int/src/cache.rs:157-160 | Answers whether the identifier is remembered, without touching it |
| `CacheLayer.Cache.constructor` | kanidm_unix_int/src/cache.rs:61-105 | On a database new or left by an earlier process: the tables as they are, offline with the next check due at once, nothing remembered; the same as a restart event from any mode and memory |
| `CacheLayer.Cache.AttemptOnline` | kanidm_unix_int/src/cache.rs:118-121 | The event AttemptOnline: the next lookup may probe at once, nothing else changes |
| `CacheLayer.Cache.MarkOffline` | kanidm_unix_int/src/cache.rs:123-125 | The event MarkOffline: the state becomes Offline, nothing else changes |
| `CacheLayer.Cache.ClearCache` | kanidm_unix_int/src/cache.rs:127-132 | Empties the negative cache in any case and the tables unless storage fails |
| `CacheLayer.Cache.Invalidate` | kanidm_unix_int/src/cache.rs:134-139 | Empties the negative cache in any case and expires the tables unless storage fails |
| `CacheLayer.Cache.GetCachedUsertoken` | kanidm_unix_int/src/cache.rs:162-212 | A database row takes precedence; only a miss consults and refreshes the negative cache |
| `CacheLayer.Cache.GetCachedGrouptoken` | kanidm_unix_int/src/cache.rs:214-264 | The same for groups |
| `CacheLayer.Cache.SetCacheUsertoken` | kanidm_unix_int/src/cache.rs:266-309 | All groups and the account are stored, or the committed tables are as before |
| `CacheLayer.Cache.StoreUser` | kanidm_unix_int/src/cache.rs:298-308 | Groups first and then the account, inside the open transaction |
| `CacheLayer.Cache.SetCacheGrouptoken` | kanidm_unix_int/src/cache.rs:311-324 | The group is stored, or the committed tables are as before |
| `CacheLayer.Cache.DeleteCacheUsertoken` | kanidm_unix_int/src/cache.rs:326-329 | The account is deleted, or the committed tables are as before |
| `CacheLayer.Cache.DeleteCacheGrouptoken` | kanidm_unix_int/src/cache.rs:331-334 | The group is deleted, or the committed tables are as before |
| `CacheLayer.Cache.SetCacheUserpassword` | kanidm_unix_int/src/cache.rs:336-341 | The password is stored, or the committed tables are as before |
| `CacheLayer.Cache.CheckCacheUserpassword` | kanidm_unix_int/src/cache.rs:343-348 | Compares with the cached password and changes nothing |
| `CacheLayer.Cache.RefreshUsertoken` | kanidm_unix_int/src/cache.rs:350-428 | What each server reply does to tables, mode and negative cache, and answers |
| `CacheLayer.Cache.RefreshGrouptoken` | kanidm_unix_int/src/cache.rs:430-504 | The same for groups |
| `CacheLayer.Cache.PassGate` | kanidm_unix_int/src/cache.rs:515-551 | Which lookups go to the server: expired, and Online or past the back-off with a successful probe |
| `CacheLayer.Cache.GetUsertoken` | kanidm_unix_int/src/cache.rs:506-556 | State, answer and requests of a user lookup |
| `CacheLayer.Cache.GetGrouptoken` | kanidm_unix_int/src/cache.rs:558-603 | State, answer and requests of a group lookup |
| `CacheLayer.Cache.GetGroupmembers` | kanidm_unix_int/src/cache.rs:605-615 | The members' names or spns, as configured, in the order of the join; none on a storage error |
| `CacheLayer.Cache.OnlineAccountAuthenticate` | kanidm_unix_int/src/cache.rs:750-838 | What each reply to a credential check stores and answers |
| `CacheLayer.Cache.OfflineAccountAuthenticate` | kanidm_unix_int/src/cache.rs:840-862 | An invalid token is refused; otherwise the cached password decides |
| `CacheLayer.Cache.PamAccountAuthenticate` | kanidm_unix_int/src/cache.rs:893-924 | State, answer and requests of an authentication, which always tries to go online first |
| `CacheLayer.Cache.TestConnection` | kanidm_unix_int/src/cache.rs:941-969 | Probes only from OfflineNextCheck; a failure backs off 15 seconds |
| `CacheEffects.AsksIsSent` | kanidm_unix_int/src/cache.rs:506-603 | An operation sends at most one probe, and its own question last if it asks at all |
| `CacheEffects.SavedIsReply` | kanidm_unix_int/src/cache.rs:266-309 | A stored user token is the server's reply in that very call: every field kept but the shell, which is the reply's if it exists here and the default otherwise |
| `CacheEffects.ErrLeavesTables` | kanidm_unix_int/src/cache.rs:298-308 | A lookup answered with an error leaves the committed tables as they were; so does an authentication, unless its token was saved and only its password store failed |
| `CacheEffects.StepSound` | kanidm_unix_int/src/cache.rs:506-603 | Every operation keeps every table invariant, whatever the server replies and storage does |
| `CacheEffects.SaveCommitsIff` | kanidm_unix_int/src/cache.rs:266-309 | A user token is stored if and only if storage holds, the deadline is representable and, when enforced, its groups do not push each other out |
| `CacheAnswers.UserAsksIff` | kanidm_unix_int/src/cache.rs:506-556 | A user lookup asks the server if and only if its row could be read, nothing cached is still good, and the mode is Online or past its back-off with a good probe |
| `CacheAnswers.UserUnasked` | kanidm_unix_int/src/cache.rs:515-534 | Without asking, the answer is the one row's token, none, or an error if storage failed or two rows answer, and the tables stay |
| `CacheAnswers.UserFound` | kanidm_unix_int/src/cache.rs:362-366 | A user the server sent is answered with its shell or the default one and cached, if and only if it can be stored; otherwise an error, and the tables stay |
| `CacheAnswers.UserMissing` | kanidm_unix_int/src/cache.rs:394-419 | Told "no such entry", the answer is None, exactly the row found is gone and the answer remembered for the timeout; or an error if that row could not be deleted |
| `CacheAnswers.UserFailed` | kanidm_unix_int/src/cache.rs:368-392 | After any other failure the answer is what was cached, and the tables stay |
| `CacheAnswers.GroupAsksIff` | kanidm_unix_int/src/cache.rs:558-603 | The same for group lookups: when they ask |
| `CacheAnswers.GroupUnasked` | kanidm_unix_int/src/cache.rs:566-585 | What a group lookup answers without asking |
| `CacheAnswers.GroupFound` | kanidm_unix_int/src/cache.rs:442-446 | A group the server sent is answered and cached, or cannot be stored |
| `CacheAnswers.GroupMissing` | kanidm_unix_int/src/cache.rs:472-495 | What a group lookup answers and leaves when told "no such entry" |
| `CacheAnswers.GroupFailed` | kanidm_unix_int/src/cache.rs:448-471 | After any other failure the answer is the cached group, and the tables stay |
| `CacheAnswers.AuthAsksIff` | kanidm_unix_int/src/cache.rs:893-924 | An authentication asks if and only if its row could be read and the mode is Online or a probe succeeds |
| `CacheAnswers.AuthUnread` | kanidm_unix_int/src/cache.rs:893-901 | If the row cannot be read or two rows answer, an error and no change |
| `CacheAnswers.AuthDecided` | kanidm_unix_int/src/cache.rs:757-838 | A verdict of the server is the answer: accepted is true once stored and an error otherwise, wrong is false, unknown is none, anything else an error |
| `CacheAnswers.AuthUndecided` | kanidm_unix_int/src/cache.rs:840-862 | Without a verdict the cached row decides: none without a row, false for an invalid one that was not asked about, otherwise whether its password matches |
| `CacheAnswers.AuthTrueIff` | kanidm_unix_int/src/cache.rs:750-862 | When storage holds, true is answered if and only if the server accepted a credential that can be stored, or gave no verdict and the row answering to the name has that password and, unasked, is valid |
| `CacheAnswers.AuthFalseIff` | kanidm_unix_int/src/cache.rs:750-862 | False is answered if and only if the server said so, or gave no verdict and that row has another password or none, or is invalid and unasked |
| `CacheAnswers.AuthNoneIff` | kanidm_unix_int/src/cache.rs:750-862 | None is answered if and only if the server knows no such account, or gave no verdict and no row answers |
| `CacheAnswers.ClearEmpties` | kanidm_unix_int/src/cache.rs:127-132 | After a clear that storage carries out no identifier finds an account or a group, and nothing is remembered |
| `CacheAnswers.InvalidateExpires` | kanidm_unix_int/src/cache.rs:134-139 | After an invalidation that storage carries out every row has expiry 0 and is otherwise as before |
| `CacheAnswers.ModeFollows` | kanidm_unix_int/src/cache.rs:350-603 | The mode after every event: 15 seconds of back-off after a failed probe or transport error, a check due at once after a denied user request, Online after any other contact, and no change without one |
| `CacheAnswers.UserSent` | kanidm_unix_int/src/cache.rs:506-556 | The requests of a user lookup: a probe exactly if something stale is looked up past the back-off, then the question exactly if it asks |
| `CacheAnswers.GroupSent` | kanidm_unix_int/src/cache.rs:558-603 | The same for group lookups |
| `CacheAnswers.AuthSent` | kanidm_unix_int/src/cache.rs:893-924 | The requests of an authentication: a probe exactly if the row could be read and the mode is not settled, then the credential exactly if it asks |
| `CacheAnswers.OtherSent` | kanidm_unix_int/src/cache.rs:941-969 | A status check probes exactly from OfflineNextCheck; no other event sends anything |
| `CacheRuns.RunSound` | kanidm_unix_int/src/db.rs:117-171 | Every state of every run satisfies every table invariant |
| `TableHistory.AccountsAreChanges` | kanidm_unix_int/src/db.rs:336-471 | What any effect does to the accounts is a list of row changes: writes, deletions, clears, invalidations and passwords |
| `TableHistory.GroupsAreChanges` | kanidm_unix_int/src/db.rs:674-711 | The same for the groups, a user's groups written in the order listed |
| `TableHistory.RunLastWriter` | kanidm_unix_int/src/db.rs:205-217 | In every state of every run an account is cached if and only if its latest write was not followed by its deletion, a clear, or a write of another uuid with its name, spn or gid; its row is that write, run out if invalidated since |
| `TableHistory.RunLastGroupWriter` | kanidm_unix_int/src/db.rs:674-711 | The same for groups |
| `TableHistory.RunFindsByToken` | kanidm_unix_int/src/db.rs:219-299 | In every state of every run a lookup finds a token if and only if it is cached, its own uuid, name, spn or gid is the one asked for, and no other cached token's is |
| `CacheRuns.RunMembership` | kanidm_unix_int/src/db.rs:605-637 | In every state of every run a group's members are cached accounts that list it, at most as often as they list it, and without enforcement exactly those |
| `CacheRuns.RunGidFound` | kanidm_unix_int/src/db.rs:244-299 | In every state of every run a lookup by gid finds one row or none, never an error |
| `MembershipRuns.EnforcedMembershipIff` | kanidm_unix_int/src/db.rs:157-163 | In every run with enforcement, a cached account is answered for a group exactly as often as its token lists it if no effect since it was stored replaced or dropped that group's row, and otherwise not at all |
| `MembershipRuns.SharedGroupLost` | kanidm_unix_int/src/cache.rs:298-308 | With enforcement, storing one user takes every other account out of every group that user lists |
| `MembershipRuns.MemberLostRun` | kanidm_unix_int/src/cache.rs:298-308 | A failing run: two users that share a group, fetched one after the other; the first one's cached token lists the group, and the group is answered without |
| `CacheRuns.UserOrigin` | kanidm_unix_int/src/cache.rs:266-309 | Every cached account was stored by an identified event, has stayed since, and expires at that event's deadline unless invalidated since |
| `CacheRuns.GroupOrigin` | kanidm_unix_int/src/cache.rs:311-324 | The same for groups, fetched or carried by a user |
| `CacheRuns.BoundedStalenessUser` | kanidm_unix_int/src/cache.rs:162-212 | In every run, an unexpired answer is what the server sent less than the timeout ago, with nothing newer stored and no invalidation since |
| `CacheRuns.OnlineUserAnswerIsFresh` | kanidm_unix_int/src/cache.rs:506-556 | While Online, a user returned without a request is such an answer |
| `CacheRuns.BoundedStalenessGroup` | kanidm_unix_int/src/cache.rs:214-264 | The same for groups: the server sent it in reply to a group lookup, or in a user that lists it |
| `CacheRuns.OnlineGroupAnswerIsFresh` | kanidm_unix_int/src/cache.rs:558-603 | While Online, a group returned without a request is such an answer |
| `NegativeRuns.NoContactNoneWasTold` | kanidm_unix_int/src/cache.rs:188-210 | In every run, an Online "no such entry" without a request means the server said so for this identifier less than the timeout ago and since the last clear, invalidation or restart |
| `NegativeRuns.InvalidateForcesContactUser` | kanidm_unix_int/src/db.rs:189-203 | After an invalidation an Online user lookup that sends nothing answers a token the server sent since, or "missing" as the server said since, or an error because storage failed or two rows answer to the identifier |
| `NegativeRuns.InvalidateForcesContactGroup` | kanidm_unix_int/src/cache.rs:134-139 | The same for group lookups |
| `NegativeRuns.ToldMissingClears` | kanidm_unix_int/src/cache.rs:394-419 | Once the server has said "missing" and that was remembered, no row answers to the identifier |
| `NegativeRuns.NotFoundSticks` | kanidm_unix_int/src/cache.rs:240-262 | The same lookup then answers None without a request until the deadline, unless the memory was emptied, a matching token was stored, or 2048 other identifiers were looked up |
| `NegativeRuns.MissingHidesEither` | kanidm_unix_int/src/cache.rs:151-155 | In every run, accounts and groups share one memory: after "missing" on either endpoint a lookup of that identifier on either answers None without a request for as long, unless a row answers to it |
| `NegativeRuns.MissingAccountHidesGroup` | kanidm_unix_int/src/cache.rs:472-495 | In one step from any sound state: a missing account makes the group lookup of that identifier answer None unasked |
| `ConnectivityRuns.BackoffHolds` | kanidm_unix_int/src/cache.rs:369-376 | In every run, after a lookup's transport error or failed probe no lookup sends anything for 15 seconds, unless attempt_online, an authentication, a status probe or a restart intervenes |
| `ConnectivityRuns.DeniedProbesAtOnce` | kanidm_unix_int/src/cache.rs:377-392 | In every run, after a user lookup that the server denied the next lookup of something stale begins with a probe, however soon it comes |
| `ConnectivityRuns.OfflineSticks` | kanidm_unix_int/src/cache.rs:515-519 | From Offline nothing but attempt_online or a restart leaves that state, and nothing is sent |
| `AuthRuns.RecordedIffVouched` | kanidm_unix_int/src/cache.rs:758-770 | A credential is recorded exactly by the calls in which the server accepted it and that answered true |
| `AuthRuns.AuthProvenance` | kanidm_unix_int/src/cache.rs:893-924 | In every run, true is answered only if the server accepted the credential in this call, or it is the latest one confirmed for that account and the row has stayed since; without a question the token must be valid |
| `AuthRuns.AcceptedIsCachedIff` | kanidm_unix_int/src/cache.rs:758-770 | An accepted credential is the cached one afterwards if and only if it can be stored or was the cached one before |
| `AuthRuns.LatestAcceptedIsCachedIff` | kanidm_unix_int/src/cache.rs:765-770 | In every run, while the row stays, the latest credential the server accepted for an account is the cached one if and only if it could be stored when it was accepted or was the cached one already |
| `AuthRuns.CachedTrueIsLatestIff` | kanidm_unix_int/src/cache.rs:893-924 | In every run, behind an authentication answered true from the cache there is a latest credential accepted for that account, and it is the one given if and only if the same condition held when it was accepted |
| `AuthRuns.LostStoreKeepsOldPassword` | kanidm_unix_int/src/cache.rs:765-770 | If the store fails the call answers an error and the former password stays in force |
| `AuthRuns.OldCredentialStillAnswers` | kanidm_unix_int/src/cache.rs:840-862 | A counterexample run, for any name and credentials: the server last accepted the new credential, its store failed, and the old one is answered true offline without a request |
| `HandleSlab.DropKeepsChainIff` | kanidmd_web_ui/pkg/kanidmd_web_ui.js:116-120 | Dropping a slot leaves a well-formed free list if and only if the slot was not free |
| `HandleSlab.SlotsConserved` | kanidmd_web_ui/pkg/kanidmd_web_ui.js:5-9 | Live handles, free slots and the 36 reserved ones add up to the length |
| `HandleSlab.Slab.constructor` | kanidmd_web_ui/pkg/kanidmd_web_ui.js:5-9 | No handles, the constants in place, the stack empty |
| `HandleSlab.Slab.AddHeapObject` | kanidmd_web_ui/pkg/kanidmd_web_ui.js:97-106 | The new handle is neither live nor reserved, no other handle changes, and the array grows only when no slot is free |
| `HandleSlab.Slab.DropObject` | kanidmd_web_ui/pkg/kanidmd_web_ui.js:116-120 | Exactly that handle is freed and becomes the next to be given out; below 36 nothing happens |
| `HandleSlab.Slab.TakeObject` | kanidmd_web_ui/pkg/kanidmd_web_ui.js:122-126 | The object, and the handle is freed |
| `HandleSlab.Slab.DropThenAdd` | kanidmd_web_ui/pkg/kanidmd_web_ui.js:97-126 | Dropping a handle and adding an object gives the same slot and restores the free list |
| `HandleSlab.Slab.AddBorrowedObject` | kanidmd_web_ui/pkg/kanidmd_web_ui.js:227-233 | Pushes on the borrow stack, or fails at slot 1; no handle changes |
| `HandleSlab.Slab.ReleaseBorrowed` | kanidmd_web_ui/pkg/kanidmd_web_ui.js:234-240 | Pops the borrow stack; no handle changes |
| `HandleSlab.NestingRestoresIff` | kanidmd_web_ui/pkg/kanidmd_web_ui.js:227-240 | Any tree of nested calls succeeds, and restores the borrow stack, exactly when its depth stays below the stack pointer |
| `ClosureLifetime.ClosureFreedOnce` | kanidmd_web_ui/pkg/kanidmd_web_ui.js:202-225 | For any nesting with one drop and no call after the end, the closure is freed exactly once, after the drop and with no call in flight, with its original pointer; re-entrant calls of a mutable closure see 0 |
| `ClosureLifetime.FreshCallFreesTwice` | kanidmd_web_ui/pkg/kanidmd_web_ui.js:208-220 | The condition is needed: a call after the end frees a second time, with pointer 0 |
| `ClosureLifetime.Closure.constructor` | kanidmd_web_ui/pkg/kanidmd_web_ui.js:242-243 | Count 1 and the pointer given |
| `ClosureLifetime.Closure.Enter` | kanidmd_web_ui/pkg/kanidmd_web_ui.js:204-210 | The start of an invocation is the step Invoke |
| `ClosureLifetime.Closure.Leave` | kanidmd_web_ui/pkg/kanidmd_web_ui.js:212-219 | The end of an invocation is the step Return, which destroys exactly at count 0 |
| `ClosureLifetime.Closure.CbDrop` | kanidmd_web_ui/pkg/kanidmd_web_ui.js:415-423 | The drop is the step Drop and says true exactly when the count was 1 |
| `StringPassing.ThreePerUnit` | kanidmd_web_ui/pkg/kanidmd_web_ui.js:84-86 | UTF-8 takes at most three bytes per UTF-16 unit |
| `StringPassing.EncodeIntoFits` | kanidmd_web_ui/pkg/kanidmd_web_ui.js:46-57 | With enough room encodeInto writes what encode would |
| `StringPassing.EncodeIntoStops` | kanidmd_web_ui/pkg/kanidmd_web_ui.js:46-49 | Without enough room encodeInto writes whole characters from the start and stops at the first that does not fit |
| `StringPassing.AsciiPrefix` | kanidmd_web_ui/pkg/kanidmd_web_ui.js:75-79 | Cutting after an ASCII prefix splits no character: the prefix as bytes and the encoded rest are the encoding of the whole |
| `StringPassing.DecodeEncode` | kanidmd_web_ui/pkg/kanidmd_web_ui.js:108-114 | Every character's encoding decodes to it, whatever follows (section 3 of RFC 3629) |
| `StringPassing.WrittenReadsBack` | kanidmd_web_ui/pkg/kanidmd_web_ui.js:108-114 | What is written is well-formed UTF-8 of the string's characters, a lone surrogate reading as U+FFFD |
| `StringPassing.StringRoundTripIff` | kanidmd_web_ui/pkg/kanidmd_web_ui.js:46-114 | The string itself comes back if and only if its surrogates are paired |
| `StringPassing.StringMended` | kanidmd_web_ui/pkg/kanidmd_web_ui.js:46-114 | What comes back is the string unit by unit, with U+FFFD for exactly the surrogates that lack their partner |
| `StringPassing.Memory.EncodeString` | kanidmd_web_ui/pkg/kanidmd_web_ui.js:46-57 | Both encoders agree when the string fits; when it does not, one stops short and the other throws |
| `StringPassing.Memory.CopyAscii` | kanidmd_web_ui/pkg/kanidmd_web_ui.js:71-79 | The loop copies exactly the longest ASCII prefix |
| `StringPassing.Memory.PassString` | kanidmd_web_ui/pkg/kanidmd_web_ui.js:59-95 | On every path the block holds exactly the UTF-8 form of the string with its length announced, and nothing outside the room asked for is written |
| `AscendingSeq.BinarySearch` | orca/src/preprocess.rs:87-94 | On a strictly ascending vector, finds the element or the one place where it belongs |
| `OrcaRecords.Normalise` | orca/src/preprocess.rs:174-185 | A record's ids become strictly ascending, the same as a set, and nothing else changes |
| `OrcaRecords.NormalFormsUnique` | orca/src/preprocess.rs:174-175 | A log has only one normal form |
| `OrcaRecords.ExistsIffLastAdded` | orca/src/preprocess.rs:85-131 | An entry exists exactly when the last record adding or deleting it adds it, or there is none and it was created beforehand |
| `OrcaRecords.Tracker.AddAll` | orca/src/preprocess.rs:87-94 | Completes exactly when every id is absent, and then adds them; the vector stays strictly ascending |
| `OrcaRecords.Tracker.DeleteAll` | orca/src/preprocess.rs:127-135 | Completes exactly when every id is present, and then removes them; the vector stays strictly ascending |
| `OrcaRecords.Tracker.ModAll` | orca/src/preprocess.rs:104-125 | One change per id, of its entity's kind; a group's members are at most a third of the existing entries |
| `OrcaRecords.Tracker.IntoOp` | orca/src/preprocess.rs:84-149 | A record becomes an operation exactly when it can be replayed, describes that record, and advances the existing entries |
| `OrcaRecords.SortIsStable` | orca/src/preprocess.rs:285-290 | The sort orders by connection and time, keeps every record and keeps the order of equal keys |
| `OrcaRecords.StableSortUnique` | orca/src/preprocess.rs:285-290 | Those properties determine the sorted sequence |
| `OrcaAccess.OthersInOrder` | orca/src/preprocess.rs:242-244 | The records left after the pre-create ones are taken out are exactly the others, in the order of the log |
| `OrcaConnections.Push` | orca/src/preprocess.rs:297-309 | One more operation goes to its own connection, opened if need be, in ascending order of ids |
| `OrcaConnections.Replay` | orca/src/preprocess.rs:292-313 | Completes if and only if every Add is of absent ids, every Delete of present ones and every Bind names an id, at its place; each connection holds its records' operations in order |
| `OrcaConnections.GroupingConserves` | orca/src/preprocess.rs:312-313 | The connections' operations one after another are the operations of the sorted records, none lost or repeated |
| `OrcaAccess.ConnectionNeeds` | orca/src/preprocess.rs:320-363 | What a connection's operations say of binds and writes is what the records say |
| `OrcaAccess.AccessOfConn` | orca/src/preprocess.rs:320-363 | Completes if and only if every write of the connection follows a bind, and collects what each bound account writes |
| `OrcaAccess.DeriveAccess` | orca/src/preprocess.rs:315-371 | The same over all connections, each list then strictly ascending |
| `OrcaAccess.AccessIsExact` | orca/src/preprocess.rs:315-371 | The keys are the accounts bound during some write; each list is strictly ascending and equal as a set to the entities written under that account's bind |
| `OrcaAccess.BoundMeans` | orca/src/preprocess.rs:320-326 | The account in force is that of the latest bind on the connection |
| `OrcaAccess.ExactMeans` | orca/src/preprocess.rs:315-371 | An account has a list if and only if some record writes under its bind; the list goes up, accounts before groups; an entry is in it if and only if such a record lists its id, as an account exactly if some record binds that id |
| `OrcaAccess.ReplaysMeans` | orca/src/preprocess.rs:83-149 | The log can be replayed if and only if no entry is added that is there, none deleted that is not, and no bind is without an id |
| `OrcaAccess.Preprocess` | orca/src/preprocess.rs:188-382 | The whole program, on the log as read: it completes if and only if the normalised, sorted log can be replayed and every write follows a bind on its connection; then each connection holds the operations of exactly its own records in order, accounts and entities are those of the log, and the access lists are exact |
| `HomeTasks.InvStep` | kanidm_unix_int/src/daemon.rs:138-182 | Every action keeps the protocol's invariant: one place per request, at most 16 queued, and an untagged reply always for the request awaited |
| `HomeTasks.TaskAcknowledgement` | kanidm_unix_int/src/daemon.rs:288-330 | In every interleaving a session is answered Ok only if the worker produced Success for that request, no one-shot fires twice, and each submitted request is in exactly one of queued, in flight, acknowledged or dropped |
| `HomeTasks.RequeueOvertakes` | kanidm_unix_int/src/daemon.rs:157-167 | A run in which the worker carries out one request, then another, then the first again |
| `HomeDirectory.ExistsIffReaches` | kanidm_unix_int/src/tasks_daemon.rs:117 | Following as many links as there are entries decides whether a path exists |
| `HomeDirectory.Clean` | kanidm_unix_int/src/tasks_daemon.rs:90-94 | A cleaned name has no path separator |
| `HomePaths.CleanMeans` | kanidm_unix_int/src/tasks_daemon.rs:90-94 | Cleaning takes the dots off the front, all of them and no others, and then every separator, keeping the rest in order |
| `HomePaths.CleanKeeps` | kanidm_unix_int/src/tasks_daemon.rs:155-158 | A name without a leading dot and without separators is kept as it is |
| `HomePaths.WithinIffParent` | kanidm_unix_int/src/tasks_daemon.rs:103-115 | The joined path's parent is the prefix if and only if the prefix ends in a separator and the name is neither empty nor a single dot |
| `HomePaths.CreateExactly` | kanidm_unix_int/src/tasks_daemon.rs:84-196 | Which entries a success changes, and to what: the home if it was not there, each alias that was new or a link, and nothing else |
| `HomePaths.CreateSucceedsIff` | kanidm_unix_int/src/tasks_daemon.rs:84-196 | When no call fails a request succeeds if and only if the prefix is a directory, the home's and each alias's path lies directly in it, and none of them is a dangling link when its turn comes |
| `HomeDirectory.HomeSurvivesIff` | kanidm_unix_int/src/tasks_daemon.rs:152-194 | After the alias loop the home is reachable if and only if it was and no alias is a link on its path |
| `HomeDirectory.AliasesSettle` | kanidm_unix_int/src/tasks_daemon.rs:152-194 | Each alias is then a link to the home or a non-link left alone, and no other entry is lost |
| `HomeDirectory.RedeliveryHarmlessIff` | kanidm_unix_int/src/tasks_daemon.rs:84-196 | Repeating a successful request at once succeeds and changes nothing, if and only if the home did not exist or no alias is a link on its path |
| `HomeDirectory.RepeatedInARowIff` | kanidm_unix_int/src/tasks_daemon.rs:84-196 | Under the same condition, and only then, any number of deliveries in a row does what one does |
| `HomeDirectory.PlainHomeHarmless` | kanidm_unix_int/src/tasks_daemon.rs:84-196 | Repeating it at once is always harmless when the home path is not itself a link |
| `HomeDirectory.RetryRepairsIff` | kanidm_unix_int/src/tasks_daemon.rs:84-196 | Wherever a failing call stops a request that would have succeeded, repeating it gives the tree of that success if and only if the home was not left half made and no alias done so far, nor the link just removed, was on the path to the home |
| `HomeDirectory.HalfMadeForever` | kanidm_unix_int/src/tasks_daemon.rs:117-131 | A home left without owner or skeleton stays so: every later delivery succeeds, does the aliases and leaves the home as it is |
| `HomeDirectory.HomePrefix.CreateHomeDirectory` | kanidm_unix_int/src/tasks_daemon.rs:84-196 | The system calls in order do exactly what is specified; if a call fails or the request is refused, the tree left is the one that its stopping point describes |
| `HomeDirectory.HomePrefix.MakeHome` | kanidm_unix_int/src/tasks_daemon.rs:117-148 | A missing home is created, owned and filled; a dangling link in its place is an error; a failing call leaves nothing, a home without owner or one without skeleton |
| `HomeDirectory.HomePrefix.LinkAliases` | kanidm_unix_int/src/tasks_daemon.rs:152-194 | All aliases in order, or stopped at one of them with exactly those before it done |
| `HomeDirectory.HomePrefix.LinkAlias` | kanidm_unix_int/src/tasks_daemon.rs:153-193 | An existing link is re-pointed, another entry left alone, a missing one created, a dangling link refused; a failing call leaves the entry or, between removal and re-creation, no entry |
| `HomeRedelivery.NothingToDoIff` | kanidm_unix_int/src/tasks_daemon.rs:84-196 | In any tree, a delivery succeeds and changes nothing if and only if the home is there and every alias is a link to it or something else than a link |
| `HomeRedelivery.ServeIsActs` | kanidm_unix_int/src/tasks_daemon.rs:198-224 | Whatever list of requests the worker carries out or refuses, it only makes homes where nothing was and points new names or working links at a home |
| `HomeRedelivery.Fate` | kanidm_unix_int/src/tasks_daemon.rs:152-194 | Over any such changes, a home that works goes on working unless one of them re-points a link on its path to a home whose path comes back to that link or is lost; then it is lost for good |
| `HomeRedelivery.RedeliveryAfterIff` | kanidm_unix_int/src/daemon.rs:157-167 | A successful request delivered again after any list of other requests changes nothing, if and only if its first delivery did not cut its own home off, no change in between cut it off, and each alias that was pointed at all was last pointed at this home |
| `HomeRedelivery.PlainRedeliveryAfterIff` | kanidm_unix_int/src/daemon.rs:157-167 | Where the home is not a link, the last pointing of each alias alone decides |
| `HomeRedelivery.OvertakenRedelivery` | kanidm_unix_int/src/daemon.rs:157-167 | A failing input: three successful deliveries A, B, A leave a tree that neither A, B nor B, A leaves |
| `HomeRedelivery.RedeliveryRefused` | kanidm_unix_int/src/tasks_daemon.rs:84-196 | A failing input: a home that is a link, with an alias of that name, succeeds once and is refused the second time |
| `HomeRedelivery.RetryRefused` | kanidm_unix_int/src/tasks_daemon.rs:84-196 | A failing input: the same, stopped by a failing call at the next alias, is refused on retry |
| `ResponseReader.ReadResponse` | kanidm_unix_int/src/client_sync.rs:39-90 | Although every read appends the whole buffer, the data is exactly the bytes delivered, for every sequence of reads |
| `ResponseReader.DeliveredMeans` | kanidm_unix_int/src/client_sync.rs:48-84 | The loop goes on after a full buffer, or after nothing before anything came, and the result is all the bytes of the turns taken, or a failure exactly if the last was a failed read |

## Left out

- SQLite, JSON, password hashing and the connection pool: tables are maps, tokens round-trip, verification is equality, BEGIN and COMMIT succeed, so the branch for undecodable stored tokens is not modelled.
- Interleaving of cache operations: the cache runs are sequential; table invariants hold per transaction. Deadlock of the cache locks is not considered.
- Running out of the clock's range: `SystemTime` arithmetic that would panic is not modelled; times are unbounded integers.
- Enumerations and wrappers of the cache (`get_nss*`, `get_sshkeys`, `pam_account_allowed`, `pam_account_beginsession`, the `token_*` helpers): they map one lookup's answer and would add easy members.
- `migrate`, WAL mode, umask and file permissions.
- CacheDb.DbTxn.UpdateGroup: the group table has no password column; its rows carry None.
- Times and numbers parsed from text, `RawOpType` names, and the generated contents of entities in the load test: times are ordered values, and randomly chosen members are an arbitrary choice within their bounds.
- OrcaAccess.Preprocess: the hash maps of the source are maps and the ordered map of connections is an ascending sequence searched by bisection; reading and writing the files is not modelled.
- Cached views of the compiled memory and the errors of `getStringFromWasm0`; the allocator is any that returns blocks large enough.
- StringPassing.Memory.PassString: that a lone surrogate reads as U+FFFD is the TextEncoder's doing and part of the encoding as defined here.
- HomeTasks: the handler loop, the clients and the worker are actions of a state machine, because the promise is about their interleavings; waiting times are nondeterministic, and the daemon does not restart.
- HomeRedelivery.RedeliveryAfterIff: the requests in between are done or refused; one that a failing call stops with a link removed is covered by `NothingToDoIff` in the tree it leaves, because that link may be put back later by any request.
- The kernel's limit on symbolic links, links whose target lies inside another home (their liveness is constant here), home prefixes ending in "/.", NUL bytes in names, and the skeleton file by file: a home is filled or not.
- The HTTP client, CLI, PAM and NSS modules, LDAP, RADIUS, the server itself and the web pages.
