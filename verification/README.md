# Verified models of dx-common-go

Dafny models of the parts of this Go library whose correctness does not show in any one function: the
SQL condition compiler, the circuit breaker, the Redis limiter and mutex, the outbox dispatcher, the
singleton scheduler, the consumer runner, blue/green index migration, bulk sync, nested and retried
transactions, optimistic locking, the read-through cache, signed subject headers and pagination.
`dafny verify dfyconfig.toml` checks all of it.

Code that changes state is modelled by classes and methods with loops. Each is proved against a pure
specification (a step function, a reference text, a reference map), and the theorems are about that
specification. Concurrency is a state machine: a run is any sequence of legal steps by any number of
parties, and every lost reply, crash, expiry, partial effect or dead session is a step or a parameter of
one. Clocks, random tokens, servers, brokers, MACs and callbacks are parameters.

| file | what it is about | main results |
|---|---|---|
| `SqlText.dfy`, `SqlConditions.dfy` | tokens with `$n`, the recursive renderer threading `args` and `idx` | numbering, binding, shifting |
| `SqlGrammar.dfy`, `SqlMeaning.dfy` | SQL precedence, derivation trees, three-valued evaluation | the compiler preserves meaning; it parses if and only if no group is empty |
| `SqlForms.dfy`, `SqlStatements.dfy` | SELECT, INSERT, UPSERT, UPDATE, DELETE, multi-row INSERT | `$1..$n` in order, each bound to its own value |
| `SqlReading.dfy`, `SqlRoundTrip.dfy` | how bound text is read, list by list and clause by clause | every built statement reads back as the query it was built from |
| `SqlJoin.dfy` | fragments joined with AND | what the joined text means; when it is the conjunction |
| `CircuitBreaker.dfy` | overlapping calls and late completions | cooldown, one probe per episode, probes a cooldown apart, when two are in flight |
| `RateLimiter.dfy` | INCR, then EXPIRE, with crashes in between | at most `2*limit - 1` in any window, attained; exactly which calls are allowed |
| `RedisMutex.dfy` | leases, tokens, lost replies | mutual exclusion; only the holder releases; a lease lasts exactly its ttl |
| `Outbox.dfy` | fetch, publish, mark, crash | what sent means; ledger of deliveries; when duplicates arise |
| `Scheduler.dfy` | session-level advisory locks on pooled connections | one live runner per key; ledger of locks |
| `Consumer.dfy` | attempt cap and deduplication | requeues bounded; redelivery runs if and only if evicted |
| `MigrateIndex.dfy` | copy, swap, delete, crash, rerun | readers lose nothing; success points at the target |
| `BulkSync.dfy` | batched upserts with replays | equals one-by-one upserts; the report adds up |
| `Transactions.dfy` | nested joins and whole-transaction retry | exactly one complete run, or nothing; what a dropped error leaves |
| `VersionedUpdate.dfy` | compare-and-set UPDATE | serial rows, no lost update, additions kept |
| `Cache.dfy` | two maps with lazy expiry, shared flights | refines a plain map; invisible for a deterministic loader; when deletion invalidates |
| `Headers.dfy` | canonical string and signature | injective, round trip, tamper evident |
| `Pagination.dfy` | rows and page counts | the two agree, exactly when; the walk visits all |

Where the code does not keep what one would expect of it, the model follows the code and the failing case
is a lemma:

- An empty AND or OR group renders as `()`, which is no SQL expression (`SqlMeaning.WhereParsesIff`).
- A late completion can end the half-open episode while its probe runs, so two probes can be in flight
  (`CircuitBreaker.TwoProbesInFlight`); exactly then, and never if calls take less than a cooldown
  (`CircuitBreaker.TwoProbesNeedLateCompletion`, `CircuitBreaker.LateCompletionAllowsTwo`,
  `CircuitBreaker.PromptCallsProbeAlone`).
- A row that the publish callback skips is marked sent without being delivered (`Outbox.SkippedRowIsSent`,
  `Outbox.SentIsDeliveredIff`).
- Dispatchers that hold the same row publish it twice without any failure (`Outbox.OverlapDuplicates`); exactly
  a fetch of a row that another one holds makes that possible (`Outbox.DuplicatesNeedInterruptions`,
  `Outbox.DoubleClaimDuplicates`).
- The comment on the unlock closure of scheduler/advisorylock.go says a failed unlock is not a leak. It is
  one exactly when the statement fails and the connection stays open (`Scheduler.FailedUnlockLeaks`,
  `Scheduler.IdleHoldsIffRefused`, `Scheduler.LeakBlocks`); a dead session lets two replicas run (`Scheduler.DeadSessionOverlap`).
- Migration protects the migrated alias only; deleting an old index takes it out of any other alias
  (`MigrateIndex.SharedIndexIsLost`, `MigrateIndex.OtherAliasKeptIff`).
- Within one batch a refused last version of a document hides an accepted earlier one
  (`BulkSync.RefusalHidesEarlierVersion`, `BulkSync.SyncAgreesIff`).
- A nested transaction is not a savepoint (`Transactions.DroppedNestedError`,
  `Transactions.FailedPartLeavesNothingIff`).
- An entry deleted while a flight has found it or is loading it can still be handed to calls that begin later,
  exactly as long as that flight has not ended (`Cache.DeletedValueIsShared`, `Cache.VanishDuringFlight`,
  `Cache.VanishInvalidates`).
- `JoinAnd` adds no parentheses, so a fragment with an OR in it can change the meaning (`SqlJoin.AlternativesLeak`,
  `SqlJoin.SafeOnTheLeftIff`, `SqlJoin.SafeOnTheRightIff`); bodies of `BuildWhere` cannot
  (`SqlJoin.WhereBodiesJoin`).
- The role list that holds only the empty role comes back empty (`Headers.RolesRoundTripIff`).
- `PaginatedRequest.Offset` uses the size before `FindPage` replaces one below 1 by 10
  (`Pagination.HasNextAgreesIff`).

## Model

| member | source | states |
|---|---|---|
| `SqlText.PlaceholdersInOrder` | database/postgres/query/condition.go:121-169 | rendered placeholders read left to right are s, s+1, … with one for each bound value |
| `SqlText.BoundRestoresValues` | database/postgres/query/condition.go:121-169 | binding the arguments gives every placeholder its own value, also inside a statement with other arguments before and after |
| `SqlText.NumberedShift` | database/postgres/query/render.go:18-26 | numbering from s + d is numbering from s with every placeholder moved by d |
| `SqlConditions.Binder.Bind` | database/postgres/query/condition.go:163-169 | a bound value is appended to the arguments, its placeholder is the current index, and the index advances by one |
| `SqlConditions.ConditionSQL` | database/postgres/query/condition.go:121-169 | the recursive renderer emits the numbered reference text of the tree and advances arguments and index by exactly its values; BETWEEN binds the two values of a []any and is `1 = 0` without arguments for every other value |
| `SqlConditions.RangeTexts` | database/postgres/query/condition.go:137-148 | the text and values of BETWEEN, written out: two holes for a []any of two values, `1 = 0` and none for any other value |
| `SqlConditions.LeafTexts` | database/postgres/query/condition.go:121-169 | the text and the one value of a comparison, and the texts of the NULL tests |
| `SqlConditions.MembershipTexts` | database/postgres/query/condition.go:127-136 | IN and NOT IN bind their list as one array argument of ANY and ALL |
| `SqlConditions.GroupSQL` | database/postgres/query/condition.go:149-162 | a group is its parts joined by AND or OR in parentheses, numbered without gaps |
| `SqlConditions.JoinedSQL` | database/postgres/query/condition.go:149-162 | the same for the joined parts of a group |
| `SqlConditions.BuildConditions` | database/postgres/query/builder.go:200-206 | top-level conditions are joined by AND with continuous numbering |
| `SqlConditions.BuildWhere` | database/postgres/query/render.go:18-26 | from any start index the placeholders are start, start+1, …, one per argument, and the arguments are the values in order |
| `SqlGrammar.ParseIffDerives` | database/postgres/query/condition.go:121-169 | a recursive-descent parser with SQL precedence returns a tree exactly when the tree derives the tokens |
| `SqlGrammar.Unambiguous` | database/postgres/query/condition.go:137-162 | no token sequence has two derivations: the AND of BETWEEN is never confused with a conjunction |
| `SqlMeaning.AnyIsIn` | database/postgres/query/condition.go:127-136 | `= ANY(array)` is membership in three-valued logic, also for an empty array and NULL elements |
| `SqlMeaning.AllIsNotIn` | database/postgres/query/condition.go:127-136 | `<> ALL(array)` is non-membership in three-valued logic, also for an empty array and NULL elements |
| `SqlMeaning.TreeDerives` | database/postgres/query/condition.go:121-169 | the rendered text of a condition is derived by the tree that mirrors it |
| `SqlMeaning.LeafMeanings` | database/postgres/query/condition.go:121-148 | which rows a comparison, a NULL test and a BETWEEN accept and reject, written out; a BETWEEN without a []any of two values rejects every row |
| `SqlMeaning.MembershipMeanings` | database/postgres/query/condition.go:127-136 | which rows IN and NOT IN accept and reject, as quantifiers over the list |
| `SqlMeaning.GroupMeanings` | database/postgres/query/condition.go:149-162 | which rows AND and OR groups accept and reject, as quantifiers over their parts |
| `SqlMeaning.TreeMeaning` | database/postgres/query/condition.go:121-169 | that tree, with `$n` looked up in the arguments, has the three-valued result of the condition on every row; a malformed BETWEEN is always false |
| `SqlMeaning.WherePreservesMeaning` | database/postgres/query/builder.go:200-206 | every WHERE body without empty groups parses, in one way only, and means its conditions ANDed together, wherever it is spliced |
| `SqlMeaning.WhereParsesIff` | database/postgres/query/condition.go:149-162 | a rendered body is an SQL expression if and only if it is not empty and contains no empty group |
| `SqlStatements.BuildSelect` | database/postgres/query/builder.go:23-84 | placeholders are `$1..$n` in order, n is the argument count, and binding gives back the clauses with their values in place; the bound text reads back as the query: columns, table, joins, grouping, order, limit and offset, and conditions that accept the same rows |
| `SqlStatements.BuildInsert` | database/postgres/query/builder.go:87-110 | the same for INSERT: the bound text reads back as one row with value number i in column number i, and the returned columns |
| `SqlStatements.BuildUpsert` | database/postgres/query/builder.go:166-196 | the same for INSERT … ON CONFLICT, which takes each updated column from the row it could not insert |
| `SqlStatements.BuildUpdate` | database/postgres/query/builder.go:113-140 | the same for UPDATE, for whatever order the assignment map is iterated in: the bound text reads back as the assignments, the increments, conditions that accept the same rows, and the returned columns |
| `SqlStatements.BuildDelete` | database/postgres/query/builder.go:143-163 | the same for soft and hard DELETE: the bound text reads back as that statement on the rows its conditions accept |
| `SqlStatements.InsertMany` | database/postgres/dao/batch.go:39-71 | no rows, the first row of the wrong length, or a statement with `$1..$n` in order whose bound text reads back as exactly the rows, in order and column by column |
| `SqlStatements.WhereShift` | database/postgres/query/render.go:18-26 | a body rendered from s is the body rendered from 1 with placeholders moved by s - 1 |
| `SqlRoundTrip.ConditionsFilter` | database/postgres/query/builder.go:200-206 | the text of a list of conditions, read alone, is an expression if and only if no group is empty, and then has their joint result on every row |
| `SqlRoundTrip.SelectReadsBack` | database/postgres/query/builder.go:23-84 | reading the text of a SELECT clause by clause gives its query back |
| `SqlRoundTrip.InsertReadsBack` | database/postgres/query/builder.go:87-110 | reading the text of an INSERT gives its table, columns, row and returned columns back |
| `SqlRoundTrip.UpsertReadsBack` | database/postgres/query/builder.go:166-196 | the same for an upsert, with its conflict column and its assignments |
| `SqlRoundTrip.UpdateReadsBack` | database/postgres/query/builder.go:113-140 | reading the text of an UPDATE gives its set list, condition text and returned columns back |
| `SqlRoundTrip.DeleteReadsBack` | database/postgres/query/builder.go:143-163 | reading the text of a hard or soft DELETE gives its table and condition text back |
| `SqlRoundTrip.InsertManyReadsBack` | database/postgres/dao/batch.go:39-71 | reading the text of a multi-row INSERT gives its rows back, in order |
| `SqlJoin.JoinAnd` | database/postgres/query/render.go:30-38 | the fragments that are not blank, joined by AND |
| `SqlJoin.JoinParses` | database/postgres/query/render.go:30-38 | two expressions join to one expression, in which the last alternative of the first and the first of the second grow together |
| `SqlJoin.JoinMeaning` | database/postgres/query/render.go:30-38 | what joined text means on every row, for all fragments |
| `SqlJoin.SafeOnTheLeftIff` | database/postgres/query/render.go:30-38 | a fragment joined before conjunctions means the conjunction with every one of them if and only if its alternatives before the last are false on the row |
| `SqlJoin.SafeOnTheRightIff` | database/postgres/query/render.go:30-38 | after conjunctions, if and only if its alternatives after the first are |
| `SqlJoin.AlternativesLeak` | database/postgres/query/render.go:30-38 | a fragment with an OR that lets a row through which the other fragment excludes |
| `SqlJoin.WhereBodiesJoin` | database/postgres/query/render.go:18-38 | any number of BuildWhere bodies, rendered one after the other and joined, are the body of all their conditions with the same arguments |
| `CircuitBreaker.CoolsDown` | resilience/circuitbreaker.go:175-185 | in every run the breaker stays open until a cooldown after its latest trip |
| `CircuitBreaker.NoAdmissionWithinCooldown` | resilience/circuitbreaker.go:132-146 | no call is admitted within the cooldown of any earlier trip |
| `CircuitBreaker.AdmitsAfterCooldown` | resilience/circuitbreaker.go:132-185 | for all settings, after a trip and until something is admitted or trips again, a call is admitted if and only if a cooldown has passed since the trip |
| `CircuitBreaker.OneProbePerEpisode` | resilience/circuitbreaker.go:132-146 | between two calls admitted into half-open the breaker has left half-open |
| `CircuitBreaker.ProbesAreCooldownApart` | resilience/circuitbreaker.go:132-190 | any two calls admitted between leaving closed and returning to it are a cooldown apart, whatever completes late |
| `CircuitBreaker.ClosedCountsFailures` | resilience/circuitbreaker.go:149-172 | while closed the counter is the trailing run of failures and below the threshold; a probe mark implies half-open |
| `CircuitBreaker.CounterIsTrailingFailures` | resilience/circuitbreaker.go:149-172 | in every state of every run the counter is the number of failures since the last success, but for those recorded half-open |
| `CircuitBreaker.OutcomeDecides` | resilience/circuitbreaker.go:149-190 | what each outcome does in each state: a probe closes or reopens and dates the breaker, otherwise the failure that reaches the threshold opens it |
| `CircuitBreaker.LeavesClosedIff` | resilience/circuitbreaker.go:149-172 | the breaker leaves closed exactly when the trailing failures reach the threshold |
| `CircuitBreaker.ReportsArePaths` | resilience/circuitbreaker.go:192-201 | the reported transitions are a path over the four legal ones that starts closed and ends in the current state |
| `CircuitBreaker.TwoProbesInFlight` | resilience/circuitbreaker.go:132-172 | a run of calls that begin and complete once in which a late failure lets a second probe start while the first is in flight |
| `CircuitBreaker.TwoProbesNeedLateCompletion` | resilience/circuitbreaker.go:132-172 | in every run two probes are in flight only if a call other than the first probe completed in its half-open episode |
| `CircuitBreaker.LateCompletionAllowsTwo` | resilience/circuitbreaker.go:149-172 | whenever such a completion happens, the run can go on until a second probe is in flight beside the first |
| `CircuitBreaker.AllProbesAreCooldownApart` | resilience/circuitbreaker.go:132-190 | any two probes of a run start a cooldown apart, also across times of being closed |
| `CircuitBreaker.PromptCallsProbeAlone` | resilience/circuitbreaker.go:132-172 | if calls take less than a cooldown, at most one probe is in flight at any point of the run |
| `CircuitBreaker.StepsIsAt` | resilience/circuitbreaker.go:122-129 | performing steps on a fresh breaker object gives the states of the run theorems |
| `CircuitBreaker.CircuitBreaker.constructor` | resilience/circuitbreaker.go:97-109 | defaults of 5 failures and 30 seconds, closed |
| `CircuitBreaker.CircuitBreaker.SetState` | resilience/circuitbreaker.go:192-201 | the hook is called once for a change and not at all otherwise |
| `CircuitBreaker.CircuitBreaker.DoRefresh` | resilience/circuitbreaker.go:175-180 | open becomes half-open once the cooldown has passed |
| `CircuitBreaker.CircuitBreaker.Trip` | resilience/circuitbreaker.go:182-185 | opens and dates the opening |
| `CircuitBreaker.CircuitBreaker.Reset` | resilience/circuitbreaker.go:187-190 | closes and clears the counter |
| `CircuitBreaker.CircuitBreaker.BeforeCall` | resilience/circuitbreaker.go:132-146 | the admission step of the model, with its report |
| `CircuitBreaker.CircuitBreaker.AfterCall` | resilience/circuitbreaker.go:149-172 | the completion step of the model, with its report |
| `CircuitBreaker.CircuitBreaker.CurrentState` | resilience/circuitbreaker.go:113-118 | the query step of the model |
| `CircuitBreaker.CircuitBreaker.Execute` | resilience/circuitbreaker.go:122-129 | a call is its admission and, if admitted, its completion, with any steps of others in between |
| `RateLimiter.AtMostLimitPerLifetime` | database/redis/ratelimit.go:15-30 | at most `limit` calls are allowed in each lifetime of the counter key |
| `RateLimiter.BurstBound` | database/redis/ratelimit.go:15-30 | at most `2*limit - 1` calls are allowed in any half-open interval as long as the window |
| `RateLimiter.BurstBoundAttained` | database/redis/ratelimit.go:15-30 | for every positive limit and every window of at least two ticks a run that reaches that bound |
| `RateLimiter.FailsClosed` | database/redis/ratelimit.go:19-28 | if EXPIRE never arrives, at most `limit` minus the count more calls are ever allowed |
| `RateLimiter.AllowedIff` | database/redis/ratelimit.go:15-30 | a call is allowed if and only if it is answered and its number is not over the limit |
| `RateLimiter.FirstCall` | database/redis/ratelimit.go:15-19 | the first call gets number 1, without an expiry |
| `RateLimiter.UnarmedCounts` | database/redis/ratelimit.go:19-28 | while no EXPIRE arrives calls get the numbers after the count one by one, so exactly the answered ones among the next `limit` minus count are allowed |
| `RateLimiter.ArmedCounts` | database/redis/ratelimit.go:15-30 | after the EXPIRE of a lifetime calls before its end get the next numbers and the end does not move |
| `RateLimiter.WindowReopens` | database/redis/ratelimit.go:15-30 | the window closes exactly `window` after the EXPIRE: the first call from then on gets number 1 of a new lifetime |
| `RateLimiter.Limiter.Allow` | database/redis/ratelimit.go:15-30 | one call is its INCR and, after a first hit, its EXPIRE, as steps of the run with other callers' commands in between and either request or reply possibly lost; an allowed call is one of the run's grants |
| `RedisMutex.MutualExclusion` | database/redis/lock.go:39-78 | at every point of every run at most one successful Lock per key is neither expired nor unlocked |
| `RedisMutex.UnlockDeletesOwnLease` | database/redis/lock.go:54-78 | the token an instance holds is that of one of its own acquisitions, and its unlock removes an entry if and only if that acquisition is still active and the request arrives, and then that acquisition's entry and no other |
| `RedisMutex.OnlyTheHolderReleases` | database/redis/lock.go:54-78 | an active acquisition ends only by expiry or by an Unlock of its own instance |
| `RedisMutex.LeaseLastsItsTtl` | database/redis/lock.go:39-49 | after a Lock won at t0 and nothing else on its key, the next answered Lock wins if and only if the ttl is positive and it comes at t0 + ttl or later |
| `RedisMutex.UnlockFrees` | database/redis/lock.go:54-78 | after an Unlock that removed the entry the next answered Lock of the key wins |
| `RedisMutex.Mutex.constructor` | database/redis/lock.go:32-34 | the prefixed key and no token |
| `RedisMutex.Mutex.Lock` | database/redis/lock.go:39-49 | a step of the run, with request or reply possibly lost; true exactly when this call wrote the entry and learned of it, and then one of the run's acquisitions, live exactly until its ttl has passed, or for ever with ttl 0; an error keeps the token field |
| `RedisMutex.Mutex.Unlock` | database/redis/lock.go:65-78 | a step of the run, with request or reply possibly lost: compare-and-delete; not held when there is no token or the entry is not its own; an error keeps the token |
| `MigrateIndex.NothingIsLost` | database/elasticsearch/mapping/lifecycle.go:89-137 | between any two points of any run, with crashes and reruns, a non-empty alias stays non-empty and no id reachable through it is lost |
| `MigrateIndex.SuccessPointsAtTarget` | database/elasticsearch/mapping/lifecycle.go:89-137 | a successful return leaves the alias at exactly the new index |
| `MigrateIndex.DeletesOnlyUnaliased` | database/elasticsearch/mapping/lifecycle.go:126-135 | no index is deleted while the alias points at it, and only on request |
| `MigrateIndex.OtherAliasKeptIff` | database/elasticsearch/mapping/lifecycle.go:60-63 | between any two points of any run another alias has lost exactly the deleted indices, so it keeps all of its own if and only if none of them was deleted |
| `MigrateIndex.SharedIndexIsLost` | database/elasticsearch/mapping/lifecycle.go:126-135 | a successful migration after which another alias of the old index points nowhere |
| `MigrateIndex.MergedIsLastCopy` | database/elasticsearch/indexing/reindex.go:15-25 | after the copies each id has the document of the last old index that has it, else the target's own |
| `MigrateIndex.MergedIsGreatest` | database/elasticsearch/mapping/aliases.go:66-67 | since the names are sorted, that is the one in the old index with the greatest name |
| `MigrateIndex.StepIsSafe` | database/elasticsearch/mapping/lifecycle.go:89-137 | every step keeps the invariant and takes nothing from a reader |
| `MigrateIndex.Client.AliasIndices` | database/elasticsearch/mapping/aliases.go:50-68 | exactly the indices behind the alias, once each, in the order of their names |
| `MigrateIndex.Client.EnsureIndex` | database/elasticsearch/mapping/lifecycle.go:44-56 | the index exists afterwards and an existing one is untouched; a fault may strike before or after the effect |
| `MigrateIndex.Client.EnsureAlias` | database/elasticsearch/mapping/aliases.go:19-22 | the alias gains the index, no other alias and no index changes, unless the request failed before its effect |
| `MigrateIndex.Client.Reindex` | database/elasticsearch/indexing/reindex.go:15-25 | on success the target holds the source's documents over its own; on failure possibly some of them |
| `MigrateIndex.Client.SwapAlias` | database/elasticsearch/mapping/aliases.go:27-36 | the alias leaves the old index and gains the new one at once, and nothing else changes, unless the request failed before its effect |
| `MigrateIndex.Client.DeleteIndex` | database/elasticsearch/mapping/lifecycle.go:60-63 | exactly the old index goes, from the indices and from every alias, unless the request failed before its effect |
| `MigrateIndex.Client.MigrateIndex` | database/elasticsearch/mapping/lifecycle.go:89-137 | whatever request fails, the lookup of the alias included, the call is a run of the machine and takes nothing from readers; without faults it succeeds; on success the alias is exactly the new index, which holds the merged documents, every other index is unchanged but for the old ones that were to be deleted, which are gone, and another alias is unchanged if and only if none of the old indices it shares is deleted |
| `Outbox.SentWasPublished` | messaging/outbox/dispatcher.go:12-21 | a row marked sent was delivered or skipped by the callback, and both together never exceed its attempts counter |
| `Outbox.FetchClaims` | messaging/outbox/outbox.go:61-92 | a fetch adds one to the attempts of the rows it claims and leaves every other row alone, and each claim carries its row's old attempts plus one |
| `Outbox.OtherRowsStay` | messaging/outbox/dispatcher.go:126-141 | no other step changes any attempts, and publishing and marking change no row but their own |
| `Outbox.SentIsDeliveredIff` | messaging/outbox/dispatcher.go:12-21 | with a callback that skips exactly the rows it cannot publish, a sent row was delivered if and only if it can be published |
| `Outbox.SkippedRowIsSent` | messaging/outbox/dispatcher.go:12-21 | a run that ends with a sent row of which nothing was delivered |
| `Outbox.RunIsBalanced` | messaging/outbox/dispatcher.go:126-141 | in every run the deliveries of a row are those followed by an applied mark, those that never will be, and those about to be marked |
| `Outbox.RowsOnlyGrow` | messaging/outbox/outbox.go:53-100 | no row is lost or becomes unsent again; counters only rise |
| `Outbox.DuplicatesNeedInterruptions` | messaging/outbox/dispatcher.go:116-146 | while no fetch claims a row that another dispatcher holds, the row is delivered at most once more than it was interrupted between delivery and mark |
| `Outbox.DoubleClaimDuplicates` | messaging/outbox/outbox.go:61-92 | whenever a fetch does, the run can go on to deliver the row more often than that |
| `Outbox.OverlapDuplicates` | messaging/outbox/outbox.go:61-92 | two overlapping drains publish a row twice with nothing interrupted |
| `Outbox.Dispatcher.SelectUnsent` | messaging/outbox/outbox.go:61-92 | the oldest unsent rows, up to the batch size |
| `Outbox.Dispatcher.FetchUnsent` | messaging/outbox/outbox.go:61-92 | claims exactly those rows and counts the attempt; a short batch holds all unsent rows |
| `Outbox.Dispatcher.PublishAndMark` | messaging/outbox/dispatcher.go:126-141 | publish and mark as steps of the run for every outcome, a nil return without delivery included, with others acting in between; anything but two clean replies ends the drain |
| `Outbox.Dispatcher.Drain` | messaging/outbox/dispatcher.go:116-146 | whatever fails and whoever acts between its requests, a drain is a run of the machine and ends idle; a clean one leaves every row sent that was in the table at its last fetch |
| `Scheduler.MutualExclusion` | scheduler/advisorylock.go:19-43 | in every run, of the actors that run a job of one key on live sessions there is at most one |
| `Scheduler.TryLockGrants` | scheduler/advisorylock.go:19-34 | a lock statement is granted if and only if nobody or the own session holds the key, once more each time; a refusal changes no lock and no other key is touched |
| `Scheduler.ErrorKeepsGrant` | scheduler/advisorylock.go:19-34 | a lock statement that errors leaves a grant behind exactly when the server executed it |
| `Scheduler.GivesBack` | scheduler/advisorylock.go:35-41 | an executed unlock gives one grant of its own session back, and the end of a session gives back all of its own and nothing else |
| `Scheduler.LockMeansRun` | scheduler/runner.go:125-157 | a lock on a usable connection without a leaked grant is held once, by the job of that connection |
| `Scheduler.LeakBlocks` | scheduler/advisorylock.go:35-41 | a leaked grant keeps every other session from the job while its own session lives |
| `Scheduler.IdleHoldsIffRefused` | scheduler/advisorylock.go:35-41 | an idle session that can still be used holds a key if and only if an unlock of that key failed on it, and that many times |
| `Scheduler.DeadSessionOverlap` | scheduler/advisorylock.go:19-43 | a run in which a dead session lets two actors run the same job |
| `Scheduler.FailedUnlockLeaks` | scheduler/advisorylock.go:35-41 | a run in which a failed unlock on an open connection leaves the lock behind |
| `Scheduler.Replica.TryAdvisoryLock` | scheduler/advisorylock.go:19-43 | an error exactly when no connection is to be had or the statement fails, a skip exactly when another session holds the key as the statement executes; only a granted lock stays, on the connection that stays checked out |
| `Scheduler.Replica.ReleaseLock` | scheduler/advisorylock.go:35-41 | one unlock statement; on a usable connection the grant is returned unless the statement is refused, and the connection is given back in any case |
| `Scheduler.Replica.RunOnce` | scheduler/runner.go:125-168 | on every path (acquire error, query error, skip, failure, panic, success) exactly the steps taken are given and nothing stays checked out; a connection still usable holds exactly the locks it held before, plus one if the unlock was refused |
| `Consumer.CountsRequeues` | messaging/rabbitmq/runner.go:225-242 | the attempts of an id are its requeues since they were last forgotten |
| `Consumer.SettlementForgets` | messaging/rabbitmq/runner.go:179-242 | an ack, a dead-letter and an overruled requeue leave their id without attempts; nothing touches the attempts of another id |
| `Consumer.AttemptsSinceSettled` | messaging/rabbitmq/runner.go:225-242 | the attempts of an id are its requeues since the run began or since its last other settlement |
| `Consumer.OverruledSinceSettledIff` | messaging/rabbitmq/runner.go:179-242 | after every ack and every dead-letter the count starts afresh: a requeue is overruled exactly at the M-th attempt since |
| `Consumer.AtMostCapRequeues` | messaging/rabbitmq/runner.go:179-233 | with cap M > 0 a non-empty id is requeued at most M - 1 times between settlements that forget it |
| `Consumer.OverruledIff` | messaging/rabbitmq/runner.go:179-233 | a requested requeue is overruled exactly at the M-th attempt, and never without a cap or an id |
| `Consumer.FilterIsLastInsertions` | messaging/rabbitmq/runner.go:246-289 | the filter is the last `cap` ids it took in |
| `Consumer.RedeliveryRunsIff` | messaging/rabbitmq/runner.go:179-220 | after an acked delivery, a redelivery runs the handler if and only if at least `cap` new ids were marked since |
| `Consumer.NotReprocessedEarly` | messaging/rabbitmq/runner.go:179-220 | before that the handler never sees the id again |
| `Consumer.Dedup.constructor` | messaging/rabbitmq/runner.go:254-259 | a capacity that is not positive means 1024 |
| `Consumer.Dedup.Seen` | messaging/rabbitmq/runner.go:262-270 | true exactly for a non-empty id in the queue |
| `Consumer.Dedup.Mark` | messaging/rabbitmq/runner.go:273-289 | a new id enters at the end and the oldest leaves when full; queue and set stay the same elements |
| `Consumer.ConsumerRunner.AttemptExceeded` | messaging/rabbitmq/runner.go:225-233 | counts the attempt and says whether it reached the cap |
| `Consumer.ConsumerRunner.ForgetAttempts` | messaging/rabbitmq/runner.go:235-242 | the id has no attempts afterwards, all others keep theirs |
| `Consumer.ConsumerRunner.Dispatch` | messaging/rabbitmq/runner.go:179-220 | one step of the model with exactly one settlement, a plain ack for a duplicate; every settlement but a requeue leaves the id without attempts, a requeue adds one, and no other id changes |
| `BulkSync.SyncIsOneByOne` | database/elasticsearch/indexing/sync.go:53-92 | without refused items the batches leave the index as upserting every document with an id one by one in source order, however the source cuts batches |
| `BulkSync.BatchAgreesIff` | database/elasticsearch/indexing/sync.go:63-75 | with refused items a batch agrees with one-by-one upserts if and only if no refused last version hides an accepted one that differs from the index |
| `BulkSync.SyncAgreesIff` | database/elasticsearch/indexing/sync.go:53-92 | with refused items any number of batches agree with one-by-one upserts if and only if, in the last batch with an accepted version of it, no id is hidden in that way |
| `BulkSync.RefusalHidesEarlierVersion` | database/elasticsearch/indexing/sync.go:63-75 | a batch where it does |
| `BulkSync.Cluster.BatchOps` | database/elasticsearch/indexing/sync.go:64-75 | one operation per nameless document and per distinct id, the last version winning, in any map order |
| `BulkSync.Cluster.ParseBulkResponse` | database/elasticsearch/indexing/bulk.go:164-190 | every operation is counted once and every refused one is one error, in order |
| `BulkSync.Cluster.BulkDo` | database/elasticsearch/indexing/bulk.go:58-116 | whatever part lost attempts executed, an answered request has the effect of executing it once; a failed one touches no other document; it succeeds if and only if there is nothing to send or, within the cap (3 by default), an answer comes after lost attempts only |
| `BulkSync.Cluster.Sync` | database/elasticsearch/indexing/sync.go:53-92 | the completed batches took full effect, the report adds up over exactly those, and at most the next batch was executed in part; the completed batches are those before the first that does not get through, and the call succeeds if and only if there is none |
| `Transactions.EffectExtends` | database/postgres/transaction/manager.go:43-65 | a transaction only gains rows, and an aborted one nothing |
| `Transactions.EffectIsLocal` | database/postgres/transaction/manager.go:43-65 | what a callback writes does not depend on the rows already in the transaction |
| `Transactions.CallbackLaws` | database/postgres/transaction/manager.go:43-65 | a callback stops at its first error unless it drops it, a refused statement aborts the transaction, in which every later one is refused, and a nested call adds nothing of its own |
| `Transactions.RetryableIff` | database/postgres/transaction/options.go:80-86 | an attempt is retried exactly when its begin, its callback or its commit failed with 40001 or 40P01 |
| `Transactions.NestedCallsCompose` | database/postgres/transaction/manager.go:44-46 | two complete parts wrapped in one outer call are one complete unit with their rows in order |
| `Transactions.DroppedNestedError` | database/postgres/transaction/manager.go:44-46 | for every failing body, a nested call whose error is dropped leaves all it wrote, and an abort, in the outer transaction |
| `Transactions.FailedPartLeavesNothingIff` | database/postgres/transaction/manager.go:44-65 | the failed part leaves nothing in what is committed if and only if it wrote nothing before failing or a refused statement aborted the transaction |
| `Transactions.DroppedNestedErrorKeepsWrites` | database/postgres/transaction/manager.go:44-46 | a failed part whose row is committed |
| `Transactions.Database.JoinTransaction` | database/postgres/transaction/manager.go:44-46 | a nested call runs its callback in the open transaction without beginning, committing or rolling back |
| `Transactions.Database.InTransaction` | database/postgres/transaction/manager.go:43-65 | one begin and one commit, rollback or session end; all rows of the callback or none; nil exactly when they were committed and the reply arrived, and otherwise the error of the begin, of the callback, of the aborted transaction or of the commit, whichever came first |
| `Transactions.Database.InRetryableTransaction` | database/postgres/transaction/options.go:67-86 | every attempt before the last failed with a retryable error, and the loop ends at the first other outcome, at the cap or when cancelled; while serialization failures or deadlocks persist it goes on to the cap; the final state is the initial one or one complete run, with at most one commit |
| `VersionedUpdate.RowIsSerial` | database/postgres/dao/update.go:56-84 | after any run a row is the serial application of the successful updates and its version counts them |
| `VersionedUpdate.EachVersionSucceedsOnce` | database/postgres/dao/update.go:56-84 | each expected version succeeds at most once on a row, in version order |
| `VersionedUpdate.NoLostUpdate` | database/postgres/dao/update.go:51-56 | a success against a version read earlier meets the very row that was read, with no success in between |
| `VersionedUpdate.StaleIffBeaten` | database/postgres/dao/update.go:51-56 | a caller that addresses an existing row by key is told its version is stale exactly when another update succeeded since its read |
| `VersionedUpdate.AdditionsAreKept` | database/postgres/dao/update.go:56-84 | if every caller adds to the value it read, however stale, the column ends at its first value plus exactly the successful amounts |
| `VersionedUpdate.BaseDAO.UpdateVersioned` | database/postgres/dao/update.go:56-84 | a changed row, a stale version exactly when no row was hit, or an error; an executed statement is one step of the run |
| `Cache.CacheRefinesTable` | cache/cache.go:121-215 | over every sequence of operations each reply of the two-map cache with lazy cleaning is that of a plain map with deadlines |
| `Cache.AgreeStep` | cache/cache.go:121-215 | every operation keeps both sides showing every later reader the same |
| `Cache.EntryLivesItsTtl` | cache/cache.go:121-206 | a Set is shown to every reader up to and including its time plus the ttl and to nobody later, for ever if the ttl is not positive, until the key is written again |
| `Cache.NothingWithoutSet` | cache/cache.go:121-215 | from the start, a Clear or its Delete a key shows nothing until its next Set |
| `Cache.ReturnsComeFromLoads` | cache/getorload.go:19-54 | in every interleaving every GetOrLoad returns the result of some load of the key |
| `Cache.StoredIsServed` | cache/getorload.go:19-54 | until it vanishes or is stored again, a stored value is what a call with a working first read gets, without a flight or a load |
| `Cache.AgreesWithUncachedLoader` | cache/getorload.go:19-54 | with a deterministic loader every caller gets the loader's value or its error |
| `Cache.ErrorsAreNotCached` | cache/getorload.go:28-39 | while every load fails nothing is stored |
| `Cache.OneLoadPerFlight` | cache/getorload.go:24-36 | every flight, however many callers share it, found the entry, or loads exactly once, or has not come to it yet |
| `Cache.VanishInvalidates` | cache/getorload.go:19-41 | when the entry vanishes while no flight has found it or begun to load without having ended, no later return comes from a load that began before, but for calls already about to return |
| `Cache.VanishDuringFlight` | cache/getorload.go:24-36 | when one has, the run can go on so that a later call gets the result of a load that began before |
| `Cache.DeletedValueIsShared` | cache/getorload.go:24-27 | a run without a load under way in which a call that begins after the deletion gets the deleted value |
| `Cache.EntryStaysOrVanishes` | cache/cache.go:121-215 | a Set shows its text, and over any other operation and any time an entry stays or vanishes for good |
| `Cache.MemoryCache.Get` | cache/cache.go:121-138 | the step of the model: an expired entry is dropped and reads as missing |
| `Cache.MemoryCache.Set` | cache/cache.go:155-180 | the step of the model: a ttl that is not positive clears an older deadline |
| `Cache.MemoryCache.Delete` | cache/cache.go:183-189 | the step of the model |
| `Cache.MemoryCache.Exists` | cache/cache.go:192-206 | the step of the model: an expired entry is dropped and does not exist |
| `Cache.MemoryCache.Clear` | cache/cache.go:209-215 | the step of the model |
| `Cache.Cached` | cache/getorload.go:44-54 | an empty or undecodable entry is a miss |
| `Cache.Group.Lead` | cache/getorload.go:24-36 | the second read, the load, the store and the end of the flight are steps of the run with others acting in between; a decodable entry ends the flight without a load, otherwise there is exactly one, and only a value is stored |
| `Cache.Group.GetOrLoad` | cache/getorload.go:19-41 | the whole call, as leader or follower, is a run of the machine; an entry at the first read is returned at once, and what is returned is the entry found or the result of the flight |
| `Headers.SplitJoin` | transport/headers/headers.go:187-202 | joining and splitting separator-free parts is the identity |
| `Headers.JoinInjective` | transport/headers/headers.go:183-185 | separator-free parts joined equal no other list of that length, even one with separators in its parts |
| `Headers.ParseFormatInt` | transport/headers/headers.go:95-130 | the issue time survives its text form |
| `Sorting.SortSorts` | transport/headers/headers.go:187-195 | sorting yields a sorted permutation |
| `Headers.RolesRoundTripIff` | transport/headers/headers.go:187-202 | comma-free roles come back as their sorted permutation if and only if they are not the lone empty role |
| `Headers.CanonicalInjective` | transport/headers/headers.go:183-185 | any headers with the canonical string of a user Sign accepted have the same five fields |
| `Headers.CanonicalText` | transport/headers/headers.go:183-185 | the signed text is the five fields with bars between them |
| `Headers.AcceptsIff` | transport/headers/headers.go:120-160 | acceptance written out: signed, with a subject, issued at most 10 s ahead and at most maxAge behind the clock (60 s if not set), and signed by a key that is not empty |
| `Headers.NoKeyAcceptsNothing` | transport/headers/headers.go:120-160 | if every key is empty nothing is accepted |
| `Headers.VerifyOfSign` | transport/headers/headers.go:75-160 | within the window a signed user is accepted with the same id, email, organisation and, but for the lone empty role, roles up to order |
| `Headers.TamperEvident` | transport/headers/headers.go:120-160 | under codes without collisions across the receiver's keys, headers accepted with a signed user's signature carry that user's fields and issue time, whichever key matched |
| `Headers.ContainsAny` | transport/headers/headers.go:223-239 | finds a separator exactly when some field has one |
| `Headers.Sign` | transport/headers/headers.go:75-108 | signs exactly the users with a secret, an id and no separators |
| `Headers.Verify` | transport/headers/headers.go:120-160 | accepts exactly the matching, timely headers with a subject, within 10 s ahead and 60 s behind by default, never under an empty key, and reports which check failed |
| `Pagination.FindPage` | database/postgres/dao/count.go:12-46 | the window of rows after clamping; a next page exactly when rows lie beyond it |
| `Pagination.NewInfo` | pagination/pagination.go:101-117 | the page count is the ceiling, and there is a next page exactly when rows lie beyond this one |
| `Pagination.CeilingIsLeast` | pagination/pagination.go:101-117 | a page is below the ceiling exactly when rows remain after it |
| `Pagination.HasNextAgreesIff` | request/paginated_request.go:48-56 | FindPage and NewInfo agree on HasNext for every page, size and total, except exactly when the size is below 1, the page above 1 and the total between 10 and ten times the page |
| `Pagination.WalkVisitsAll` | database/postgres/dao/count.go:28-46 | following HasNext from page 1 with any positive size visits every row exactly once, in order |
| `Pagination.WalkStopsAt` | pagination/pagination.go:101-117 | and stops at the last page of the page count, not before |

## Left out

- Unknown operator strings, operators outside the named constants and non-slice IN values: the model has one constructor per named operator.
- Column names are single identifiers and SQL text is tokens: quoting, comments and characters inside names are not modelled.
- `ConditionBuilder`, filters, temporal conditions and the finder: they only collect conditions.
- Soft delete with a custom column, and audit columns added to SET maps.
- VersionedUpdate.StaleIffBeaten: only for conditions that select the row by its key; other conditions can fail for reasons of their own.
- Pagination.HasNextAgreesIff: integer ceiling in place of the floating-point one, so counts beyond exact floats are not covered; count and rows are of one moment.
- BulkSync.SyncIsOneByOne: documents without an id are executed and counted but have no place in the modelled index.
- Bulk update and delete operations and the decoding of bulk responses: Sync sends index operations only.
- Times are integers in every module, so windows and lifetimes below one unit of the clock are not modelled.
- Negative Redis ttls: the mutex takes a natural number, with zero for no expiry.
- Rows of the outbox are in creation order, so ties in `created_at` are not modelled; neither is SKIP LOCKED within one statement.
- The Painless script of a migration, and documents written while it runs: no copy could be shown complete.
- MigrateIndex.Client.MigrateIndex: the target name is assumed not to be the name of another alias.
- The job timer, jitter and `Kick` of the scheduler, and the FNV hash of `lockKey`: any function of the name serves.
- Commits refused with a serialization or deadlock code are taken to have had no effect, as PostgreSQL documents; other commit errors may hide one.
- Panics inside transaction and breaker callbacks, and handler outcomes outside the three constants.
- Backoff delays and the HTTP retry transport: only the number of attempts and what they replay matter to the results here.
- Trimming of Unicode space in headers, HMAC and hexadecimal text are parameters; TLS, JWT and envelopes are not part of this model.
- The Redis and JSON layers under the cache: a codec is any pair of functions, and lossless where a theorem says so.
