# Verified model of the agent runtime, scoped memory, rate limiter and friends

This project models, in Dafny, the parts of the agent system whose correctness is not visible in any
one function, and proves what they promise.

* **The multi-tenant runtime** (`runtime/agent-runtime.ts`). `RuntimeState` gives the fields of
  `AgentRuntime` as one value and each synchronous stretch of code as a function of it; `RuntimeClass`
  is the object itself, with fields updated in place, each method proved against `RuntimeState`.
  `RuntimeWorld` is the concurrent system: every `executeRun` invocation is a call with a phase, a label
  is one stretch of code between two awaits (or a move of the clock, the provider or a timer), and a run
  is any sequence of enabled labels. Releasing the lock and decrementing the in-flight count are separate
  labels, and every clock reading in a stretch is a separate value, so eviction can fall anywhere.
  `RuntimeLocks`, `RuntimeLedger`, `RuntimeCharges`, `RuntimeBudgets`, `RuntimeBreaker` and
  `RuntimeStreaks` carry the invariants, `RuntimeEvents` follows emitted events through the worker,
  `RuntimeMoves` says from outside what each label of a run does, `RuntimeTheorems` states what follows
  for all runs, and `RuntimeEviction` says exactly how long idle tenants must be kept for it.
* **Tenant-scoped memory** (`memory/`). `OrderedMaps` and `Ranking` are the insertion-ordered map and the
  stable descending sort of the source language. `VectorStore`, `Repository` and `MemoryManager` hold the
  functions and the classes; `Scoring` the scores over exact reals. `MemoryExactness` is about
  uninterrupted calls. In `ScopedMemory` calls of many scopes interleave at their awaits over one shared
  store; `ScopedRefinement` proves that no scope can tell, and `ScopedAgreement` what index and
  repository still have in common. `ScopedTypes` follows memories from stores to answers, and
  `ScopedTags` says exactly when the tags of the index can be trusted meanwhile. `Reindex` is the
  start-up rebuild of the index, and `Restart` what it restores for any listing order.
* **The rate limiter** (`security/rate-limiter.ts`): `RateLimiter` (functions and class),
  `RateLimiterLaws` (one bucket lifetime), `RateLimiterEvictions` and `RateLimiterSize` (evictions).
* **Smaller pieces**: `CognitiveAgent` (one agent run, for every behaviour of its collaborators; each
  event of its log carries the number of the call it answers),
  `Redaction` and `RedactionPlain` (redaction of possibly cyclic object graphs), `BraceScan` (the
  balanced-brace extractor against its grammar).

Conventions. Where the source throws, a function or method returns `None`, `false` or an outcome that
says so. Numbers the source only adds, compares and scales are mathematical integers or reals. Values
that come from outside (clock readings, embeddings, provider results, guard verdicts, whether a save
succeeds) are parameters, and the theorems hold for all of them.

Results where the code does less than one might expect:

* Idle eviction keeps the budget and cooldown promises exactly when idle tenants are kept as long as the
  promise looks back (`RuntimeEviction`). With a shorter time another tenant's run makes the runtime
  forget that a tenant has spent its budget or tripped its breaker.
* The shared store isolates scopes exactly if all embeddings it accepts have one length
  (`ScopedRefinement.IsolationIffOneDimension`): the first embedding fixes the length for everyone.
* A failed store leaves the index as it was exactly if the id was not indexed before; a failed overwrite
  takes the old version out of the index although the repository keeps it
  (`MemoryExactness.FailedStoreLeavesIndexIff`).
* A query can return memories of types it did not ask for: two overlapping stores of one id can leave a
  wrong tag (`ScopedAgreement.OverlapFoolsTypeFilter`), and a store that overtakes a query after its lookup
  fools it even if no two stores overlap (`ScopedTags.OvertakenFoolsTypeFilter`). The types are right in
  all interleavings exactly if memories that share an id share a type (`ScopedTags.TypeFilterHoldsIff`),
  and the tags exactly if such memories share type and goal (`ScopedTags.TagsHoldIff`).
* A scoped memory whose id is empty or spans lines is stored without a scope tag. In every run, a query of
  a scope considers exactly the records of requested types whose id gives that scope back, so such a
  memory is never found by a scoped query (`ScopedTypes.OnlyReachableAreFound`).
* A restart rebuilds the index in the order of the listing, which the database gives newest first, so it
  can change the order of equally good hits; apart from that it goes unnoticed if no save has failed
  (`Restart`).
* The rate limiter's map stays within its bound exactly if the empty string is not a key (or there are
  too few keys to matter). The empty string aside, displacing buckets to make room defeats the limit
  exactly if there are more keys than room (`RateLimiterSize.WindowsAreLimitedIff`).
* A comment in the rate limiter calls the eviction of the oldest bucket least-recently-used; the code goes
  by creation time, whatever was used last, and the model follows the code.
* The comment on `RedactionOptions` (security/audit-logger.ts:14-17) lists seven default names of sensitive
  fields; the code has twenty, and the model follows the code.

## Model

| member | source | states |
|---|---|---|
| `RuntimeTheorems.TenantsAreServedSerially` | runtime/agent-runtime.ts:208-236 | in every run two `doExecuteRun` bodies of one tenant never overlap, and bodies are entered in arrival order, evictions included |
| `RuntimeTheorems.LockIsFifo` | runtime/agent-runtime.ts:208-221 | the promise chain lets a call in exactly when every earlier call of its tenant has released the lock |
| `RuntimeTheorems.EvictionSparesLiveTenants` | runtime/agent-runtime.ts:408-422 | no step drops the lock or the state of a tenant with a holder or waiter |
| `RuntimeTheorems.OldestCallCanMove` | runtime/agent-runtime.ts:208-360 | the oldest unreleased call of a tenant always has an enabled step: the lock cannot deadlock |
| `RuntimeTheorems.AtMostTwoInFlight` | runtime/agent-runtime.ts:192-236 | `inFlightRunCount` of a tenant never exceeds 2 |
| `RuntimeTheorems.NoLostWakeup` | runtime/agent-runtime.ts:162-190 | a running runtime with queued events is processing them; the processing flag means exactly one unfinished event call; the queue is bounded and free of duplicates (what the worker then does with the queue: `RuntimeEvents.WorkerTakesNext`) |
| `RuntimeEvents.WorkerTakesNext` | runtime/agent-runtime.ts:162-190 | in every run: when an event call finishes, or an emit finds the worker idle, exactly one call is started, for the first queued event that names a tenant, and the queue is what stands behind it; if none does, no call is started; no other label but emit and stop changes the queue, and none but a heartbeat starts a call |
| `RuntimeEvents.EventsAreServedInOrder` | runtime/agent-runtime.ts:175-190 | as long as nothing is emitted and the runtime is not stopped, the event calls made followed by the named events still queued never change: no event is lost, doubled or overtaken |
| `RuntimeTheorems.ChargedExactlyOnce` | runtime/agent-runtime.ts:275-359 | by the time a call releases its lock, a started run has reached `recordRun` exactly once: with the timeout charge if the grace period ran out, else with the very number of tokens the provider resolved with, and 0 if it gave none or rejected; a blocked one never; for a tenant without a budget `recordRun` records nothing |
| `RuntimeMoves.EnterDecides` | runtime/agent-runtime.ts:238-259 | a run starts, at the time read, exactly if the kill switch is off, the tenant's runs of the last 3600000 ms and tokens of the last 86400000 ms are below the limits, and its breaker is not both open and within its cooldown |
| `RuntimeMoves.RunsCountForAnHour` | runtime/agent-runtime.ts:440-443 | a recorded run counts towards the limit exactly while it is less than 3600000 ms old |
| `RuntimeMoves.TokensCountForADay` | runtime/agent-runtime.ts:445-448 | recorded tokens count in full exactly while they are less than 86400000 ms old |
| `RuntimeMoves.RunsEnd` | runtime/agent-runtime.ts:275-359 | in every run, each way a started run can end: which answer of the provider counts as a failure or resets the count, what is charged, and when the breaker opens |
| `RuntimeMoves.AnswerIsKept` | runtime/agent-runtime.ts:264-268 | what the provider answers once is its answer in every later state |
| `RuntimeTheorems.LongEvictionIsInvisible` | runtime/agent-runtime.ts:362-462 | with eviction off or at least a day, each budget decision equals the one the full history gives |
| `RuntimeTheorems.RollingRunBudget` | runtime/agent-runtime.ts:362-462 | in any half-open hour at most `maxRunsPerHour` runs of a tenant start |
| `RuntimeTheorems.RollingTokenBudget` | runtime/agent-runtime.ts:305-462 | in any half-open day the charges stay below `maxTokensPerDay` plus the charge of the last run of that day |
| `RuntimeTheorems.CounterIsStreakSinceCreation` | runtime/agent-runtime.ts:404-477 | in every run the failure count is exactly the trailing streak of failed runs since the tenant's state was last created, for every eviction setting |
| `RuntimeTheorems.BreakerOpensAtThreshold` | runtime/agent-runtime.ts:384-477 | while no run of a tenant races its provider, the breaker is open if and only if the streak of failed runs since the state was last created has reached the threshold |
| `RuntimeTheorems.TrialRunDecides` | runtime/agent-runtime.ts:276-300 | while the count stays at the threshold, the next run alone decides: open after it exactly if it fails, count reset exactly if it succeeds |
| `RuntimeTheorems.CooldownIsRespected` | runtime/agent-runtime.ts:384-402 | no run starts within the cooldown of the start of an earlier run that opened the breaker |
| `RuntimeEviction.EvictionIsInvisibleIff` | runtime/agent-runtime.ts:362-462 | budget decisions see the full history in all runs if and only if eviction is off or waits at least a day |
| `RuntimeEviction.RollingRunBudgetIff` | runtime/agent-runtime.ts:408-462 | the hourly run limit holds in all windows of all runs if and only if eviction is off or waits at least an hour |
| `RuntimeEviction.RollingTokenBudgetIff` | runtime/agent-runtime.ts:408-462 | the daily token limit holds in all windows of all runs if and only if eviction is off or waits at least a day |
| `RuntimeEviction.CooldownIsRespectedIff` | runtime/agent-runtime.ts:384-422 | cooldowns are kept in all runs if and only if eviction is off or waits at least the cooldown |
| `RuntimeEviction.CounterIsWholeStreakIff` | runtime/agent-runtime.ts:408-477 | the failure count is the whole trailing streak in all runs if and only if eviction is off |
| `RuntimeEviction.ShortEvictionForgets` | runtime/agent-runtime.ts:408-438 | a concrete run in which a tenant that has used up its day is let in again after another tenant's run evicted it |
| `RuntimeQueue.QueueIsTruncatedMoveToBack` | runtime/agent-runtime.ts:162-173 | between dequeues the queue is exactly the last entries of the unbounded coalescing queue, each tenant once |
| `RuntimeQueue.EmitMovesToBack` | runtime/agent-runtime.ts:162-173 | an emitted event leaves its place in the queue for the back, the others keep their order, and entries are dropped from the front only, and only if the queue is then full |
| `RuntimeLocks.MayEnterIff` | runtime/agent-runtime.ts:208-216 | a chain of promises is resolved exactly if all earlier calls of the tenant have released |
| `RuntimeLocks.StepKeepsSafe` | runtime/agent-runtime.ts:134-236 | every step keeps the lock, count, heartbeat, worker and queue invariants |
| `RuntimeCharges.StepKeepsRuntimeInv` | runtime/agent-runtime.ts:238-462 | every step also keeps the shape of calls, the order of times, and the agreement of ledgers with the history |
| `RuntimeLedger.EvictionForgetsNothingVisible` | runtime/agent-runtime.ts:408-422 | a tenant idle for longer than the window has nothing recorded inside it |
| `RuntimeBudgets.DecisionIsHistory` | runtime/agent-runtime.ts:362-382 | the decision from pruned, evictable ledgers is the decision from all runs ever started |
| `RuntimeServing.GetTenantStateServes` | runtime/agent-runtime.ts:404-438 | fetching a tenant's state leaves its contents, and changes others only by evicting idle ones |
| `RuntimeServing.CheckBudgetServes` | runtime/agent-runtime.ts:362-382 | the verdict compares the pruned ledgers with both limits; only the tenant's own state is pruned |
| `RuntimeServing.RecordRunServes` | runtime/agent-runtime.ts:450-462 | recording appends one run and, if positive, its tokens to the pruned ledgers, and leaves the breaker alone; a tenant without a budget is left as it was |
| `RuntimeServing.RecordFailureServes` | runtime/agent-runtime.ts:464-472 | a failure raises the count by one and opens the breaker at the run's start time exactly at the threshold |
| `RuntimeServing.IsCircuitOpenServes` | runtime/agent-runtime.ts:384-402 | blocked exactly while an open breaker has not cooled down; a cooled one is closed without resetting the count |
| `RuntimeClass.AgentRuntime.EvictIdleTenants` | runtime/agent-runtime.ts:408-422 | the scan in any order removes exactly the idle tenants from all three maps |
| `RuntimeClass.AgentRuntime.GetTenantState` | runtime/agent-runtime.ts:424-438 | the tenant is touched before idle tenants are evicted; a tenant in flight gets its own state back, and a missing state is made fresh |
| `RuntimeClass.AgentRuntime.CheckBudget` | runtime/agent-runtime.ts:362-382 | the tenant's ledgers are pruned, the token loop adds up what is left, and the verdict compares both with the limits; every field is accounted for |
| `RuntimeClass.AgentRuntime.IsCircuitOpen` | runtime/agent-runtime.ts:384-402 | blocks only while the breaker is open and its cooldown not over, and leaves it closed otherwise; every field is accounted for (meaning in `RuntimeServing.IsCircuitOpenServes`) |
| `RuntimeClass.AgentRuntime.RecordRun` | runtime/agent-runtime.ts:450-462 | for a tenant with a budget the run and its positive tokens are the last entries of the pruned ledgers, for others nothing changes (meaning in `RuntimeServing.RecordRunServes`) |
| `RuntimeClass.AgentRuntime.RecordFailure` | runtime/agent-runtime.ts:464-472 | one more failure for a tenant in flight, and the breaker opened at the start time whenever the count has reached the threshold |
| `RuntimeClass.AgentRuntime.RecordSuccess` | runtime/agent-runtime.ts:474-477 | the failure count is zero afterwards and the breaker left as it is |
| `RuntimeClass.AgentRuntime.BeginRun` | runtime/agent-runtime.ts:238-259 | kill switch, budget and breaker in this order, each blocking before the next has touched anything; blocked by the switch exactly if it is on, by the breaker only while it is open and not cooled, and admitted only with a closed breaker |
| `RuntimeClass.AgentRuntime.ExecuteRun` | runtime/agent-runtime.ts:208-227 | the call waits for the previous tail of the tenant's chain, becomes the tail and is counted; other tenants are untouched |
| `RuntimeClass.AgentRuntime.SettleRun` | runtime/agent-runtime.ts:228-235 | the count goes down by one, no zero or negative count is kept, other tenants are untouched |
| `RuntimeClass.AgentRuntime.EmitEvent` | runtime/agent-runtime.ts:162-173 | while the worker is busy the queue becomes the last `maxEventQueueSize` entries of the coalesced one and no call is started; an idle worker with an empty queue starts the event's own run; stopped, nothing happens |
| `RuntimeClass.AgentRuntime.ContinueWorker` | runtime/agent-runtime.ts:180-189 | while running, the first queued event that names a tenant is started and exactly what stands behind it stays queued; if none does, no call is made, the queue is empty and the flag cleared |
| `RuntimeClass.AgentRuntime.ScheduleRun` | runtime/agent-runtime.ts:192-206 | a run starts exactly if the runtime runs and none is pending for the tenant, and then one is |
| `Ranking.SortSorts` | memory/memory-manager.ts:141-143 | the sort is a descending permutation |
| `Ranking.SortIsStable` | memory/memory-manager.ts:141-143 | equal scores keep their order |
| `Ranking.TakeIsTop` | memory/vector/local-vector-store.ts:36-38 | the first k of the sorted hits are a top-k |
| `Scoring.CosineSimilarity` | memory/scoring.ts:3-19 | the result times the product of the norms is the sum of the products of the coordinates; 0 for a zero denominator; throws exactly on unequal lengths |
| `Scoring.DotConcat` | memory/scoring.ts:13-16 | the dot product is additive over concatenation and, with `DotOfSingle`, hence the sum of the products of the coordinates |
| `Scoring.DirectionDecides` | memory/scoring.ts:3-19 | with true norms a vector has similarity 1 with its positive multiples and -1 with its negative ones |
| `Scoring.CauchySchwarz` | memory/scoring.ts:13-18 | the square of the dot product is at most the product of the sums of squares |
| `Scoring.CosineIsBounded` | memory/scoring.ts:3-19 | with true norms the similarity lies in [-1, 1] |
| `Scoring.CountOverlap` | memory/scoring.ts:41-46 | the loop counts the common tokens in any order |
| `Scoring.GoalRelevanceScore` | memory/scoring.ts:31-52 | the loop computes the best share of goal tokens found in the text: attained by a goal and below the share of none; 0 without text or goals |
| `Scoring.GoalScoreIsShare` | memory/scoring.ts:39-48 | the score for a goal times the number of its tokens is the number of those found, and 0 for a goal without tokens |
| `Scoring.RelevanceIsBounded` | memory/scoring.ts:31-52 | goal relevance lies in [0, 1] |
| `Scoring.RelevanceIsBest` | memory/scoring.ts:36-51 | goal relevance is the maximum of the scores for the single goals, and attained |
| `Scoring.ClampDecay` | memory/scoring.ts:28 | the decay lies in [0, 1] and is the exponential itself wherever that does; 0 below, 1 above |
| `VectorStore.LocalVectorStore.UpsertAll` | memory/vector/local-vector-store.ts:12-19 | records go in one by one with their norms; where one is refused, the earlier ones stay |
| `VectorStore.LocalVectorStore.Search` | memory/vector/local-vector-store.ts:21-39 | the best topK hits among the records that match the filter, which is applied first |
| `VectorStore.LocalVectorStore.SetDimension` | memory/vector/local-vector-store.ts:45-54 | the first length is kept, and any other refused |
| `VectorStore.LocalVectorStore.Drop` | memory/vector/local-vector-store.ts:41-43 | exactly that record is gone |
| `Repository.InMemoryMemoryRepository.SaveMemory` | memory/repositories/in-memory-memory-repository.ts:7-11 | overwrites in place or appends |
| `Repository.InMemoryMemoryRepository.FindByIds` | memory/repositories/in-memory-memory-repository.ts:13-17 | the stored memories of the ids, in their order, missing ones left out |
| `Repository.InMemoryMemoryRepository.Access` | memory/repositories/in-memory-memory-repository.ts:19-26 | only the access time of that memory changes |
| `Repository.InMemoryMemoryRepository.List` | memory/repositories/in-memory-memory-repository.ts:28-45 | the requested page of the memories of the requested types, in insertion order |
| `Repository.ListsTheTypes` | memory/repositories/in-memory-memory-repository.ts:28-45 | a listing that is long enough has exactly the stored memories of the requested types |
| `MemoryManager.ClampLimit` | memory/memory-manager.ts:74-90 | the limit is the whole part of the one asked for, at least 1 and at most 1000, and 5 if none, a non-finite or a non-positive one is given |
| `MemoryManager.MemoryManager.Store` | memory/memory-manager.ts:157-197 | an uninterrupted store: upsert, save, and rollback of the upsert when the save fails |
| `MemoryManager.MemoryManager.Query` | memory/memory-manager.ts:66-144 | an uninterrupted query: index lookup, memories, scores, access marks, re-sorting |
| `MemoryExactness.StoreIsExact` | memory/memory-manager.ts:157-197 | a store succeeds exactly if there is content, the guard lets it through, the embedding has the index's length and the save succeeds; then index and repository hold the memory and its very vector under its id and nothing else has changed, and else the repository is as it was |
| `MemoryExactness.StoreKeepsAgreement` | memory/memory-manager.ts:157-197 | whatever fails, every indexed id is stored and its type and scope tags are those of the stored memory |
| `MemoryExactness.QueryKeepsAgreement` | memory/memory-manager.ts:66-144 | queries keep that agreement |
| `MemoryExactness.FailedOverwriteHidesOldVersion` | memory/memory-manager.ts:187-196 | after a failed save of a new version the repository keeps the old one and the index has none |
| `MemoryExactness.FailedStoreLeavesIndexIff` | memory/memory-manager.ts:175-196 | a failed save leaves the index records as they were if and only if the id was not indexed before, else exactly that record is lost; the repository is untouched and the dimension stays fixed |
| `MemoryExactness.TiesKeepOrder` | memory/vector/local-vector-store.ts:36-38 | hits of equal similarity keep the order of the index, and answers of equal score that of the candidates |
| `MemoryExactness.QueryIsExact` | memory/memory-manager.ts:93-143 | the answer is exactly the similarity top-k of the matching records, each once, by descending aggregate score; every memory has a requested type and scope although only the index filters |
| `MemoryExactness.SameDirectionIsBest` | memory/memory-manager.ts:108-143 | a matching record whose vector is a positive multiple of the query's has similarity 1; no answer has more, and if the record is not among the answers all of them have 1 too |
| `MemoryExactness.SimilaritiesAreCosines` | memory/vector/local-vector-store.ts:26-34 | the similarity of each answer times the norms of the query's and its own record's vector is the sum of the products of their coordinates |
| `MemoryExactness.AnswersAreScored` | memory/memory-manager.ts:119-133 | every returned score is 0.6 similarity + 0.2 decay + 0.2 relevance of that very memory, the decay the clamped exponential of its age in half-lives and the relevance the best share of a goal's tokens in its content |
| `MemoryExactness.NewerScoresNoLower` | memory/scoring.ts:21-29 | other things equal a newer memory never scores lower |
| `MemoryExactness.QueryMarksAnswers` | memory/memory-manager.ts:135-143 | a query marks exactly the memories it returns as accessed and changes nothing else |
| `MemoryExactness.ScoresAreBounded` | memory/memory-manager.ts:119-133 | every reported similarity is in [-1, 1], decay and relevance in [0, 1], aggregate in [-0.6, 1] |
| `ScopedMemory.ScopedIdIsInjective` | memory/scoped-memory-manager.ts:17-24 | scoped ids of different scopes or ids never coincide |
| `ScopedMemory.UnscopedIdInverts` | memory/scoped-memory-manager.ts:22-31 | taking the scope off a scoped id gives the id back |
| `ScopedMemory.ScopeIsRecovered` | memory/memory-manager.ts:171-173 | the pattern recovers the scope from a scoped id exactly if the id is not empty and has no line terminator |
| `ScopedMemory.RecoveredScopeOwnsId` | memory/memory-manager.ts:171-173 | a recovered scope is a valid scope and the id starts with it |
| `ScopedMemory.UnscopeIsExact` | memory/scoped-memory-manager.ts:75-84 | the answers are the results of the base manager one by one with the ids scope prefix and colon give back, and the call throws only if one is not of the scope |
| `ScopedRefinement.SharedStoreRefinesOwnStore` | memory/scoped-memory-manager.ts:66-85 | for every interleaving of adds, overwrites, failures and queries of all scopes, each call of a scope is where it would be, and answers what it would answer, had only that scope's calls run |
| `ScopedRefinement.ScopesDoNotInterfere` | memory/scoped-memory-manager.ts:66-85 | runs that agree on one scope's steps agree on all that scope can see |
| `ScopedRefinement.AnswersAreNeverForeign` | memory/scoped-memory-manager.ts:26-31 | `unscopedId` never throws on an answer |
| `ScopedRefinement.IsolationIffOneDimension` | memory/vector/local-vector-store.ts:45-54 | scopes are isolated in all runs if and only if all non-empty embeddings have one length |
| `ScopedRefinement.TwoDimensionsInterfere` | memory/vector/local-vector-store.ts:45-54 | a run in which one scope's query makes another's throw |
| `ScopedRefinement.ForeignActIsInvisible` | memory/scoped-memory-manager.ts:22-31 | an action of one scope leaves the part of every other scope as it was, entry for entry and in order |
| `ScopedRefinement.HitsAreLocal` | memory/vector/local-vector-store.ts:26-34 | filtering by scope first, the hits are those of the scope's own records |
| `ScopedAgreement.IndexIsCovered` | memory/memory-manager.ts:175-196 | in every interleaving with any saves failing, each indexed id is stored or belongs to a store still running |
| `ScopedAgreement.ExclusiveStoresStayTruthful` | memory/memory-manager.ts:169-196 | if no two stores of one id overlap, the tags at rest tell the type and scope of the memory being saved or else of the stored one (answers of queries that overlap a store are the subject of `ScopedTags.TypeFilterHoldsIff`) |
| `ScopedAgreement.OverlapFoolsTypeFilter` | memory/memory-manager.ts:175-188 | after two overlapping stores of one id, a later query for semantic memories returns an episodic one |
| `ScopedTypes.OnlyReachableAreFound` | memory/memory-manager.ts:93-106 | in every interleaving a query of a scope considers a record if and only if the scope recovered from its id is that scope and its tag is a requested type, and no answer has an id from which the scope cannot be recovered |
| `ScopedTags.TypeFilterHoldsIff` | memory/memory-manager.ts:93-133 | for any set of memories: in all interleavings of queries and stores of them answers have only requested types, if and only if stored memories that share a reachable id share a type (or none can be ranked at all) |
| `ScopedTags.TagsHoldIff` | memory/memory-manager.ts:169-196 | for any set of memories: in all interleavings, whichever saves fail, an entry without a pending save has the tags of the stored memory, if and only if memories that share an id share type and goal |
| `ScopedTags.OvertakenFoolsTypeFilter` | memory/memory-manager.ts:93-117 | a store that runs from start to end between the lookup and the fetch of a query makes it return a type it did not ask for |
| `ScopedAgreement.UninterruptedStore` | memory/memory-manager.ts:157-197 | the steps of a store taken in a row are the uninterrupted store |
| `ScopedAgreement.AddIsChecked` | memory/scoped-memory-manager.ts:33-64 | an add that is not to persist does nothing and succeeds; a memory whose type is not that of the method is refused and nothing changes; any other is stored under its scoped id |
| `ScopedAgreement.UninterruptedQuery` | memory/memory-manager.ts:66-144 | the steps of a scoped query taken in a row are the uninterrupted query with the scope taken off the ids |
| `Reindex.EmbedWithRetry` | server/container.ts:125-150 | the first success of three attempts, no more and no fewer |
| `Reindex.Concurrency` | server/container.ts:97-109 | the batch size is the whole part of the number configured, but at least 1, so the batch loop advances; a non-finite or non-positive one gives 10, and throws in production |
| `Reindex.EmbedPage` | server/container.ts:111-165 | whatever the batch size, the records of a page are those of its memories that embed, in order |
| `Reindex.Reindex` | server/container.ts:74-181 | for any listing the page loop terminates and upserts every listed memory once in listing order, or stops where an upsert throws |
| `Reindex.ListingIsSlice` | memory/repositories/in-memory-memory-repository.ts:28-45 | the in-memory listing is one such listing: its pages are those of the values in insertion order |
| `Restart.ReindexRebuildsIndex` | server/container.ts:74-181 | for any order in which the stored memories of any operation history are listed: re-indexing succeeds, visits each once and gives the entry of every stored memory under every key; the maintained index is a part of it, the same map if no save failed, and the same sequence if and only if the listing is in the order of first stores |
| `Restart.NewestFirstKeepsOrderIff` | memory/repositories/postgres-memory-repository.ts:90-105 | with the database's newest-first listing the order of the index is kept if and only if the memories were first stored newest first (creation times being distinct) |
| `Restart.RestartIsInvisible` | server/container.ts:74-181 | if no save failed, for any listing order the first query after a restart finds the same hits up to ties, and as long as no two records match equally well no later answer can tell that there was a restart |
| `RateLimiter.RateLimiter.TryConsume` | security/rate-limiter.ts:47-74 | clean-up, making room, refill and withdrawal in this order: the verdict and every bucket afterwards |
| `RateLimiter.RateLimiter.EvictOldBuckets` | security/rate-limiter.ts:98-111 | collecting the stale keys and deleting them keeps exactly the fresh buckets, in order |
| `RateLimiter.CleansOnceAMinute` | security/rate-limiter.ts:52-58 | a request cleans up exactly if at least 60000 ms have passed since the last clean-up, and then exactly the buckets older than the TTL go |
| `RateLimiter.RateLimiter.EvictOldestBucket` | security/rate-limiter.ts:116-130 | the first bucket of the least creation time goes, unless its key is the empty string |
| `RateLimiter.Oldest` | security/rate-limiter.ts:120-125 | the scan finds the first bucket with the least creation time |
| `RateLimiter.RemovingStaleKeysEvicts` | security/rate-limiter.ts:100-110 | deleting the collected keys one by one is filtering by age |
| `RateLimiterLaws.LazyRefillIsContinuous` | security/rate-limiter.ts:132-144 | refilling at any moment in between does not change the level at any later time |
| `RateLimiterLaws.GrantedIffEveryWindowFits` | security/rate-limiter.ts:60-73 | in every history a request is granted if and only if no window ending with it, in the bucket's lifetime, would carry more than the capacity plus `refillPerSecond` for every 1000 ms of the window |
| `RateLimiterLaws.LifetimeWindowBound` | security/rate-limiter.ts:132-144 | in a lifetime any window carries at most the capacity plus `refillPerSecond` for every 1000 ms of it |
| `RateLimiterLaws.SecondsRefill` | security/rate-limiter.ts:132-144 | between two requests of a key whose bucket is not evicted in between it gains `refillPerSecond` per 1000 ms up to the capacity, and the second request is granted exactly if it asks for no more than is then there |
| `RateLimiterEvictions.WindowBoundAcrossExpiry` | security/rate-limiter.ts:98-111 | a key that is never displaced gets at most (floor(w / TTL) + 2) capacities plus the inflow in any window of length w, however often its bucket expires |
| `RateLimiterSize.FewKeysAreNeverDisplaced` | security/rate-limiter.ts:61-64 | with no more keys than max(1, maxBuckets) no key is ever displaced |
| `RateLimiterSize.SizeBoundedIff` | security/rate-limiter.ts:116-130 | the map stays within max(1, maxBuckets) in all runs if and only if the empty string is not a key or the keys are too few |
| `RateLimiterSize.DisplacementDefeatsLimit` | security/rate-limiter.ts:61-64 | for any maxBuckets: when one non-empty key more than there is room for take turns, each is granted the full capacity any number of times at one instant |
| `RateLimiterSize.WindowsAreLimitedIff` | security/rate-limiter.ts:60-130 | over keys without the empty one, all keys of all histories keep the window bound of `WindowBoundAcrossExpiry` if and only if there are at most max(1, maxBuckets) keys |
| `CognitiveAgent.CognitiveAgent.RunOnce` | core/agent/cognitive-agent.ts:37-347 | the log obeys the rules of a run to its end: each event reports what the collaborator answered to that very call, and what follows is what the rules ask for after that answer; the result is that of the last event. The trace is in the language of traces; each act is one the gate has just approved and none is complete_run; act calls equal act entries and are at most the step limit, model calls at most one more; a completed run has one episodic memory per act, with its action and its outcome, in order, and learns the last outcome; a dry run neither acts nor adds memories, and ends with a decision the gate approved |
| `CognitiveAgent.ActsAreApproved` | core/agent/cognitive-agent.ts:233-262 | the gate was asked about each act two events before it and answered that it is allowed |
| `CognitiveAgent.FatalIsFinal` | core/agent/cognitive-agent.ts:37-347 | after a denial, a flagged input or a throw nothing happens but entering the error state, and the run is a failed one |
| `CognitiveAgent.FailsForCause` | core/agent/cognitive-agent.ts:37-347 | a run fails only after a throw, a flagged input, a denial, or an unusable decision before the first act |
| `CognitiveAgent.RunIsDetermined` | core/agent/cognitive-agent.ts:37-347 | two complete logs that obey the rules for the same answers are equal, and so are their results: the rules leave no choice |
| `CognitiveAgent.CognitiveAgent.Decide` | core/agent/cognitive-agent.ts:131-212 | at most two model calls with one validation each; the decision is one that was valid and has an action type, or the stub of a dry run without the model |
| `CognitiveAgent.CognitiveAgent.ActLoop` | core/agent/cognitive-agent.ts:233-304 | the acts taken, in order, within the limit, and how the loop ends |
| `CognitiveAgent.CognitiveAgent.Conclude` | core/agent/cognitive-agent.ts:306-327 | one memory per act in order, then the outcome of the last act |
| `CognitiveAgent.EndsOnlyOnce` | core/agent/cognitive-agent.ts:37-347 | in the language of traces complete and error occur only last and act entries are consecutive |
| `Redaction.RedactObject` | security/audit-logger.ts:111-178 | the recursion with the shared visited set terminates on every graph and computes the redaction in order |
| `Redaction.EachObjectExpandsOnce` | security/audit-logger.ts:120-124 | each object is visited at most once, and each visit lays out one object |
| `Redaction.RedactionIsSafe` | security/audit-logger.ts:138-174 | every kept field is allowed, and every kept sensitive one is redacted, at any depth |
| `Redaction.NoSecretIsShown` | security/audit-logger.ts:138-169 | no field whose lower-cased name contains one of the twenty default names or of the option's shows its value at any depth, and with an allow list no field is shown that is not on it, up to case |
| `Redaction.OnlySecretsAreTaken` | security/audit-logger.ts:138-174 | a record keeps exactly its allowed fields, in order, and no value but that of a field with a sensitive name is replaced by the redaction mark |
| `RedactionPlain.RedactionIsPlainIff` | security/audit-logger.ts:111-178 | on any graph that the plain recursion finishes with, the result is that of the plain recursion if and only if it reaches no object twice; dropped and redacted fields may hold anything |
| `RedactionPlain.UnmarkedIff` | security/audit-logger.ts:120-124 | on every graph, the result has no circular marker if and only if the plain recursion ends and reaches no object twice |
| `BraceScan.ExtractJson` | security/output-validator.ts:9-27 | without a fenced block the result is the one slice from the first opening brace that derives from the grammar, and none exactly if there is no such slice |
| `BraceScan.DerivesIffCloses` | security/output-validator.ts:17-25 | a text derives from the grammar exactly if its first brace is closed by its last character and not before |

## Left out

- Option checks and defaults in constructors: the models start from options that passed them.
- Timers, abort signals and audit logging of the runtime: a timer firing is a label, and log calls have no effect on state.
- `RollingTokenBudget`: charges are integers; fractional token counts from a provider are not modelled.
- `OldestCallCanMove`: says that a step is possible, not that the scheduler eventually takes it.
- Square root, exponential and IEEE rounding: norms are characterised by their square, the exponential is arbitrary, arithmetic is exact; vectors with non-finite entries are not modelled.
- Tokenisation, lower-casing, the poisoning guard, prompt filtering, fenced-block matching and schema validation: oracles.
- `QueryIsExact`: is about uninterrupted calls; for interleaved ones see the refinement and the overlap example.
- `SharedStoreRefinesOwnStore`: the repository is the in-memory one whose saves may fail; `PostgresMemoryRepository` and `FaissVectorStore` are not part of this model.
- `injectForPrompt`: formats the answer of a query.
- `Reindex`: the listing does not change while it is paged through; backoff delays and the order of concurrent attempts within a batch are not modelled.
- `RestartIsInvisible`: the repository before and after is the in-memory one, listed in any order; the row order of the database's `getByIds` is not modelled. With nothing stored a restart forgets a dimension that a query fixed.
- `WindowsAreLimitedIff`: leaves open the case of exactly one key too many where that is the empty key.
- `TryConsume`: bucket objects are values stored back under their key, so aliasing of a bucket object is not modelled; the request must have a clock that does not run backwards for the laws, not for the method.
- `RedactObject`: `redactFn` and the special key `__proto__` are not modelled, and an object is its list of own enumerable entries.
- `RunOnce`: prompts, world model, goal stack and self model are reduced to whether their calls return; a dry run whose decision is complete_run does reach learning.
- LLM adapters, tools, routes, user interfaces, `GoalStack`, `HeuristicPlanner`, `SelfModel`, `ObservabilityStore`, the container's other wiring: plumbing, or only easy statements.
