# Verification of the Mem0 sidecar

A Dafny 4.11 model of the stateful and algorithmic core of the Mem0 sidecar and its dashboard overlay, with proofs of what
each part is there to guarantee.  `dafny verify dfyconfig.toml` checks everything.

Each part is modelled in the form its source has.  Objects and tables that are changed in place are classes with `modifies`
clauses, and loops are loops with invariants; every such method is proved to do to the whole state exactly what a
specification function says.  The theorems are then about those functions: about all their inputs, or about every run of the
state machine they make up.

| part | modules |
|---|---|
| Session refresh of the dashboard: guards, leases, single flight, logout | `SessionRefreshState` (one step for each stretch of code between two awaits), `SessionRefreshProofs`, `SessionRefreshTheorems`, `SessionRefreshEffects` (what each step does, table by table), `SessionRefreshCoordinator` (the objects on the heap) |
| Durable mutation intents: requests, recovery workers, operators, an upstream that may do anything | `MutationIntents`, `MutationIntentTheorems`, `MutationIntentEffects` (what each section commits), `MutationStore` (the tables in place) |
| Consolidation: approve, shadow under a lease, roll back, finalize, rerun after a crash | `Consolidation`, `ConsolidationMoves`, `ConsolidationTheorems`, `ConsolidationCycles`, `ConsolidationOutcomes`, `ConsolidationFindings`, `ConsolidationFinalizing`, `ConsolidationRerun`, `ConsolidationFinishing`, `ConsolidationReruns`, `ConsolidationStuck`, `ConsolidationEffects` and `ConsolidationFinalizerEffects` (what each section does), `ConsolidationGrace`, `ConsolidationStore` |
| Consolidation analysis of a scope | `ConsolidationAnalysis`, `ConsolidationAnalysisTheorems`, `ConsolidationAnalysisFields` |
| Memory queries, cursor scans, mirroring | `QueryMemories`, `QueryMemoriesTheorems`, `QueryEffects`, `ScanCursor`, `MemoryScan`, `ScanEffects`, `MirrorDirectWrites`, `MirrorEffects` |
| Category schemas: editor to JSON Schema and back | `CategorySchema`, `CategorySchemaEditor`, `CategorySchemaTheorems`, `CategorySchemaPrinting`, `CategorySchemaLimits`, `CategorySchemaEffects`, `CategorySchemaPaths`, `CategoryEditorState` |
| Category hash snapshots | `CategoryHashes` |
| Trace payloads: bounded, redacted copies of object graphs | `TracePayloads`, `TracePayloadTheorems`, `TracePayloadBounds`, `TracePayloadFaithful`, `TracePayloadEffects`, `TraceDocument`, `TraceDocumentEffects`, `Utf8` |
| Ranking of search results | `Ranking`, `RankingTheorems`, `RankingEffects` |
| Migration 0006, up and down | `EntityMigration`, `EntityMigrationTheorems`, `EntityMigrationEffects` |
| Shared | `Wrappers`, `SetSizes`, `KeySort`, `Picking`, `InsertionOrderedMap` |

## Findings

Six properties that the code suggests do not hold of it without a condition.  Each has its counterexample and its exact
condition.

- Merged memories can form a cycle once replacement memories are canonicals.  `ConsolidationFindings.ReplacementClosesCycle`
  is such a run of the service.  `ConsolidationTheorems.ShadowingKeepsAcyclic` says when it happens: a shadowing keeps the
  links acyclic exactly if the chain of its canonical meets none of its targets, and `ConsolidationCycles.ServiceAcyclicIff`
  says the same of whole runs.  With canonicals that are sources it never happens (`ConsolidationTheorems.MergesAcyclic`).
- A rerun of the finalizer does not always finish what a crash interrupted.  `ConsolidationStuck.CrashLeavesStuck` has two runs
  after which none ever does.  If the finalizer dies after upstream has deleted a memory and before the row is, each rerun
  finds the memory missing before it would recover the open intent; only another mutation of the application recovers it.  If it dies after its intent is committed and before
  upstream is asked, recovery finds the memory present, leaves the intent unresolved, and gives up after three attempts.
  `ConsolidationReruns.FinishIff` gives the exact condition on the state before a rerun, and
  `ConsolidationReruns.RerunsStay` the events that destroy it.
- A rollback can leave a live memory retired.  `ConsolidationFindings.RollbackMissesMoved` is a run in which a retired memory
  moves to another application first; `ConsolidationOutcomes.RollbackComplete` says that this is the only way.
- A late page of a memory query can lack rows, although the query reports no conflict.  The window of the last reading may
  end inside the page, or before it, when rows were added after the loop found everything looked at.
  `QueryMemoriesTheorems.CompleteIff`: every answered page of every run is whole exactly if the page begins at most 20 rows
  behind the first row.  `QueryMemoriesTheorems.LatePageShort` gives the run for every other page: the first window of
  `size + 20` rows is full, all are hydrated, and others are added before the last reading.  Page 2 of size 100 and page 3 of
  size 20 are such pages; for the latter the first window ends where the page begins.
- A valid set of category fields can be saved as a schema that does not open in the builder any more.
  `CategorySchemaLimits.UntrimmedDateRejected` has a date default with a blank before it;
  `CategorySchemaLimits.ValidReopensIff` gives the exact condition on the defaults.
- An unscored search result can come before scored ones: ranking keeps a `rank_score` that the upstream row already carries
  and sorts by it.  `RankingTheorems.BehindIff`: an unscored candidate comes behind every scored one exactly if it carries
  none, and `RankingTheorems.UnscoredLastIff` says for given rows when unscored ones come last.  A carried value that cannot
  be compared makes the sort raise, which `Ranking.Ranker.RankResults` states.

## Assumptions

- What runs between `lock_for_mutation` and the next commit or rollback is one atomic step.  In the coordinator, so is what
  runs between two awaits.
- Clocks and random ids are parameters.  Clocks do not run backwards within a run, and new ids are new.
- Within one request upstream answers the same about the same row snapshot; across requests and recoveries it may answer, fail
  or lose a response in any way.
- JSON printing and parsing are inverse on JSON without infinite numbers; ISO dates of UTC times print and parse back, without
  a trailing Z; `trim` is idempotent in the ways stated by `CategorySchema.Lawful`.  The laws are predicates in
  `ScanCursor.Lawful` and `CategorySchema.Lawful`, and every lemma that needs them says so.  Base64url (sections 4 and 5 of
  RFC 4648) and UTF-8 are defined in full.
- Digests and MACs are functions of their input, and a MAC is 64 hexadecimal digits.  No strength is assumed: a lemma that
  needs two of them to differ says so.
- Ranking uses real numbers for floats; of the power of one half only its range and its monotonicity are used.
- Text, and so ids, is compared by code point.  A PostgreSQL collation may order ids differently where migration 0006 breaks
  ties by id.
- Whether a trace key is secret is a function of the key, and the same in both runs that are compared.

## Model

| member | source | states |
|---|---|---|
| SessionRefreshTheorems.InitKeeps | integrations/mem0-dashboard-overlay/overlays/src/utils/dashboard-session-refresh.ts:69-92 | A new coordinator satisfies the invariant of the rows below, so what they say of runs holds from the start. |
| SessionRefreshTheorems.StepKeeps | integrations/mem0-dashboard-overlay/overlays/src/utils/dashboard-session-refresh.ts:90-405 | Every step between two awaits (refresh, each way a rotation can resume, its finally callback, invalidation, statistics) keeps the coordinator invariant: successor and predecessor edges are inverse, dead guards have no edges, every live guard is stored under its own token, a lease is active exactly if it is the stored lease of its result token, all maps keep their limits, and the rotations in flight are one per token. No step revives a guard or rebinds a lease. |
| SessionRefreshTheorems.RunKeeps | integrations/mem0-dashboard-overlay/overlays/src/utils/dashboard-session-refresh.ts:69-405 | The same over every run from a state that satisfies the invariant. |
| SessionRefreshTheorems.DeadGuardInstallsNothing | integrations/mem0-dashboard-overlay/overlays/src/utils/dashboard-session-refresh.ts:277-343 | A rotation whose request guard is dead when it resumes adds no session and no lease and settles, if it settles, without a sign-in. |
| SessionRefreshTheorems.DeadRotationNeverSignsIn | integrations/mem0-dashboard-overlay/overlays/src/utils/dashboard-session-refresh.ts:277-343 | Once the guard of a rotation that has not settled is dead, no continuation of the run, with any other requests, rotations, timeouts and logouts in between, ever settles it as authenticated. |
| SessionRefreshTheorems.CookieRefusedForever | integrations/mem0-dashboard-overlay/overlays/src/utils/dashboard-session-refresh.ts:379-396 | Once a guard named by the lease of a result is dead, `shouldSetRefreshCookie` refuses that result at every later moment of every run. |
| SessionRefreshTheorems.FamilyClosed | integrations/mem0-dashboard-overlay/overlays/src/utils/dashboard-session-refresh.ts:161-176 | The family of a guard holds the guard and is closed under successor edges. |
| SessionRefreshTheorems.FamilyLeast | integrations/mem0-dashboard-overlay/overlays/src/utils/dashboard-session-refresh.ts:161-176 | It is the least such set; with the row above it is exactly what the walk must find, on cyclic graphs too. |
| SessionRefreshTheorems.InvalidateKillsFamily | integrations/mem0-dashboard-overlay/overlays/src/utils/dashboard-session-refresh.ts:161-176 | `invalidateRefreshToken` newly kills exactly the family of the token's guard, taken after any eviction; family members lose all edges and every other guard loses exactly its edges to them. |
| SessionRefreshTheorems.InvalidateForgetsFamily | integrations/mem0-dashboard-overlay/overlays/src/utils/dashboard-session-refresh.ts:161-176 | Exactly the tokens of that family lose their session, ambiguity record and lease. |
| SessionRefreshTheorems.LogoutRevokesFamily | integrations/mem0-dashboard-overlay/overlays/src/utils/dashboard-session-refresh.ts:375-396 | After the invalidation no result whose lease names a member of the family sets a cookie, in any state of any continuation. |
| SessionRefreshTheorems.LogoutDeniesRefresh | integrations/mem0-dashboard-overlay/overlays/src/utils/dashboard-session-refresh.ts:346-378 | While the coordinator still stores the dead guard of an invalidated token, every refresh of that token is answered unauthorized. |
| SessionRefreshTheorems.OneRotationPerToken | integrations/mem0-dashboard-overlay/overlays/src/utils/dashboard-session-refresh.ts:364-373 | Single flight: two rotations in flight have different tokens. |
| SessionRefreshTheorems.OneCookiePerToken | integrations/mem0-dashboard-overlay/overlays/src/utils/dashboard-session-refresh.ts:379-396 | Two results with the same refresh token that may both set a cookie are the same result, and both guards of its lease are stored and alive. |
| SessionRefreshTheorems.RootsClosed | integrations/mem0-dashboard-overlay/overlays/src/utils/dashboard-session-refresh.ts:178-200 | No edge leads from a guard that is stored, or held by a stored lease or a cached session, to any other guard. |
| SessionRefreshTheorems.ReachableBound | integrations/mem0-dashboard-overlay/overlays/src/utils/dashboard-session-refresh.ts:178-200 | At most six guards per cache entry are reachable from everything the coordinator holds. |
| SessionRefreshCoordinator.Coordinator.CacheSession | integrations/mem0-dashboard-overlay/overlays/src/utils/dashboard-session-refresh.ts:107-115 | The heap state becomes the abstract state with the session cached last and the oldest evicted over the limit. |
| SessionRefreshCoordinator.Coordinator.GetRefreshTokenGuard | integrations/mem0-dashboard-overlay/overlays/src/utils/dashboard-session-refresh.ts:117-140 | Returns the stored guard, moved to the end, or a new one, after evicting, killing and unlinking the oldest guards; the whole new heap state is the abstract one. |
| SessionRefreshCoordinator.Coordinator.SeverRefreshTokenGuardLinks | integrations/mem0-dashboard-overlay/overlays/src/utils/dashboard-session-refresh.ts:142-151 | Both directions of every edge at the guard go, and nothing else changes on the heap. |
| SessionRefreshCoordinator.Coordinator.RetireRefreshCookieLease | integrations/mem0-dashboard-overlay/overlays/src/utils/dashboard-session-refresh.ts:153-159 | The stored lease of a token becomes inactive and is dropped; nothing else changes. |
| SessionRefreshCoordinator.Coordinator.InvalidateRefreshTokenGuard | integrations/mem0-dashboard-overlay/overlays/src/utils/dashboard-session-refresh.ts:161-176 | The recursive walk that cuts edges while it follows them terminates on every graph and has killed, cut and forgotten exactly what it visited, which is closed under the edges of the graph it started on. |
| SessionRefreshCoordinator.Coordinator.InvalidateRefreshToken | integrations/mem0-dashboard-overlay/overlays/src/utils/dashboard-session-refresh.ts:375-378 | The heap state is that of killing exactly the family of the token's guard. |
| SessionRefreshCoordinator.Coordinator.PruneExpired | integrations/mem0-dashboard-overlay/overlays/src/utils/dashboard-session-refresh.ts:93-105 | Exactly the expired sessions and ambiguity records go, the others keep their order. |
| SessionRefreshCoordinator.Coordinator.CacheRefreshCookieLease | integrations/mem0-dashboard-overlay/overlays/src/utils/dashboard-session-refresh.ts:202-219 | The new lease displaces and deactivates the one stored before and the oldest over the limit. |
| SessionRefreshCoordinator.Coordinator.TouchRefreshCookieLease | integrations/mem0-dashboard-overlay/overlays/src/utils/dashboard-session-refresh.ts:221-226 | The lease moves to the end of the queue; no lease changes. |
| SessionRefreshCoordinator.Coordinator.QuarantineAmbiguousToken | integrations/mem0-dashboard-overlay/overlays/src/utils/dashboard-session-refresh.ts:228-240 | The token gets an ambiguity record and an ambiguous session, each at the end of its bounded queue. |
| SessionRefreshCoordinator.Coordinator.QuarantineKnownAmbiguousToken | integrations/mem0-dashboard-overlay/overlays/src/utils/dashboard-session-refresh.ts:242-255 | Answers whether an unexpired record exists, and renews or removes it with the session as the abstract step does. |
| SessionRefreshCoordinator.Coordinator.Refresh | integrations/mem0-dashboard-overlay/overlays/src/utils/dashboard-session-refresh.ts:346-374 | The reply (answered, joined or started) and the whole new heap state are those of the abstract refresh step. |
| SessionRefreshCoordinator.Coordinator.RotateRejected | integrations/mem0-dashboard-overlay/overlays/src/utils/dashboard-session-refresh.ts:281-289 | The heap state after a failed or timed-out upstream call is that of the abstract step. |
| SessionRefreshCoordinator.Coordinator.RotateResponded | integrations/mem0-dashboard-overlay/overlays/src/utils/dashboard-session-refresh.ts:290-301 | The same when a response has arrived. |
| SessionRefreshCoordinator.Coordinator.RotateBadBody | integrations/mem0-dashboard-overlay/overlays/src/utils/dashboard-session-refresh.ts:303-310 | The same when the body holds no tokens. |
| SessionRefreshCoordinator.Coordinator.RotateGoodBody | integrations/mem0-dashboard-overlay/overlays/src/utils/dashboard-session-refresh.ts:311-343 | The same when it does: link, lease, two sessions, or unauthorized if either guard has died. |
| SessionRefreshCoordinator.Coordinator.Finish | integrations/mem0-dashboard-overlay/overlays/src/utils/dashboard-session-refresh.ts:369-372 | The rotation leaves the in-flight map and its outcome is handed out. |
| SessionRefreshCoordinator.Coordinator.ShouldSetRefreshCookie | integrations/mem0-dashboard-overlay/overlays/src/utils/dashboard-session-refresh.ts:379-396 | The answer is the abstract predicate on the heap state. |
| SessionRefreshCoordinator.Coordinator.CountReachableTokenGuards | integrations/mem0-dashboard-overlay/overlays/src/utils/dashboard-session-refresh.ts:178-200 | The worklist walk counts exactly the guards reached from the roots along edges in either direction. |
| SessionRefreshCoordinator.Coordinator.GetStats | integrations/mem0-dashboard-overlay/overlays/src/utils/dashboard-session-refresh.ts:397-405 | After pruning every size is within its limit and the guards reached are at most six per cache entry. |
| MutationIntentTheorems.StartKeeps | src/mem0_sidecar/core/memory_ops.py:1265-1268 | A service without intents satisfies the invariant, whatever rows there are. |
| MutationIntentTheorems.StepKeeps | src/mem0_sidecar/core/memory_ops.py:1269-2252 | Every step (request, claim, commit section, failure, crash, operator verdict, time) keeps: one open intent per scope, unique operation keys, exactly the current holder of an active intent shows its token, one upstream add per intent, and targets that justify the status. |
| MutationIntentTheorems.RunKeeps | src/mem0_sidecar/core/memory_ops.py:1269-2252 | Every run keeps the invariant, and intents, tokens and the list of upstream adds only move forward. |
| MutationIntentTheorems.FenceExact | src/mem0_sidecar/store/repositories.py:2136-2161 | A running worker passes `require_active_attempt` exactly if it is the current holder of an active intent. |
| MutationIntentTheorems.OneOpenPerScope | src/mem0_sidecar/core/memory_ops.py:1348-1508 | Over every run of adds, updates, deletes, reconciliations, entity deletes, recoveries and operator verdicts, no two different intents of one scope are open. |
| MutationIntentTheorems.TerminalForever | src/mem0_sidecar/store/repositories.py:2225-2294 | A completed, failed or partial intent is the same in every later state. |
| MutationIntentTheorems.SupersededCommitsNothing | src/mem0_sidecar/store/repositories.py:2136-2161 | In every later state, a section of a worker whose intent was claimed by another changes no row, target or status. |
| MutationIntentTheorems.OnlyHolderCommits | src/mem0_sidecar/store/repositories.py:2136-2161 | A section that changes anything belongs to the worker that created or last claimed its intent, while that intent is active. |
| MutationIntentTheorems.ResolveIsFinal | src/mem0_sidecar/core/mutation_admin.py:86-212 | An operator verdict is accepted only while no worker of the intent passes the fence, and the failure it records stands, unchanged, for the rest of every run. |
| MutationIntentTheorems.AddCalledOnce | src/mem0_sidecar/core/memory_ops.py:1970-2252 | For one scope and idempotency key upstream `add_memory` is called at most once, and only after the intent was committed. |
| MutationIntentTheorems.EntryIs | src/mem0_sidecar/core/memory_ops.py:1269-1308 | What `add_memory` answers under a used key is decided by the one intent with that key. |
| MutationIntentTheorems.OtherRequestRefused | src/mem0_sidecar/core/memory_ops.py:1269-1308 | Once a key has an intent, a request with another fingerprint is refused in every later state, and the same one never starts a second add. |
| MutationIntentTheorems.SameRequestReplayed | src/mem0_sidecar/core/memory_ops.py:1269-1308 | Once an add has completed with a result, the same request is answered with that result in every later state. |
| MutationIntentTheorems.VerdictFitsTargets | src/mem0_sidecar/store/repositories.py:2225-2294 | Completed means that every target is done; partial means that all were gone through and some but not all are done. |
| MutationIntentTheorems.ClaimsBounded | src/mem0_sidecar/store/repositories.py:2088-2134 | A claim never raises the attempts above three, and succeeds at three only for an exhausted add, which is observed but not replayed. |
| MutationStore.Store.IsBlocked | src/mem0_sidecar/store/repositories.py:2010-2022 | The loop answers whether some intent of the scope is open. |
| MutationStore.Store.FindByOperationKey | src/mem0_sidecar/store/repositories.py:1818-1833 | Returns the intent of the scope with that operation and key if there is one. |
| MutationStore.Store.AddTargets | src/mem0_sidecar/store/repositories.py:1868-1888 | Adds one waiting or finished target for each id that is new, in order, unless that makes more than 5000. |
| MutationStore.Store.UpsertMemories | src/mem0_sidecar/store/repositories.py:3144-3235 | The loop over the records leaves the rows of the specification, and nothing else changes. |
| MutationStore.Store.DeleteMemory | src/mem0_sidecar/store/repositories.py:3362-3375 | A live row becomes deleted; every other row stays. |
| MutationStore.Store.CreateIntent | src/mem0_sidecar/store/repositories.py:1785-1816 | The locked section creates exactly the requested intent, unless the scope has an open one, the key is used, or the targets are missing or too many; then it changes nothing. |
| MutationStore.Store.ClaimRecovery | src/mem0_sidecar/store/repositories.py:2088-2134 | The claim succeeds exactly if the specification lets it, and leaves the intent it describes. |
| MutationStore.Store.CommitAdd | src/mem0_sidecar/core/memory_ops.py:1510-1752 | The commit of an added memory writes the rows and targets and completes the intent, or leaves the tables alone if the fence is lost. |
| MutationStore.Store.CommitEntityBatch | src/mem0_sidecar/core/entities.py:448-495 | The loop over a batch does what the batch section says; one changed row, or a lost fence, undoes all of it. |
| MutationStore.Store.CommitDeleteObserved | src/mem0_sidecar/core/memory_ops.py:1854-1968 | The targets missing upstream are done, their rows deleted, and the intent gets the verdict of its targets, or nothing changes. |
| MutationStore.Store.RecordIntentFailure | src/mem0_sidecar/core/memory_ops.py:1310-1346 | The failure is recorded exactly if the fence holds. |
| MutationStore.Store.ResolveIntent | src/mem0_sidecar/core/mutation_admin.py:113-208 | The verdict is recorded exactly if the intent is unknown or exhausted with the status and attempt the operator saw and no live lease; otherwise nothing changes. |
| ConsolidationTheorems.StartKeeps | src/mem0_sidecar/core/consolidation_service.py:95-120 | The empty service satisfies the invariant. |
| ConsolidationTheorems.StepKeeps | src/mem0_sidecar/core/consolidation_service.py:205-704 | Every section of approve, shadow, rollback and finalize, and every outside write to a memory, keeps: retired rows and only they name the proposal that retired them, as one of its targets; a row that a retired row was merged into was itself retired only later; each attempt is known, and has a lease. |
| ConsolidationTheorems.RunKeeps | src/mem0_sidecar/core/consolidation_service.py:205-704 | The same over every run, with any number of shadow attempts, takeovers and finalizers in between. |
| ConsolidationTheorems.MergesAcyclic | src/mem0_sidecar/core/consolidation_service.py:406-591 | In every reachable state no chain of links from retired rows to canonicals that were sources leads back to where it began. |
| ConsolidationTheorems.RetireClosesCycle | src/mem0_sidecar/core/consolidation_service.py:530-549 | Linking active targets to any canonical closes a cycle exactly if the chain from the canonical already leads to one of the targets. |
| ConsolidationTheorems.ShadowedLinksTo | src/mem0_sidecar/core/consolidation_service.py:530-549 | What a successful shadowing adds to the links: its targets lead to its canonical, and every other link stays. |
| ConsolidationTheorems.ShadowingKeepsAcyclic | src/mem0_sidecar/core/consolidation_service.py:530-549 | With replacement memories counted in, a shadowing keeps the links acyclic exactly if the chain of its canonical meets none of its targets. |
| ConsolidationCycles.StepAcyclic | src/mem0_sidecar/core/consolidation_service.py:494-555 | From a state without cycles, a step of the service leads to one with a cycle exactly if it is the successful end of a shadowing whose canonical leads to one of its targets. |
| ConsolidationCycles.RunAcyclicIff | src/mem0_sidecar/core/consolidation_service.py:205-591 | A run without a cycle at its start has none at any time exactly if it contains no such shadowing, whatever canonicals its proposals have. |
| ConsolidationCycles.ServiceAcyclicIff | src/mem0_sidecar/core/consolidation_service.py:205-591 | In particular every run from the empty service. |
| ConsolidationOutcomes.LinkStable | src/mem0_sidecar/core/consolidation_service.py:406-591 | The link is single-valued and stable: a retired row keeps its proposal and canonical until it is active again. |
| ConsolidationOutcomes.RollbackExact | src/mem0_sidecar/core/consolidation_service.py:557-591 | A rollback makes active exactly the live rows that this proposal retired and that are still in its application; all else about the rows stays. |
| ConsolidationOutcomes.RollbackComplete | src/mem0_sidecar/core/consolidation_service.py:557-591 | It brings back every live row the proposal had retired exactly if none of them is in another application. |
| ConsolidationOutcomes.LostAttemptRetiresNothing | src/mem0_sidecar/core/consolidation_service.py:185-203 | A shadow attempt that does not own its proposal any more never retires a row again, in any continuation. |
| ConsolidationOutcomes.TakeoverLoses | src/mem0_sidecar/core/consolidation_service.py:406-440 | A lease that has not expired is never taken over, and after a takeover the earlier attempt is lost. |
| ConsolidationFindings.ReplacementClosesCycle | src/mem0_sidecar/core/consolidation_service.py:205-344 | A concrete run from the empty service in which two proposals with a replacement memory retire rows in a cycle. |
| ConsolidationFindings.RollbackMissesMoved | src/mem0_sidecar/core/consolidation_service.py:557-591 | A concrete run from the empty service after which a live row is still retired by a rolled back proposal, because it moved to another application in between. |
| ConsolidationFinalizing.DeletesAreCleared | src/mem0_sidecar/core/consolidation_service.py:602-704 | Every upstream delete in the log of every run was cleared by the same finalizer before: grace over and export complete at its start, then row retired by this proposal, unpinned and with the expected hash, then source and canonical matched upstream. |
| ConsolidationFinalizing.LooksAreSound | src/mem0_sidecar/core/consolidation_service.py:640-690 | A look that let a target through saw its row live, retired by this proposal, unpinned and with the expected hash. |
| ConsolidationFinalizing.LineageIsSound | src/mem0_sidecar/core/consolidation_service.py:593-704 | A source has at most one lineage row per proposal, and only after upstream answered that it does not exist. |
| ConsolidationFinalizing.AppliedMeansFinished | src/mem0_sidecar/core/consolidation_service.py:602-704 | When a finalizer applies its proposal, every source but the canonical has its lineage row and was seen to be gone upstream. |
| ConsolidationRerun.FinishedNeverDeletedAgain | src/mem0_sidecar/core/consolidation_service.py:602-704 | However often a finalizer crashes and another starts, upstream is never asked to delete a target that already has its lineage row, unless two finalizers run side by side. |
| ConsolidationFinishing.LiveNext | src/mem0_sidecar/core/consolidation_service.py:629-663 | A live target whose turn has come must be deletable, with the canonical and the open intent in order: recovery is never tried for a target that is only gone upstream. |
| ConsolidationFinishing.ResolvedIff | src/mem0_sidecar/core/memory_ops.py:1348-1508 | With a target to delete next, a proposal can be finished exactly if recovery can claim and will settle the open intent of the application, and it can be finished from there, with the rows that recovery deletes. |
| ConsolidationFinishing.DeletedIff | src/mem0_sidecar/core/memory_ops.py:4043-4226 | Deleting the next target on both sides changes nothing about whether the proposal can be finished: the other targets, the canonical and the order of healing stay as they were. |
| ConsolidationFinishing.NotedIff | src/mem0_sidecar/core/consolidation_service.py:684-696 | Nor does the lineage row of a target that is gone on both sides. |
| ConsolidationReruns.StepFollows | src/mem0_sidecar/core/consolidation_service.py:602-704 | Every step of a finalizer that runs alone, with every answer, failure, timeout or crash, keeps what the finalizer relies on, and keeps the proposal applicable exactly if it was and the step is not one of three: a crash between the commit of its intent and the commit of the row, a lost answer to the delete, or a crash or failed observation in the last attempt of another intent. |
| ConsolidationReruns.RerunsStay | src/mem0_sidecar/core/consolidation_service.py:602-704 | The same over any sequence of reruns: afterwards the proposal is applied, or can still be, exactly if it could at the start and none of those events happened. |
| ConsolidationReruns.CrashLosesIff | src/mem0_sidecar/core/consolidation_service.py:602-704 | A finalizer on its way dies at any point: the proposal can still be finished exactly unless its intent was committed and its row not yet, or the attempts of another intent are used up. |
| ConsolidationReruns.GoesThrough | src/mem0_sidecar/core/consolidation_service.py:602-704 | A finalizer on its way reaches APPLIED by its own steps, if it waits for the lease of the open intent and nothing fails. |
| ConsolidationReruns.FinishIff | src/mem0_sidecar/core/consolidation_service.py:602-704 | Some sequence of reruns, with time passing and nobody else at work, applies a shadowed proposal exactly if the tables and upstream allow it as they stand: every target is recorded, deleted on both sides, unchanged on both sides, or gone upstream with an open delete intent that recovery settles before its turn; and, if anything is to be deleted, the canonical matches and no open intent would stay unresolved. Then one finalizer is enough. |
| ConsolidationReruns.Stuck | src/mem0_sidecar/core/consolidation_service.py:602-704 | From every other state no sequence of reruns ever applies the proposal. |
| ConsolidationStuck.CrashLeavesStuck | src/mem0_sidecar/core/memory_ops.py:4120-4226 | Two concrete runs from the empty service after which no sequence of reruns ever applies the proposal: the finalizer dies after the commit of its delete intent, or after upstream has deleted the memory. |
| ConsolidationStore.Service.ProposalSources | src/mem0_sidecar/core/consolidation_service.py:126-160 | The loop answers whether every source is present, live, active, unpinned and unchanged. |
| ConsolidationStore.Service.FinishShadow | src/mem0_sidecar/core/consolidation_service.py:494-555 | The last section of a shadow attempt: loss of ownership, changed sources and upstream mismatches are told apart, and the tables become those of the abstract step. |
| ConsolidationStore.Service.RetireTargets | src/mem0_sidecar/core/consolidation_service.py:530-549 | The loop retires exactly the sources other than the canonical. |
| ConsolidationStore.Service.RollbackShadowed | src/mem0_sidecar/core/consolidation_service.py:557-591 | Rows and proposal become those of the abstract rollback, and the count is the number of rows made active. |
| ConsolidationStore.Service.RestoreSources | src/mem0_sidecar/core/consolidation_service.py:557-591 | The loop makes active exactly the rows that a rollback may restore, and counts them once each. |
| QueryMemories.Query.constructor | src/mem0_sidecar/core/memory_ops.py:2434-2450 | A query starts with the window of one batch and empty tables. |
| QueryMemories.Query.CandidatePage | src/mem0_sidecar/core/memory_ops.py:2451-2473 | Reads the window and notes every row as it was first seen, or that one has changed since. |
| QueryMemories.Query.Hydrate | src/mem0_sidecar/core/memory_ops.py:2475-2506 | Files every row of the batch as hydrated or stale, as upstream answers; the rest of the tables stays. |
| QueryMemories.Query.FinalizeQuery | src/mem0_sidecar/core/memory_ops.py:2508-2627 | The outcome is a conflict exactly if the checks say so, and otherwise the cut of the final rows. |
| QueryMemories.Query.Conflicts | src/mem0_sidecar/core/memory_ops.py:2508-2622 | The loops find a conflict exactly if a hydrated or stale row has changed or a row of the page was not hydrated. |
| QueryMemories.Query.Run | src/mem0_sidecar/core/memory_ops.py:2628-2702 | The loop terminates against database answers that change arbitrarily, and its outcome and final tables are those of the recursive specification. |
| QueryMemoriesTheorems.RunKeeps | src/mem0_sidecar/core/memory_ops.py:2628-2702 | However the readings differ, the loop fetches at most 5000 ids and its tables say exactly what upstream answered about rows as they were read. |
| QueryMemoriesTheorems.AnsweredPage | src/mem0_sidecar/core/memory_ops.py:2508-2627 | Every answered page holds what upstream confirms of the final rows from the offset to where page and window end, every needed row was hydrated from the row as it is in the last reading, and the window is between one batch and 5000. |
| QueryMemoriesTheorems.QuietAnswered | src/mem0_sidecar/core/memory_ops.py:2404-2713 | Over a projection of at most 5000 rows that nobody changes the query is always answered, with the whole page. |
| QueryMemoriesTheorems.FirstWindowExact | src/mem0_sidecar/core/memory_ops.py:2628-2702 | A page that lies inside the first window is answered whole, whatever else changes. |
| QueryMemoriesTheorems.LatePageShort | src/mem0_sidecar/core/memory_ops.py:2628-2702 | For every other page there are readings for which the query itself answers with fewer records than the page has rows. |
| QueryMemoriesTheorems.OffsetDecides | src/mem0_sidecar/core/memory_ops.py:2438-2445 | For every offset and size within the horizon, all answered pages of all runs are whole exactly if the offset is at most 20. |
| QueryMemoriesTheorems.CompleteIff | src/mem0_sidecar/core/memory_ops.py:2438-2445 | The same for page numbers: whole in every run exactly if (page - 1) * size is at most 20. Page 2 of size 100 and page 3 of size 20 are not. |
| ScanCursor.Base64RoundTrip | src/mem0_sidecar/core/memory_scan_cursor.py:82-128 | Decoding base64url with the padding taken off and put back returns the bytes (sections 4 and 5 of RFC 4648). |
| ScanCursor.CursorRoundTrip | src/mem0_sidecar/core/memory_scan_cursor.py:82-170 | `decode_cursor` returns the encoded state exactly if the token has at most 4096 characters, for UTC states with a total and ids that the parser allows. |
| ScanCursor.OtherScopeRefused | src/mem0_sidecar/core/memory_scan_cursor.py:119-170 | A cursor is refused for every other scope whose digest or MAC differs. |
| ScanCursor.ScopePayloadInjective | src/mem0_sidecar/core/memory_scan_cursor.py:55-74 | Scopes with the same payload are the same scope. |
| MemoryScan.Scanner.InitialTotal | src/mem0_sidecar/core/memory_scan.py:63-98 | The batches of 200 add up to the number of matching rows up to the upper bound. |
| MemoryScan.Scanner.Examine | src/mem0_sidecar/core/memory_scan.py:145-154 | The loop stops at the row that fills the page; what it keeps are the matching rows of what it examined. |
| MemoryScan.Scanner.Scan | src/mem0_sidecar/core/memory_scan.py:100-245 | Which cursors are refused, what a first request starts from, and what a page answers and marks from there. |
| MemoryScan.Scanner.PageFrom | src/mem0_sidecar/core/memory_scan.py:134-245 | The page answers the confirmed records of the examined rows, a cursor exactly if rows remain, and a conflict exactly if a row of the page changed; it marks exactly the unconfirmed rows. |
| MemoryScan.NextPage | src/mem0_sidecar/core/memory_scan.py:100-245 | One request of an undisturbed scan moves from its position to the next and answers what lies between. |
| MemoryScan.Traverse | src/mem0_sidecar/core/memory_scan.py:100-245 | Following the cursors over a projection that nobody else changes ends, for every page size and filter, provided that every cursor on the way has at most 4096 characters (a longer one is refused); every matching row is visited once in key order; confirmed and stale rows add up to the total. |
| MirrorDirectWrites.Mirror.ListCandidates | src/mem0_sidecar/store/repositories.py:2742-2783 | A batch holds eligible ids in key order, at most 200, and omits none before its last. |
| MirrorDirectWrites.Mirror.MarkGone | src/mem0_sidecar/core/memory_ops.py:3277-3322 | The loop over batches marks exactly the eligible rows that are not kept, and counts them. |
| MirrorDirectWrites.Mirror.IndexRecords | src/mem0_sidecar/core/memory_ops.py:3209-3268 | The batches leave the rows of indexing one record after the other, and the counts are those of its effects. |
| MirrorDirectWrites.Mirror.MirrorAll | src/mem0_sidecar/core/memory_ops.py:3122-3336 | Every listed record is counted once: scanned is indexed plus foreign plus invalid, indexed is created plus updated plus unchanged; the table is that of one pass. |
| MirrorDirectWrites.CompletePassKeepsListed | src/mem0_sidecar/core/memory_ops.py:3122-3336 | After a complete pass with no other writer, every live row has an id that was listed as accepted or could not be classified. |
| MirrorDirectWrites.SecondPassIdle | src/mem0_sidecar/core/memory_ops.py:3122-3336 | With distinct ids and no other writer, the same listing a second time creates, updates and marks nothing. |
| CategorySchemaTheorems.BuilderIff | integrations/mem0-dashboard-overlay/overlays/src/utils/category-schema.ts:80-139 | A document opens in the builder exactly if it is in the supported subset of JSON Schema, defined without the reader; otherwise a path is reported. |
| CategorySchemaTheorems.FieldRoundTrip | integrations/mem0-dashboard-overlay/overlays/src/utils/category-schema.ts:195-287 | A valid field in canonical form, at either depth, is read back as its active part. |
| CategorySchemaTheorems.FieldsRoundTrip | integrations/mem0-dashboard-overlay/overlays/src/utils/category-schema.ts:80-163 | For valid field lists in canonical form the saved schema opens in the builder with the same fields up to ids and unused parts. |
| CategorySchemaPrinting.SchemaPrintable | integrations/mem0-dashboard-overlay/overlays/src/utils/category-schema.ts:141-163 | The schema of such fields survives printing and parsing. |
| CategorySchemaPrinting.ActiveSaysTheSame | integrations/mem0-dashboard-overlay/overlays/src/utils/category-schema.ts:380-437 | Fields and their active parts are saved as the same schema. |
| CategorySchemaLimits.ValidReopensIff | integrations/mem0-dashboard-overlay/overlays/src/utils/category-schema.ts:422-536 | For fields that merely validate: the saved schema opens in the builder exactly if every date default is a date without trimming and no default is one of the blank options that are dropped. |
| CategorySchemaLimits.UntrimmedDateRejected | integrations/mem0-dashboard-overlay/overlays/src/utils/category-schema.ts:498-536 | A date default with a blank before it validates, and its schema does not open in the builder. |
| CategorySchemaEditor.BuildSchema | integrations/mem0-dashboard-overlay/overlays/src/utils/category-schema.ts:141-163 | The loop over the fields builds the document of the specification. |
| CategorySchemaEditor.ReadSchema | integrations/mem0-dashboard-overlay/overlays/src/utils/category-schema.ts:80-139 | The reader that pushes paths into one list gives the mode and fields of the specification, and its paths without repetitions. |
| CategorySchemaEditor.ReadProperties | integrations/mem0-dashboard-overlay/overlays/src/utils/category-schema.ts:80-139 | The loop over properties reads every field, and adds each new path once. |
| CategorySchemaEditor.ValidateFields | integrations/mem0-dashboard-overlay/overlays/src/utils/category-schema.ts:439-474 | The loop that counts keys finds no error exactly if the specification allows the fields. |
| CategoryEditorState.FingerprintIff | integrations/mem0-dashboard-overlay/overlays/src/utils/category-editor-state.ts:81-99 | Two field lists have the same fingerprint exactly if they are equal (ids are not part of a field here). |
| CategoryEditorState.UntouchedSavesStored | integrations/mem0-dashboard-overlay/overlays/src/utils/category-editor-state.ts:60-79 | Saving a draft that was only opened returns the stored schema, in either mode. |
| CategoryEditorState.BuilderSaves | integrations/mem0-dashboard-overlay/overlays/src/utils/category-editor-state.ts:60-79 | A builder draft returns the stored schema exactly if its fields are those it was opened with, and the document of its fields otherwise. |
| CategoryEditorState.AdvancedSaves | integrations/mem0-dashboard-overlay/overlays/src/utils/category-editor-state.ts:60-79 | An advanced draft saves exactly what its text says, if that is an object. |
| CategoryEditorState.NewSaves | integrations/mem0-dashboard-overlay/overlays/src/utils/category-editor-state.ts:60-79 | A builder draft without a stored schema, or opened as text, saves the document of its fields. |
| CategoryEditorState.BuilderOpensIff | integrations/mem0-dashboard-overlay/overlays/src/utils/category-editor-state.ts:117-141 | Leaving the text succeeds exactly if it is an object of the supported subset, is refused exactly if it is no object, and asks first otherwise. |
| CategoryEditorState.AdvancedAndBack | integrations/mem0-dashboard-overlay/overlays/src/utils/category-editor-state.ts:105-141 | Builder to raw text to builder returns valid fields in canonical form up to ids and unused parts. |
| CategoryHashes.ProjectionCategoryHashes | src/mem0_sidecar/core/memory_ops.py:291-329 | The loop over the chunks decides as the specification of the decoder. |
| CategoryHashes.DecodeIff | src/mem0_sidecar/core/memory_ops.py:277-329 | A stored snapshot is accepted as a list of hashes exactly if the list is strictly sorted and the snapshot is the one that encodes it. |
| CategoryHashes.SortedHashesAre | src/mem0_sidecar/core/memory_ops.py:277-288 | The encoded hashes are sorted and are exactly those of the names, whatever their order and repetitions. |
| CategoryHashes.ChunkAt | src/mem0_sidecar/core/memory_ops.py:277-288 | Every chunk holds the next 32 hashes, and the last one those that are left. |
| CategoryHashes.IncompleteIff | src/mem0_sidecar/core/memory_ops.py:291-329 | A stored snapshot is incomplete exactly if it has the right form and a chunk before the last is too short, or all chunks are fine and number, order or fingerprint are wrong; every other refusal calls it malformed. |
| CategoryHashes.SnapshotDecodes | src/mem0_sidecar/core/memory_ops.py:277-329 | Decoding the snapshot of names returns their sorted hashes. |
| TracePayloads.Sanitizer.Sanitize | src/mem0_sidecar/core/trace_payloads.py:424-469 | Output and remaining budget are those of the recursive specification, and the path of active containers is restored. |
| TracePayloads.Sanitizer.SanitizeMapping | src/mem0_sidecar/core/trace_payloads.py:266-319 | The same for a mapping, with its truncation count. |
| TracePayloads.Sanitizer.SanitizeField | src/mem0_sidecar/core/trace_payloads.py:266-319 | The same for the entries that share an output key. |
| TracePayloads.Sanitizer.SanitizeSequence | src/mem0_sidecar/core/trace_payloads.py:357-386 | The same for a sequence. |
| TracePayloads.Sanitizer.SanitizeItems | src/mem0_sidecar/core/trace_payloads.py:357-386 | The loop keeps the items up to one that cannot be read. |
| TracePayloads.SortedKeysAre | src/mem0_sidecar/core/trace_payloads.py:229-248 | The output keys of a mapping are sorted, distinct, and exactly the keys of some entry. |
| Utf8.DecodeCut | src/mem0_sidecar/core/trace_payloads.py:118-136 | Decoding a cut of an encoding gives exactly the whole characters before the cut. |
| Utf8.DecodeEncode | src/mem0_sidecar/core/trace_payloads.py:118-136 | Decoding inverts encoding up to the replaced surrogates. |
| TracePayloadTheorems.ShortPasses | src/mem0_sidecar/core/trace_payloads.py:118-136 | A string of at most 4096 bytes passes, its surrogates replaced. |
| TracePayloadTheorems.LongIsCut | src/mem0_sidecar/core/trace_payloads.py:118-136 | A longer one keeps the most characters that leave room for the marker, and the marker. |
| TracePayloadTheorems.BoundedFits | src/mem0_sidecar/core/trace_payloads.py:118-136 | Every bounded string has at most 4096 bytes and no surrogates. |
| TracePayloadTheorems.SecretsHaveNoInfluence | src/mem0_sidecar/core/trace_payloads.py:266-319 | Two object graphs, cyclic or not, related by any correspondence of containers and differing only in what is stored under secret keys, sanitize to the same output. |
| TracePayloadBounds.PayloadFits | src/mem0_sidecar/core/trace_payloads.py:424-482 | Whatever the object graph: at most ten levels, 51 entries a container, strings and keys of at most 4096 bytes, distinct keys, and a bounded number of values in all. |
| TracePayloadFaithful.HarmlessPasses | src/mem0_sidecar/core/trace_payloads.py:424-482 | A payload without secret keys and within all limits comes out as it went in, keys sorted, however it is laid out on the heap. |
| TraceDocument.BoundedTraceDocument | src/mem0_sidecar/core/trace_payloads.py:495-527 | The document is that of the specification; below two bytes it raises. |
| TraceDocument.Fit | src/mem0_sidecar/core/trace_payloads.py:495-527 | The loop that collapses one field after the other stops at the first document that fits. |
| TraceDocument.DocumentFits | src/mem0_sidecar/core/trace_payloads.py:495-527 | Every document fits the limit; it collapses the largest fields, and no more of them than needed. |
| TraceDocument.SecretsStayOut | src/mem0_sidecar/core/trace_payloads.py:495-527 | Documents of graphs that differ only under secret keys are the same. |
| EntityMigration.Database.Upgrade | migrations/versions/0006_entity_projection_scope.py:245-328 | Whether the upgrade raises, and the whole of both tables after it: the app column from the snapshot or the default, duplicates removed, snapshot gone. |
| EntityMigration.Database.FillApps | migrations/versions/0006_entity_projection_scope.py:247-289 | The loop fills the app of every entity from the snapshot or the default. |
| EntityMigration.Database.DeleteDuplicates | migrations/versions/0006_entity_projection_scope.py:290-314 | The loop removes exactly the entities whose row number in their group is above one. |
| EntityMigration.Database.Downgrade | migrations/versions/0006_entity_projection_scope.py:331-341 | The app column moves into a new snapshot that validates. |
| EntityMigration.Database.RebuildSnapshot | migrations/versions/0006_entity_projection_scope.py:200-242 | The loop writes one data row for each entity and a marker with their number. |
| EntityMigrationTheorems.ValidatesIff | migrations/versions/0006_entity_projection_scope.py:65-109 | The SQL aggregates accept a snapshot exactly if its data rows have different ids and one marker gives their number. |
| EntityMigrationTheorems.RoundTrip | migrations/versions/0006_entity_projection_scope.py:200-341 | Downgrade and upgrade with no writes between leave entities and apps as they were and delete nothing, if the groups were unique. |
| EntityMigrationTheorems.WritesAreMerged | migrations/versions/0006_entity_projection_scope.py:200-341 | With arbitrary inserts, deletes and updates between: the upgrade is accepted, known entities keep their app, groups become unique, no group disappears, and the survivor is the newest of its group. |
| EntityMigrationTheorems.Deduplicated | migrations/versions/0006_entity_projection_scope.py:290-314 | Deleting duplicates keeps of each group exactly the maximum by updated_at, created_at and id. |
| EntityMigrationTheorems.DowngradeAndUpgrade | migrations/versions/0006_entity_projection_scope.py:245-341 | The two methods in sequence leave the database as it was. |
| ConsolidationAnalysis.AnalyzeScope | src/mem0_sidecar/core/consolidation_analysis.py:217-340 | The proposals are those of the specification. |
| ConsolidationAnalysis.DraftGroups | src/mem0_sidecar/core/consolidation_analysis.py:254-297 | The loop over sorted group keys gives the exact drafts and the ids in them. |
| ConsolidationAnalysis.DraftRetention | src/mem0_sidecar/core/consolidation_analysis.py:299-337 | The loop gives the drafts of the rows past retention that are in no exact group. |
| ConsolidationAnalysis.GroupRows | src/mem0_sidecar/core/consolidation_analysis.py:239-253 | The loop collects for every key its rows, in order. |
| ConsolidationAnalysisTheorems.OrderDoesNotMatter | src/mem0_sidecar/core/consolidation_analysis.py:217-340 | The same anchors with distinct ids in another order give the same proposals. |
| ConsolidationAnalysisTheorems.LeastIs | src/mem0_sidecar/core/consolidation_analysis.py:123-132 | The canonical row of a group is before every other row of it. |
| ConsolidationAnalysisTheorems.AnalysisIs | src/mem0_sidecar/core/consolidation_analysis.py:217-340 | The proposals are the first, as many as the policy allows in a run and in the order of kind and sources, of the drafts, with pairwise disjoint sources: one for every exact group, with all its ids and its unique first row as canonical, and one for each other eligible row past its retention, and no more. |
| Ranking.Ranker.RankResults | src/mem0_sidecar/core/ranking.py:131-253 | When it refuses, when the sort raises, which rows are returned, and that exactly the returned live memories are counted as used, once each. |
| Ranking.Ranker.Select | src/mem0_sidecar/core/ranking.py:156-221 | The loop selects and adjusts exactly the eligible candidates, in order. |
| RankingTheorems.RankNearScore | src/mem0_sidecar/core/ranking.py:174-221 | A rank score is within a quarter of its score and has the same sign. |
| RankingTheorems.RankMonotone | src/mem0_sidecar/core/ranking.py:174-221 | At the same score, a newer memory and one used more are ranked no lower. |
| RankingTheorems.SortedIs | src/mem0_sidecar/core/ranking.py:223-225 | The sort is descending, keeps ties in order, and adds and loses nothing. |
| RankingTheorems.StableSortUnique | src/mem0_sidecar/core/ranking.py:223-225 | There is only one such sequence. |
| RankingTheorems.RankedIs | src/mem0_sidecar/core/ranking.py:156-225 | Results are eligible candidates, every one of them considered; with a weight in force they are the top of the stable descending sort, cut to the limit, and otherwise the first candidates. |
| RankingTheorems.UnscoredLastIff | src/mem0_sidecar/core/ranking.py:223-225 | Sorting puts unscored rows last exactly if none of them overtakes a scored one by the rank score it brought along. |
| RankingTheorems.UnrankedLast | src/mem0_sidecar/core/ranking.py:156-225 | If no eligible unscored candidate brings a rank score along, unscored rows come last for every order of candidates and every limit. |
| RankingTheorems.BehindIff | src/mem0_sidecar/core/ranking.py:174-225 | An unscored candidate comes behind every scored one, whatever that one and its memory are, exactly if it brings no rank score along. |
| SessionRefreshEffects.RefreshReplies | integrations/mem0-dashboard-overlay/overlays/src/utils/dashboard-session-refresh.ts:346-374 | Who is answered what: a dead guard means unauthorized, then an unexpired session answers, then a rotation in flight is joined, and otherwise one is started. |
| SessionRefreshEffects.Refreshed | integrations/mem0-dashboard-overlay/overlays/src/utils/dashboard-session-refresh.ts:346-374 | The whole state after a refresh: expired entries gone, the guard fetched with the oldest evicted, dead and unlinked, the session or the rotation as the reply says. |
| SessionRefreshEffects.Rejected | integrations/mem0-dashboard-overlay/overlays/src/utils/dashboard-session-refresh.ts:281-289 | A failed or timed-out call settles as an ambiguity: the user is neither signed in nor out, and the token is quarantined. |
| SessionRefreshEffects.BadBodied | integrations/mem0-dashboard-overlay/overlays/src/utils/dashboard-session-refresh.ts:303-310 | A body without tokens does the same. |
| SessionRefreshEffects.RefusalDoubted | integrations/mem0-dashboard-overlay/overlays/src/utils/dashboard-session-refresh.ts:290-301 | Upstream refuses a token whose last rotation was lost: nobody is signed out, and the ambiguity record keeps its end. |
| SessionRefreshEffects.RefusalBelieved | integrations/mem0-dashboard-overlay/overlays/src/utils/dashboard-session-refresh.ts:290-301 | Upstream refuses a token without such a record: the user is signed out and the lease of the token retired. |
| SessionRefreshEffects.OtherwiseResponded | integrations/mem0-dashboard-overlay/overlays/src/utils/dashboard-session-refresh.ts:290-301 | Any other failure settles as a failure and leaves sessions, leases, guards and records as they were. |
| SessionRefreshEffects.Rotated | integrations/mem0-dashboard-overlay/overlays/src/utils/dashboard-session-refresh.ts:311-343 | With both guards alive the user is signed in, the guard of the result becomes a successor of the guard of the request and no other guard gains a successor, and the sessions, lease and records are as installed; otherwise nobody is signed in and nothing is installed. |
| SessionRefreshEffects.InvalidateIs | integrations/mem0-dashboard-overlay/overlays/src/utils/dashboard-session-refresh.ts:375-378 | A logout kills the guard of the token and exactly what its successor edges reach, and every edge at a killed guard goes. |
| SessionRefreshEffects.EdgeStays | integrations/mem0-dashboard-overlay/overlays/src/utils/dashboard-session-refresh.ts:142-176 | An edge between two guards stays, through every run, while both are alive. |
| SessionRefreshEffects.LogoutReachesResult | integrations/mem0-dashboard-overlay/overlays/src/utils/dashboard-session-refresh.ts:161-176 | A rotation leads from one token to another. Logging out with the old token at any later moment while its guard is alive leaves the guard of the new one dead, and while that guard is stored every refresh of the new token is answered unauthorized. |
| SessionRefreshEffects.RotationEarnsCookie | integrations/mem0-dashboard-overlay/overlays/src/utils/dashboard-session-refresh.ts:379-396 | A rotation that signed the user in earns the cookie when it settles, unless it brought the same token again. |
| SessionRefreshEffects.CookieMeans | integrations/mem0-dashboard-overlay/overlays/src/utils/dashboard-session-refresh.ts:379-396 | A cookie is set exactly for a sign-in with another token whose lease is the stored one, active, and names two stored guards that are alive. |
| SessionRefreshEffects.RootsAre | integrations/mem0-dashboard-overlay/overlays/src/utils/dashboard-session-refresh.ts:178-200 | The roots are the stored guards and those named by a stored lease or by the lease of a session. |
| MutationIntentEffects.Fenced | src/mem0_sidecar/store/repositories.py:2136-2161 | A section whose worker does not show the token of an active intent writes nothing at all. |
| MutationIntentEffects.AddCommits | src/mem0_sidecar/core/memory_ops.py:1970-2252 | An add, by its request or by recovery, leaves one target for each memory, one live row for each with the last content of the records, and a completed intent. |
| MutationIntentEffects.UpdateCommits | src/mem0_sidecar/core/memory_ops.py:2815-3025 | An update gives exactly its row the new content, or fails and deletes the row when the memory is missing upstream; a request does so only if its row is as it read it. |
| MutationIntentEffects.DeleteCommits | src/mem0_sidecar/core/memory_ops.py:4043-4226 | A delete that upstream answered completes and deletes exactly its row, if that row is as the request read it. |
| MutationIntentEffects.ObservedDeletes | src/mem0_sidecar/core/memory_ops.py:1854-1968 | For every observed delete: a waiting target is done afterwards exactly if upstream does not have its memory, exactly the live rows of those memories are dead, and the intent stays open exactly if a waiting target is still upstream. |
| MutationIntentEffects.BatchCommits | src/mem0_sidecar/core/entities.py:448-495 | A batch commits whole or not at all: if every row that upstream deleted is as the request read it, exactly those rows are dead, the targets are marked and the request goes on behind them. |
| MutationIntentEffects.EntityConcludes | src/mem0_sidecar/core/entities.py:448-495 | After its last batch an entity delete is completed, or failed if every target was refused, or partial if only some were. |
| MutationIntentEffects.PlainCommits | src/mem0_sidecar/core/memory_ops.py:1310-2252 | How every other section leaves its intent, its event and its lease; none touches a target, or a row that it was not given to write. |
| MutationIntentEffects.AdmittedIs | src/mem0_sidecar/store/repositories.py:1785-1816 | A request is admitted exactly if nothing is open in its scope, its key is new and its targets are live, of the right number and not too many. |
| MutationIntentEffects.Creates | src/mem0_sidecar/store/repositories.py:1785-1816 | A new intent waits for each of its targets once, in its first attempt and for five minutes; the request remembers the rows it read. |
| MutationIntentEffects.Claims | src/mem0_sidecar/store/repositories.py:2088-2134 | A claim succeeds exactly if no lease runs and attempts are left or an exhausted add is to be observed; it makes the claimer the holder for five minutes, and one claim too many exhausts the intent. |
| MutationIntentEffects.Verdicts | src/mem0_sidecar/core/mutation_admin.py:86-212 | The verdict of an operator fails exactly an unresolved intent that is as the operator saw it and that nobody works on. |
| MutationIntentEffects.AddGoesThrough | src/mem0_sidecar/core/memory_ops.py:1970-2252 | An undisturbed add of an admitted request goes through: upstream is called once more and the intent completes with its rows. |
| MutationIntentEffects.Replies | src/mem0_sidecar/core/memory_ops.py:1269-1308 | What a repeated add is answered, by the fingerprint, the status, the result and the lease of the intent. |
| ConsolidationEffects.IntactIs | src/mem0_sidecar/core/consolidation_service.py:126-160 | Sources are intact exactly if each has a live active row of the application with the hash that was recorded and none is pinned. |
| ConsolidationEffects.Approves | src/mem0_sidecar/core/consolidation_service.py:205-344 | What an approval does: stale if a source is not intact, nothing if the chosen canonical is no source, and otherwise hashes and canonical recorded. |
| ConsolidationEffects.ReplacementAsked | src/mem0_sidecar/core/consolidation_service.py:205-344 | A replacement may be asked for only in review, and decides nothing before it is there. |
| ConsolidationEffects.ReplacementDecides | src/mem0_sidecar/core/consolidation_service.py:205-344 | It becomes the canonical with its own hash if the sources are still intact. |
| ConsolidationEffects.ShadowingBegins | src/mem0_sidecar/core/consolidation_service.py:406-493 | An attempt takes exactly an approved proposal, or one whose lease is over, and has it until its own lease ends. |
| ConsolidationEffects.MismatchEnds | src/mem0_sidecar/core/consolidation_service.py:494-529 | A mismatch upstream before the export makes the proposal stale, if the attempt still has it. |
| ConsolidationEffects.ShadowingEnds | src/mem0_sidecar/core/consolidation_service.py:494-555 | If it succeeds exactly the targets are retired, superseded by the canonical or archived by the kind of proposal, and the deadline is the present time plus the grace period; if the attempt lost the proposal nothing is written; otherwise it is failed or stale. |
| ConsolidationEffects.RollsBack | src/mem0_sidecar/core/consolidation_service.py:557-591 | A rollback writes exactly the rows that this proposal retired and takes the deadline away. |
| ConsolidationEffects.FinalizerBegins | src/mem0_sidecar/core/consolidation_service.py:602-628 | A finalizer begins exactly if the proposal is shadowed and exported, its deadline is over and deletes are enabled. |
| ConsolidationFinalizerEffects.Looks | src/mem0_sidecar/core/consolidation_service.py:640-663 | What a look does to the finalizer, the proposal and the log: a target with a lineage row is done, one that is live, in the application, retired by the proposal, unpinned and unchanged is checked, one dead here only is verified, and for any other the proposal fails. |
| ConsolidationFinalizerEffects.Checks | src/mem0_sidecar/core/consolidation_service.py:353-404 | Deleting goes on exactly if upstream has the target, and the canonical if there is one, as they were approved. |
| ConsolidationFinalizerEffects.ClaimsIntent | src/mem0_sidecar/store/repositories.py:2088-2134 | The open intent of the application stops the finalizer if it is spent or at work, is spent after three attempts, and is claimed for five minutes otherwise. |
| ConsolidationFinalizerEffects.Observes | src/mem0_sidecar/core/memory_ops.py:1348-1508 | Recovery kills exactly the rows of the memories that the claimed intent deletes and upstream does not have, and closes the intent exactly if nothing of it is left. |
| ConsolidationFinalizerEffects.Opens | src/mem0_sidecar/core/memory_ops.py:4043-4226 | The own intent is committed exactly if the application has none and the row is live in it. |
| ConsolidationFinalizerEffects.Asks | src/mem0_sidecar/core/memory_ops.py:4043-4226 | What an answer, a refusal and a lost response leave upstream, of the own intent and of the finalizer. |
| ConsolidationFinalizerEffects.Commits | src/mem0_sidecar/core/memory_ops.py:4043-4226 | The row dies and the own intent is closed exactly if the intent is still its own and the row as it was. |
| ConsolidationFinalizerEffects.Verifies | src/mem0_sidecar/core/consolidation_service.py:593-601 | A target counts as gone exactly if upstream answers that it does not exist; if it does, the proposal fails. |
| ConsolidationFinalizerEffects.Records | src/mem0_sidecar/core/consolidation_service.py:684-696 | The target gets one lineage row, and the turn of the next target comes. |
| ConsolidationFinalizerEffects.Applies | src/mem0_sidecar/core/consolidation_service.py:697-704 | Behind the last target the proposal is applied, and nothing else changes. |
| ConsolidationGrace.StepDeadline | src/mem0_sidecar/core/consolidation_service.py:494-555 | No step but the successful end of a shadowing, or a rollback, changes the deadline of a proposal. |
| ConsolidationGrace.NothingBefore | src/mem0_sidecar/core/consolidation_service.py:602-628 | Until the deadline no finalizer begins and nothing is asked to be deleted, except by finalizers that were at work before. |
| ConsolidationGrace.GraceHolds | src/mem0_sidecar/core/consolidation_service.py:550-613 | A proposal is shadowed with a grace period. In every continuation in which it is not shadowed again, before the period is over only finalizers that had begun before work on it, and only they have asked upstream to delete for it. |
| ConsolidationGrace.GraceEnds | src/mem0_sidecar/core/consolidation_service.py:602-628 | From the end of the period on a finalizer may begin if the proposal is still shadowed, and not a moment earlier. |
| ConsolidationAnalysisFields.AlikeIff | src/mem0_sidecar/core/consolidation_analysis.py:244-253 | Two rows are in one group exactly if they agree on content hash, user, agent and type name. |
| ConsolidationAnalysisFields.PreferredIs | src/mem0_sidecar/core/consolidation_analysis.py:123-132 | The canonical order: not automatic first, then higher confidence, longer, older, smaller id. |
| ConsolidationAnalysisFields.TooOldIs | src/mem0_sidecar/core/consolidation_analysis.py:299-337 | A row is past retention exactly if its type is enabled, has a number of days, and it is older than that. |
| ConsolidationAnalysisFields.SizedIff | src/mem0_sidecar/core/consolidation_analysis.py:254-297 | A group gets an exact draft exactly if two to a hundred rows of the scope are alike. |
| ConsolidationAnalysisFields.DuplicatesIff | src/mem0_sidecar/core/consolidation_analysis.py:239-297 | Two rows of the scope are sources of one exact draft exactly if they are alike by those fields and at most a hundred rows are. |
| ConsolidationAnalysisFields.DraftsAre | src/mem0_sidecar/core/consolidation_analysis.py:217-340 | All drafts by fields: for every row with two to a hundred alike one exact draft with exactly those ids and the preferred one as canonical, for every other row a retention draft exactly if it is too old, nothing else; what is proposed are the first in order up to the limit. |
| QueryEffects.EndsIff | src/mem0_sidecar/core/memory_ops.py:2643-2686 | The loop ends exactly if the page is full, nothing is left to look at, 5000 rows were asked about, or the widest window shows nothing new. |
| QueryEffects.GoesOn | src/mem0_sidecar/core/memory_ops.py:2669-2703 | A turn that goes on asks about the first shown rows not asked about before, as many as a batch of page size plus 20 and the budget of 5000 allow, and files each by its answer; with none left the window grows by a batch. |
| QueryEffects.TurnsWitness | src/mem0_sidecar/core/memory_ops.py:2451-2473 | Throughout the loop a change has been noted exactly if two turns showed a row differently. |
| QueryEffects.RunEnds | src/mem0_sidecar/core/memory_ops.py:2643-2686 | The loop ends in some turn; it is forced exactly if the page was not full and rows were left, and then only at 5000 rows. |
| QueryEffects.PageIff | src/mem0_sidecar/core/memory_ops.py:2508-2632 | A query is answered exactly if its loop ended by itself, no row was seen in two versions, every row asked about is untouched and the page is covered by hydrated rows; the page then holds their records in order and counts all rows that are not stale. It is a horizon conflict exactly if the loop was forced. |
| ScanEffects.BeforeIff | src/mem0_sidecar/store/repositories.py:2411-2465 | Keys come by time, and at the same time by the first differing character of their ids. |
| ScanEffects.AcceptedIff | src/mem0_sidecar/core/memory_scan_cursor.py:119-165 | A token is read as a position exactly if it is short enough, holds the seven fields, carries the MAC of the other six and the scope, and says that position in version 1. |
| ScanEffects.MismatchIff | src/mem0_sidecar/core/memory_scan_cursor.py:119-165 | It is refused as one of another scope exactly if its MAC is wrong and its digest is not that of the scope. |
| ScanEffects.OnlyIssued | src/mem0_sidecar/core/memory_scan_cursor.py:119-165 | Unless its MAC was forged, a token is accepted only as a position that was handed out for the scope. |
| ScanEffects.ZuluIs | src/mem0_sidecar/core/memory_scan_cursor.py:96-106 | A time that ends in Z is read as one that ends in +00:00. |
| ScanEffects.PageIs | src/mem0_sidecar/core/memory_scan.py:140-245 | One page by rows: which it examines, which it shows, that it is refused exactly if one of those changed or went, what it answers, exactly which rows it marks, and that it hands out a cursor to its last row exactly if a row is left behind it. |
| ScanEffects.VisitedAre | src/mem0_sidecar/core/memory_scan.py:100-245 | A whole traversal answers what upstream confirms of the rows of the kind asked for, in key order, each once. |
| MirrorEffects.Pass | src/mem0_sidecar/core/memory_ops.py:3122-3336 | A pass by rows: if the total exceeds the listed records, or they reach the scan limit, or there is no total and they equal a legacy cap below the limit, no row is marked and every live row stays live; otherwise every row that is not listed and was not written since is dead. |
| MirrorEffects.ListedAfter | src/mem0_sidecar/core/memory_ops.py:3122-3336 | A row whose id comes with one accepted record is indexed with it, in complete and truncated passes. |
| MirrorEffects.UnlistedAfter | src/mem0_sidecar/core/memory_ops.py:3270-3336 | A row without an accepted record keeps everything but its life, which it loses exactly in a complete pass that may mark it. |
| MirrorEffects.RecordIndexed | src/mem0_sidecar/core/memory_ops.py:3190-3268 | Every accepted record leaves its row indexed, however often it is listed. |
| CategorySchemaEffects.NamesAre | integrations/mem0-dashboard-overlay/overlays/src/utils/category-schema.ts:34-40 | The words of JSON Schema that are read and written. |
| CategorySchemaEffects.MembersAre | integrations/mem0-dashboard-overlay/overlays/src/utils/category-schema.ts:34-40 | The members that each kind of document may have. |
| CategorySchemaEffects.WritesIs | integrations/mem0-dashboard-overlay/overlays/src/utils/category-schema.ts:380-437 | Every field is written as its parts say: texts that are not blank, type, format and options by kind, children under their trimmed keys with the last of equal keys, required names, and the default by kind. |
| CategorySchemaEffects.SchemaWrites | integrations/mem0-dashboard-overlay/overlays/src/utils/category-schema.ts:141-163 | The document of a list of fields, likewise. |
| CategorySchemaEffects.ReadsProperty | integrations/mem0-dashboard-overlay/overlays/src/utils/category-schema.ts:195-378 | A property without an issue is read as a field that says the same, at either depth. |
| CategorySchemaEffects.EditorReads | integrations/mem0-dashboard-overlay/overlays/src/utils/category-schema.ts:80-139 | A document that opens in the builder shows each of its properties as a field that says the same, in order. |
| CategorySchemaEffects.ValidIff | integrations/mem0-dashboard-overlay/overlays/src/utils/category-schema.ts:439-586 | Fields validate exactly if keys are not blank and differ, options are there and differ, every default fits its kind, and no child is an object, by fields and children. |
| CategorySchemaPaths.PathsAre | integrations/mem0-dashboard-overlay/overlays/src/utils/category-schema.ts:80-139 | A document that does not open in the builder names each path that is not supported, once, and no other. |
| CategorySchemaPaths.PropertyReported | integrations/mem0-dashboard-overlay/overlays/src/utils/category-schema.ts:195-378 | Which paths of a property are reported, by its type, members, format, options, items, children and default. |
| TracePayloadEffects.LeafIs | src/mem0_sidecar/core/trace_payloads.py:389-469 | What each leaf becomes: null for numbers that are not finite, a summary for integers beyond 4096 bits and for binary data, a marker for what cannot be read. |
| TracePayloadEffects.CutOff | src/mem0_sidecar/core/trace_payloads.py:424-469 | Values below level 8, beyond 512 nodes or on the path above them are cut off with their markers. |
| TracePayloadEffects.MappingIs | src/mem0_sidecar/core/trace_payloads.py:266-319 | A mapping by entries: more than 64 or a failing iteration give a marker; otherwise the first 50 keys in order, each redacted if its one entry is secret, marked if unreadable or shared, and sanitized one level deeper otherwise, and the number of fields beyond 50. |
| TracePayloadEffects.SequenceIs | src/mem0_sidecar/core/trace_payloads.py:357-386 | A sequence by items: up to the first that cannot be read and at most 50, each one level deeper, and the number of items beyond 50. |
| TracePayloadEffects.DigitsAre | src/mem0_sidecar/core/trace_payloads.py:389-414 | Sizes and integers are printed in decimal without leading zeros. |
| TracePayloadEffects.BitLengthIs | src/mem0_sidecar/core/trace_payloads.py:405-414 | A number has the bits that its binary form needs. |
| TraceDocumentEffects.BytesWritten | src/mem0_sidecar/core/trace_payloads.py:485-493 | The size of compact JSON is the number of UTF-8 bytes of the JSON text, escapes and separators included. |
| TraceDocumentEffects.DocumentIs | src/mem0_sidecar/core/trace_payloads.py:495-527 | A document collapses the largest fields of the payload to their sizes, as few as makes it fit; when all of them do not, it is the size of the payload, or empty. |
| Utf8.LessIff | src/mem0_sidecar/core/trace_payloads.py:229-248 | Texts come in the order of their first differing code points, and a prefix comes first. |
| KeySort.KeyLessIff | src/mem0_sidecar/core/consolidation_analysis.py:217-253 | Tuples of texts come in the order of their first differing texts. |
| EntityMigrationEffects.TakesIff | migrations/versions/0006_entity_projection_scope.py:65-198 | Which compatibility tables the upgrade takes, by their rows: none, one of this revision with distinct data rows and one marker with their number, or a complete older one with distinct known ids that is empty only without entities. |
| EntityMigrationEffects.AppsAre | migrations/versions/0006_entity_projection_scope.py:247-289 | Every entity gets the app its snapshot row has, null or not, and without a row the default app of its project, or the project itself. |
| EntityMigrationEffects.StaysIff | migrations/versions/0006_entity_projection_scope.py:290-314 | An entity goes exactly if another of the same project, app, type and name was changed later, or made later, or has the larger id. |
| RankingEffects.EligibleIff | src/mem0_sidecar/core/ranking.py:156-173 | A candidate is eligible exactly if its memory is known and not deleted, active if asked for, and has its date within the bounds. |
| RankingEffects.BonusGrows | src/mem0_sidecar/core/ranking.py:174-221 | The bonus is nothing without use, grows strictly with every use for a positive weight, and stays below the weight. |
| RankingEffects.HalfwayAtTen | src/mem0_sidecar/core/ranking.py:174-221 | Half of the bonus is reached with ten uses. |
| RankingEffects.PenaltyGrows | src/mem0_sidecar/core/ranking.py:174-221 | The penalty is nothing for pinned, evergreen and new memories, and otherwise grows strictly with age. |
| RankingEffects.HalfwayAtHalfLife | src/mem0_sidecar/core/ranking.py:174-221 | Half of the penalty is reached after a half-life. |
| RankingEffects.AdjustedBy | src/mem0_sidecar/core/ranking.py:174-221 | An adjusted score is the score moved by its own size times bonus minus penalty; rows without a score that counts stay as they are. |
| RankingEffects.UseHelps | src/mem0_sidecar/core/ranking.py:174-221 | Of two memories with the same score, not zero, the one used more ranks strictly higher. |
| RankingEffects.NewerHelps | src/mem0_sidecar/core/ranking.py:174-221 | And so does the newer one, unless they are evergreen. |
| RankingEffects.CountedIs | src/mem0_sidecar/core/ranking.py:226-253 | Exactly the returned memories that are not deleted are counted, once each and up to the limit, and used now. |
| RankingEffects.InForceIff | src/mem0_sidecar/core/ranking.py:131-155 | Rows are sorted exactly if ranking is on and a weight is positive. |
| RankingEffects.SortsBy | src/mem0_sidecar/core/ranking.py:223-225 | Rows are sorted by their adjusted score, or a number they brought along; below all numbers without either. |

## Left out

- Routes, authentication, React components, logging, scripts and the SQL engines: plumbing around what is modelled.
- Bulk delete, which does not recover pending intents first and can resume earlier ones.
- Semantic neighbours (`classify_neighbor`), proposal keys and draft evidence: they do not affect which rows a draft names.
- Migrations other than 0006, export jobs, policies, attribution: they would only add easy members.
- The refresh of entity projections after memory writes, and the concurrency of hydration requests within one batch.
- Events and traces beyond the status that an intent's event gets.
- MutationIntentTheorems.OneOpenPerScope: is about add, update, delete, reconcile and entity delete; bulk delete is excluded.
- MutationIntents.ClaimRecovery: may be tried on any intent of a run, a superset of those the recovery lists select.
- MutationStore.Store.CommitDeleteObserved: computes the targets still waiting when it commits, where the source computes them
  just before, in the same attempt.
- MutationIntentTheorems.SupersededCommitsNothing: covers intents, targets, event status and projection rows, not traces.
- ConsolidationTheorems.MergesAcyclic: one project; projects share no rows.
- ConsolidationFinalizing.DeletesAreCleared: source and canonical are looked up in one step, not in two; what recovery found and
  its last look for open intents are one step, too.
- ConsolidationReruns.FinishIff: while the reruns go on, nobody else writes rows, intents or upstream.  The open intents of an
  application are deletes, of one memory or of an entity's, and updates and reconciles, of which it is given whether
  recovery settles them; the rows that recovering an update writes, and open adds, are not part of it.
- ConsolidationReruns.StepFollows: the fence of a claimed intent compares its attempts, task and maker instead of its id.
- Consolidation.ShadowedStep: whether upstream matches before and after the export is given.
- ConsolidationRerun.FinishedNeverDeletedAgain: assumes that no two finalizers of a proposal run side by side; the source has
  no lease on finalizing.
- ConsolidationGrace.GraceHolds: a finalizer that had begun before a proposal was rolled back and shadowed again is still at
  work, and the new grace period does not hold it up; the source checks the deadline only when finalizing begins.
- ConsolidationOutcomes.RollbackExact: `last_consolidation_scan_at` is not modelled.
- SessionRefreshCoordinator.Coordinator.Refresh: promises are numbers of rotations; a refresh that joins gets the number.
- SessionRefreshState: `maxCacheEntries` is an integer, and the weak map from results to leases is a map that forgets nothing.
- SessionRefreshCoordinator.Coordinator.InvalidateRefreshTokenGuard: visits successors in an arbitrary order, where a
  JavaScript set has insertion order.  What the walk does is proved the same for every order.
- QueryMemories.Query.Run: upstream answers are a function of the row snapshot, so a row fetched once is fetched for good.
- QueryEffects.PageIff: the marks that a conflicting query commits for stale rows, and the counts of scanned and stale rows in
  the answer, are not modelled.
- MemoryScan.Scanner.Scan: page mode only; counting is `MemoryScan.Scanner.InitialTotal`.  When fewer rows are marked stale
  than expected the source reports a conflict; under the lock, with rows just compared, that cannot happen here.
- MirrorDirectWrites.Mirror.MirrorAll: how `_direct_write_app_scope` classifies a record is given with the record, and malformed
  records, which make the source raise before any write, are not listed.
- CategorySchemaTheorems.BuilderIff: unsupported paths are lists of keys instead of the printed `$.a.b`, so two paths that print
  alike stay apart.
- CategorySchemaTheorems.FieldsRoundTrip: fields have no ids, keys that look like array indexes keep their place as others do,
  and negative zero is zero.
- CategorySchemaEditor.ValidateFields: whether there are errors, not their messages.
- TracePayloads.Sanitizer.Sanitize: which class an object has is part of the heap; values the source reads by calling foreign
  code give what the heap says, or raise.
- TraceDocumentEffects.BytesWritten: floats are printed in ASCII.
- TraceDocument.BoundedTraceDocument: that `max_bytes` is an integer at all is not checked.
- Ranking.Ranker.RankResults: scores and carried rank scores are finite numbers, missing, or not comparable; infinite carried
  values, a carried NaN, which neither raises nor orders, and carried strings that could be compared among themselves are not
  modelled.
- EntityMigration.Database.Upgrade: columns and indexes other than the app column and its uniqueness are not modelled.
