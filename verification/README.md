# Gate execution and durable state, modelled and proved

This project models the deterministic protocols under a tool that runs verification gates for
autonomous coding agents: how gate commands are scheduled and distributed over workers, how their results
are cached and reused, how files and records survive crashes, and how text that has another author is
rewritten. Processes, SQLite, git, sockets and hashing appear as atomic steps over maps, sets and
locks; everything the protocols decide is there branch by branch.

Each source file has its own modules. Code that changes things step by step is imperative here too
(loops with invariants, classes with an invariant), and each method is tied to a function or a
predicate that the lemmas are about. Runs of many callers are state machines: a list of moves, in which
any step may come at any time.

| files | about |
|---|---|
| `GatePlans.dfy`, `SchedulePromises.dfy`, `Scheduler.dfy`, `PhasedRunner.dfy` | the overlapped scheduler, what its log must show, and the phased runner it must agree with |
| `TargetBatches.dfy`, `Sorting.dfy` | balanced batches and stable shards |
| `ArtifactStore.dfy` | the artifact lifecycle with crashes |
| `CandidateDocuments.dfy`, `CandidateRetirement.dfy` | the workflow's documents, and the redo log of candidate retirement over them |
| `BusinessState.dfy`, `BusinessCalls.dfy` | compare-and-swap records, call receipts and the hash-chained journal |
| `GateResultCache.dfy` | reuse of results whose observed inputs still match |
| `DistributedGates.dfy`, `DistributedExecutor.dfy` | slots, lanes and retries over several workers |
| `CommandSpans.dfy`, `ShellRewriting.dfy`, `ShellWords.dfy`, `CacheFlag.dfy`, `ShellGrammar.dfy`, `Launchers.dfy`, `Text.dfy` | shell lines: lexing, splicing and the Vitest cache flag, and the grammar of what is lexed |
| `ResourceLocks.dfy`, `ResourceJobs.dfy` | ordered resource locks, and jobs on several machines with nested leases |
| `PathWalk.dfy` | the observed-path walk |
| `ManagedBlocks.dfy` | generated blocks in files with an author |
| `Wrappers.dfy` | optional values |

`dafny verify dfyconfig.toml` checks the whole project.

Where the code does not keep a promise for every input, the model keeps the code, names the failing case
in a lemma and says exactly when the promise is kept: `StrangerHidesRemoval` with `ReconcileSettles` and
`ScanSettles`, `StaleScanForgetsRestored` with `RecordPlanSound`, `ReleaseInQuarantine` with
`ReleaseKeeps`, `LateReferenceSurvives` with `RecoveryCleans`, `ForgedPreviousBreaksJournal` with
`AppendExact`, `OddRecordsArise` with `CrashesRecoverWhen`, `LateInterruptUnresolves` with `OneUnresolvedExactly` and
`FinishedStays`, `IndexWrongInContext` with `IndexRightExactly`, `NestedLeasesWait` with
`DeclaredCommandsEnd`, and the second half of `MergeTwice`.

Where a promise rests on what other code makes sure of, a lemma shows why it must: `UncertainReportRunsAgain`
(an uncertain result never names a failure), `SharedLaneMoves` (the scheduler sends the commands of its one
lane one at a time, `gates.py:1853-1878`) and `OtherScopesCollide` (resources are declared as `host:` or
`pool:`, `validation.py:614-622`). These are reasons for conditions, not broken promises.

What the model takes for granted: hashes and digests are injective; an executor's answers for one plan
(outcome, slots, exclusivity, priority) do not change while it runs; a process identity never comes back
to life; inode numbers are not reused while a row names them; clocks are inputs.

## Model

| member | source | states |
|---|---|---|
| `Scheduler.RunOverlapped` | src/auto_agents/gates.py:1747-2082 | For every plan, executor, budget and order of completions the log alone shows that the promises are kept, in terms of the arguments and the executor's answers: commands under way never ask for more slots than there are and one that asks for all runs alone, no more commands run than slots or workers, exclusive ones run alone, serial ones one at a time and in order, groups go one after the other with backfill only behind one that is stuck, within a group nothing is passed over that has room, nothing starts after a stop, everything started ends, and everything starts unless something ended the run. `ok` holds exactly when every command passes, the results are those of the commands that ended, in plan order, an exception comes out exactly when a dispatched command raised one, and with `collect_all` and no termination the answer is the plain one. The loop terminates and never reaches its "could not dispatch" error. |
| `Scheduler.DisciplineKeepsPromises` | src/auto_agents/gates.py:1747-2082 | What the loop keeps at every event, in its own terms of slots, queues and frontiers, amounts to those promises about the log. |
| `Scheduler.KeepsBudgets` | src/auto_agents/gates.py:1684-1706 | The clamped slots the loop counts keep what the commands themselves ask for within the capacity. |
| `Scheduler.AdvanceCompletedGroups` | src/auto_agents/gates.py:1793-1800 | Only groups that are finished are passed; the head group afterwards has work left or running. |
| `Scheduler.DispatchSerial` | src/auto_agents/gates.py:1848-1885 | Keeps the invariant of the loop; at most one serial command starts, and an idle scheduler with serial work left always starts one. |
| `Scheduler.DispatchGroups` | src/auto_agents/gates.py:1887-1986 | Keeps the invariant through head dispatch and backfill; each dispatch is progress, and an idle scheduler that dispatches nothing has no group left. |
| `Scheduler.CompleteSome` | src/auto_agents/gates.py:2002-2031 | Whichever non-empty set of running commands is done, and in whichever order it is booked, the invariant holds again and fewer run. |
| `Scheduler.BookKeepsValid` | src/auto_agents/gates.py:2007-2031 | Booking one result or exception keeps results, stop flag and first error in step with what ended. |
| `Scheduler.AppendSafe` | src/auto_agents/gates.py:1857-1885 | Starting a command that fits keeps every budget. |
| `Scheduler.BlockedHead` | src/auto_agents/gates.py:1912-1968 | Backfill from a later group only happens while the head group has a frontier none of which fits. |
| `Scheduler.IdleFits` | src/auto_agents/gates.py:1695-1706 | Clamping makes every command, however wide or exclusive, fit an idle scheduler: nothing starves. |
| `Scheduler.OrderedCommandsComplete` | src/auto_agents/gates.py:1733-1744 | The queue of a group holds each of its commands exactly once, by priority and then by position. |
| `Scheduler.Drained` | src/auto_agents/gates.py:1988-1994 | When the loop ends without a stop, every command of the plan has ended. |
| `Scheduler.ReportVerdict` | src/auto_agents/gates.py:2050-2082 | The reported flag is the plan's own verdict, whatever was stopped early. |
| `Scheduler.ReportIsPlain` | src/auto_agents/gates.py:2050-2082 | With every command ended and no termination, results, flag and summary are the plain answer, with no trace of the schedule. |
| `Scheduler.EndedAreJobs` | src/auto_agents/gates.py:1820-1831 | Only commands of the plan ever end. |
| `PhasedRunner.RunParallel` | src/auto_agents/gates.py:1472-1555 | Whatever order futures finish in, each result lands at its own index, and an exception comes out exactly when some command raises. |
| `PhasedRunner.RunSerialPhase` | src/auto_agents/gates.py:2101-2117 | The serial phase either tracks the plan so far or stops with an answer that is sound for the whole plan. |
| `PhasedRunner.RunPhased` | src/auto_agents/gates.py:2085-2152 | The reference runner: its flag is the plan's verdict; what ran is each phase as a whole, none after one in which something ends the run and all of them unless something did, with the results in plan order and each group's failures told; an exception comes from the first phase that something ends; with `collect_all` and no termination the answer is the plain one. |
| `PhasedRunner.GroupGoes` | src/auto_agents/gates.py:2119-2152 | The results of a group tell whether the run goes on after it, exactly as its commands' outcomes do. |
| `PhasedRunner.Verdict` | src/auto_agents/gates.py:2119-2152 | Stopping early only happens on a failure, so the flag does not depend on it. |
| `PhasedRunner.RunGatePlan` | src/auto_agents/gates.py:1620-1666 | With or without an executor, flag and answer are the same: the overlapped runner refines the phased one; with an executor the schedule keeps its promises, and without one the phases stop where they should. |
| `GatePlans.CollectComplete` | src/auto_agents/gates.py:2050-2060 | The result list is as long as the plan exactly when every command has a result. |
| `GatePlans.JobsReadThePlan` | src/auto_agents/gates.py:2050-2060 | In the order of the report the commands are the plan read from left to right: the serial ones, then group by group. |
| `GatePlans.ReportableMeans` | src/auto_agents/gates.py:2063-2076 | Failures that were not cancelled are told, all of them, or the first one when every one was. |
| `TargetBatches.BalancedBatches` | src/auto_agents/gates.py:692-731 | Exactly min(n, limit) non-empty sorted batches hold each distinct target once; no two loads differ by more than the heaviest target; as many heaviest targets as there are batches lead batches of their own, in order. |
| `TargetBatches.AssignGreedily` | src/auto_agents/gates.py:724-731 | The greedy loop keeps all that: every turn goes to the first of the lightest batches. |
| `TargetBatches.GreedyStep` | src/auto_agents/gates.py:727-730 | One turn keeps the loads exact, the placed targets partitioned and the loads within the heaviest target of each other. |
| `TargetBatches.BalancedBoundsAverage` | src/auto_agents/gates.py:724-731 | The heaviest load is at most the average plus (1 - 1/m) of the heaviest target. |
| `TargetBatches.WithinFactorOfAnySplit` | src/auto_agents/gates.py:724-731 | Against any other split into as many batches, the worst load is at most 2 - 1/m times as bad. |
| `TargetBatches.HeaviestFirstFacts` | src/auto_agents/gates.py:712-722 | The order of assignment is the distinct targets by falling weight. |
| `TargetBatches.StableShards` | src/auto_agents/gates.py:734-753 | Non-empty shards cover the targets; which targets share one depends on their digests and the shard count alone. |
| `ArtifactStorage.ReconcileSettles` | src/auto_agents/artifact_store.py:394-418 | For every consistent world, other objects at either path included: one reconciliation makes the row say where the inode is exactly when nothing else stands where the row's state has it look. It moves nothing. |
| `ArtifactStorage.ScanSettles` | src/auto_agents/artifact_store.py:394-487 | For every consistent world: after a scan the row says where the inode is exactly when, for a protected row, reconciliation alone settles it, and for any other, no other object stands where a row under maintenance has its own. |
| `ArtifactStorage.BlockedMeans` | src/auto_agents/artifact_store.py:522-549 | In a removal that can only be a row deleted in place, its object gone and its path taken by someone else. |
| `ArtifactStorage.StrangerHidesRemoval` | src/auto_agents/artifact_store.py:394-418 | The failing case: a quarantined object is removed, the process dies before the last save and someone takes the original path; reconciliation changes nothing and the row goes on being deleted. The next scan settles it. |
| `ArtifactStorage.ReconcileIdempotent` | src/auto_agents/artifact_store.py:394-418 | A second reconciliation finds nothing to do. |
| `ArtifactStorage.DeleteCrashSafe` | src/auto_agents/artifact_store.py:522-549 | A crash between any two durable effects of quarantine or removal keeps a protected artifact out of maintenance and a consistent world consistent: the inode in at most one place, whole unless the row was saved as deleting. |
| `ArtifactStorage.DeleteRecovers` | src/auto_agents/artifact_store.py:522-549 | From any such crash, with or without a stranger at the vacated path: reconciliation and a scan settle the row exactly when the two theorems above say so; while the object is where the row points, one immediate removal ends with it deleted and gone; and what reconciled to released or quarantined is whole. |
| `ArtifactStorage.RestoreRecovers` | src/auto_agents/artifact_store.py:581-593 | A crash anywhere in a restore is repaired: the object ends whole, in quarantine before the rename and at its path after it. |
| `ArtifactStorage.NeverLostOutside` | src/auto_agents/artifact_store.py:522-549 | Only removing a worktree loses an object outside the protocol. |
| `ArtifactStorage.RecordPlanSound` | src/auto_agents/artifact_store.py:441-487 | Recording an unlocked verdict is sound exactly when it does not call missing an object that a restore has put back meanwhile. |
| `ArtifactStorage.StaleScanForgetsRestored` | src/auto_agents/artifact_store.py:441-487 | The failing case, from a reachable crash: a scan records a restored object as deleted. |
| `ArtifactStorage.MissingAfterReconcile` | src/auto_agents/artifact_store.py:551-579 | Under one lock, a row called missing right after a reconciliation really is. |
| `ArtifactStorage.EligibleIsDeletable` | src/auto_agents/artifact_store.py:362-392 | A row is eligible exactly when it is not deleted, its own object stands where it points, it is not permanent, pinned, leased by a living process or referred to, and its retention or grace is over; then it is removable and unprotected. |
| `ArtifactStorage.ClassifiedOtherwise` | src/auto_agents/artifact_store.py:362-392 | The other verdicts: protected, missing and unknown are each given exactly when the row, the clocks and what stands at its target say so. |
| `ArtifactStorage.RemovalCutShort` | src/auto_agents/artifact_store.py:522-549 | A removal that runs out of time half way leaves the object damaged where it is and the row saying that it is being deleted. |
| `ArtifactStorage.ReleaseKeeps` | src/auto_agents/artifact_store.py:293-308 | For every caller and every row: releasing keeps the store consistent exactly when a live lease of someone else remains, or the row has no quarantine path and is in use, or its path is vacant, holds its whole object, or holds another one after its own was taken away. Maintenance rows stay unprotected in any case. |
| `ArtifactStorage.ReleaseByHolder` | src/auto_agents/artifact_store.py:293-308 | So a live lease holder of a row that is not deleted may always release. |
| `ArtifactStorage.ReleaseInQuarantine` | src/auto_agents/artifact_store.py:293-308 | The failing case: anyone's release of a row under maintenance with a quarantine path breaks it; the body does not check for a lease. |
| `ArtifactStorage.ImmediateRemovalEnds` | src/auto_agents/artifact_store.py:522-549 | Uninterrupted immediate removal ends with the row deleted and the object gone. |
| `ArtifactStorage.ArtifactStore.Register` | src/auto_agents/artifact_store.py:253-291 | Succeeds exactly when the path holds an object, overlaps no other row's path, and is free or holds the very same available artifact of the same kind and scope; the row is live with the lease, and a deleted row gets a new identity; living leases and references of a row in use are kept and dead leases dropped. |
| `ArtifactStorage.ArtifactStore.ReleaseLease` | src/auto_agents/artifact_store.py:293-308 | By whoever calls it: changes the row as release says, keeps protected artifacts out of maintenance always, and the store consistent exactly when the release is a safe one. |
| `ArtifactStorage.ArtifactStore.Promote` | src/auto_agents/artifact_store.py:310-318 | Only available rows change kind. |
| `ArtifactStorage.ArtifactStore.Pin` | src/auto_agents/artifact_store.py:334-342 | Only a row outside maintenance whose own object stands at its path is pinned, so protection never reaches a maintenance row. |
| `ArtifactStorage.ArtifactStore.ReconcileRow` | src/auto_agents/artifact_store.py:394-418 | The imperative reconciliation is the one the recovery lemmas are about. |
| `ArtifactStorage.ArtifactStore.BeginScan` | src/auto_agents/artifact_store.py:458-460 | The locked first half of a scan hands out the reconciled row, which is then a saved one. |
| `ArtifactStorage.ArtifactStore.RecordVerdict` | src/auto_agents/artifact_store.py:461-487 | Records exactly when the row was not saved since the snapshot. Whatever the verdict, protected artifacts stay out of maintenance; the store stays consistent exactly unless an object that is there was called missing. |
| `ArtifactStorage.RemovalCompletes` | src/auto_agents/artifact_store.py:522-549 | Where an uninterrupted removal ends: scratch, worktrees, retired candidates and what is under maintenance deleted and gone, anything else moved as it was into quarantine. |
| `ArtifactStorage.ArtifactStore.Apply` | src/auto_agents/artifact_store.py:489-520 | A line is carried out exactly when it and its row, not saved since the plan, are eligible and the guard is held; then it goes along the trail of the crash lemmas and, uninterrupted, ends deleted or in quarantine. Nothing changes otherwise, and protected artifacts never enter maintenance. |
| `ArtifactStorage.ArtifactStore.Delete` | src/auto_agents/artifact_store.py:522-549 | Stops at exactly the durable effect the crash allows, on the trail the crash lemmas cover. |
| `ArtifactStorage.ArtifactStore.Clean` | src/auto_agents/artifact_store.py:551-579 | An eligible artifact is removed at once exactly when the guard is held; done means deleted and, in a consistent store, gone; what is not removed is left exactly as a scan leaves it. |
| `ArtifactStorage.ArtifactStore.Restore` | src/auto_agents/artifact_store.py:581-593 | Restores exactly a whole quarantined object to a vacant path, one durable effect at a time. |
| `ArtifactStorage.ArtifactStore.ProcessEnds` | src/auto_agents/artifact_store.py:42-57 | Processes only go from alive to dead, which keeps the invariant. |
| `CandidateRetirement.RedoIdempotent` | src/auto_agents/artifact_workflow.py:323-332 | Redoing a receipt's change twice is redoing it once. |
| `CandidateRetirement.RedoAbsorbsPartial` | src/auto_agents/artifact_workflow.py:323-332 | Whatever a crash left redone, redoing everything gives the same documents. |
| `CandidateRetirement.RedoCommutesWithEdit` | src/auto_agents/artifact_workflow.py:323-332 | Redoing any documents before or after an edit of a key the receipt does not list comes to the same. |
| `CandidateRetirement.HistoryIsPartial` | src/auto_agents/artifact_workflow.py:269-335 | Any history of crashes and such edits amounts to the edits and one partial run over them. |
| `CandidateRetirement.InterruptionsDoNotShow` | src/auto_agents/artifact_workflow.py:269-335 | For any number of crashes and concurrent edits of unlisted keys, finishing gives the documents of one uninterrupted run with those edits. |
| `CandidateRetirement.HistoryStaysVerified` | src/auto_agents/artifact_workflow.py:147-174 | After any such history the receipt check passes exactly when the session's execution log is still the recorded one: crashes and other edits never make it refuse. |
| `CandidateDocuments.GraphAlike` | src/auto_agents/artifact_workflow.py:84-140 | The check that the workflow is over, root, sessions, handoffs and their participants, turns on named keys of the workflow's own documents alone: documents that agree in these pass it together. |
| `CandidateDocuments.GraphDoneMeans` | src/auto_agents/artifact_workflow.py:84-140 | The check accepts exactly when session and workflow are there, the workflow is completed, waits for nothing and ended at its root, and nothing waits in any document of the workflow: states completed without a handoff under way, handoffs completed, returned and between two ended participants. |
| `CandidateRetirement.ContainsMeans` | src/auto_agents/artifact_workflow.py:54-61 | A value mentions the path exactly when some text in it, at any depth, is a reference to the path or to something below it. |
| `CandidateRetirement.StripLineMeans` | src/auto_agents/artifact_workflow.py:54-61 | A reference gives the path before its line number when it ends in one, and otherwise itself. |
| `CandidateRetirement.SessionRewritten` | src/auto_agents/artifact_workflow.py:182-211 | A session's custody and source records that mention the path become empty with the summary beside them, and every other key stays. |
| `CandidateRetirement.HandoffRewritten` | src/auto_agents/artifact_workflow.py:182-211 | So do the source in a handoff's payload and the delivery in its result; it refuses exactly a payload or result that is no object. |
| `CandidateRetirement.FirstPlanVerified` | src/auto_agents/artifact_workflow.py:147-174 | A fresh plan passes the check made of its own receipt exactly when it lists no recovery record outside the state directory. |
| `CandidateRetirement.RecoveryRecordRefuses` | src/auto_agents/artifact_workflow.py:167-170 | The failing case: a receipt that lists one, which is written before the check, is refused for ever. |
| `CandidateRetirement.GuardsUnlisted` | src/auto_agents/artifact_workflow.py:182-211 | No planned change lists a key that the checks read, but for a source record under the name of a run state. |
| `CandidateRetirement.SourceLosesStatus` | src/auto_agents/artifact_workflow.py:202-204 | The failing case for that record: rewriting it drops its status, and the workflow no longer looks over. |
| `CandidateRetirement.RecoveryExact` | src/auto_agents/artifact_workflow.py:269-332 | After any crashes and tame edits (away from the receipt's keys, not naming the path, and in a listed document keeping its workflow and its handoff sections objects) the recovering run goes ahead exactly when the edits left the workflow over and the session's log as recorded; finishing leaves no scanned document that mentions the path. |
| `CandidateRetirement.OddRecordsArise` | src/auto_agents/artifact_workflow.py:84-211 | Both failing inputs arise: each record is planned for in a project whose workflow is over. |
| `CandidateRetirement.CrashesRecoverWhen` | src/auto_agents/artifact_workflow.py:269-332 | A first run can be recovered from every crash exactly when it lists neither a recovery record nor such a source record. |
| `CandidateRetirement.PlannedAfterIsClean` | src/auto_agents/artifact_workflow.py:182-211 | No value a plan writes mentions the retired path. |
| `CandidateRetirement.FirstRunCleans` | src/auto_agents/artifact_workflow.py:182-211 | An uninterrupted first run leaves no scanned document that mentions it. |
| `CandidateRetirement.RecoveryCleans` | src/auto_agents/artifact_workflow.py:275-332 | A recovering run cleans every document exactly when no key outside the receipt's lists mentions the path: the check compares document names, not keys. |
| `CandidateRetirement.CrashesDoNotBlockRecovery` | src/auto_agents/artifact_workflow.py:269-332 | So after any crashes and edits that leave those keys and the log alone the recovering run passes every check, goes ahead and cleans every scanned document. |
| `CandidateRetirement.LateReferenceSurvives` | src/auto_agents/artifact_workflow.py:275-332 | The failing case: a reference added later to another key of a listed document is accepted and stays. |
| `CandidateRetirement.Project.Retire` | src/auto_agents/artifact_workflow.py:269-335 | A run goes ahead exactly when git, the workflow graph, the receipt check and the plan let it, and otherwise changes nothing; a fresh one is refused after its receipt was written exactly when that lists a recovery record; the receipt is written before any document and never replaced; an uninterrupted run redoes all of it and a crashed one part of it. |
| `CandidateRetirement.Project.RedoDocuments` | src/auto_agents/artifact_workflow.py:323-332 | Rewrites documents one at a time, each entirely or not at all, as many as the writes allow and all when they suffice. |
| `CandidateRetirement.RedoPlanned` | src/auto_agents/artifact_workflow.py:182-211 | Redoing what was planned for a document gives the document that was planned. |
| `CandidateRetirement.Project.Rewritten` | src/auto_agents/artifact_workflow.py:326-331 | The inner loop over changed keys is the change the lemmas are about. |
| `BusinessState.BusinessStore.Get` | src/auto_agents/business_state.py:106-117 | A row whose checksum differs from its payload is refused. |
| `BusinessState.BusinessStore.SaveRecord` | src/auto_agents/business_state.py:119-129 | A save goes through exactly when the writer names the present reference, and then changes that record alone. |
| `BusinessState.BusinessStore.Reserve` | src/auto_agents/business_state.py:131-143 | A new identity is reserved unless it is a model call while one is unresolved; anything else changes nothing. |
| `BusinessState.BusinessStore.Settle` | src/auto_agents/business_state.py:157-159 | Only the named receipt changes. |
| `BusinessState.BusinessStore.PendingCalls` | src/auto_agents/business_state.py:161-163 | Exactly the unresolved model calls. |
| `BusinessState.NoUpdateLost` | src/auto_agents/business_state.py:119-129 | However writers interleave reads and saves, the record ends with every accepted contribution in order. |
| `BusinessState.WorkflowEvents` | src/auto_agents/business_state.py:261-282 | The fold over the sorted rows accepts exactly the journals that chain up to the stored head. |
| `BusinessState.HeadDeterminesChain` | src/auto_agents/business_state.py:261-282 | Two chains of one length and last hash are the same event for event. |
| `BusinessState.JournalTamperEvident` | src/auto_agents/business_state.py:261-282 | Two stores accepted under one head hold the same events: dropping, adding, reordering or editing one is refused. |
| `BusinessState.AppendsStayIntact` | src/auto_agents/business_state.py:234-258 | Every store reached by well-formed appends, stale ones included, is accepted. |
| `BusinessState.AppendExact` | src/auto_agents/business_state.py:234-258 | The append looks at number and snapshot alone: for every well-kept journal and every accepted append, the journal stays well kept, and stays accepted, exactly when the event names the head's hash and has its own, and the snapshot names the event. |
| `BusinessState.WriterIsHonest` | src/auto_agents/workflow_chain.py:334-384 | The writer, which builds on the durable head, is accepted and appends just so. |
| `BusinessState.NewJournalWellKept` | src/auto_agents/workflow_chain.py:334-384 | The journal of a new workflow, a snapshot with no events, is well kept. |
| `BusinessState.ForgedPreviousBreaksJournal` | src/auto_agents/business_state.py:234-258 | The failing case, on every well-kept journal: an event built on any forged hash is stored, and the journal refused from then on. |
| `BusinessCalls.Perform` | src/auto_agents/business_calls.py:39-94 | One caller with a death after any durable step: a finished receipt is replayed and any other one refuses; a new identity is run, settled and answered with its result, unless it is a model call while another one is unresolved, which is refused. |
| `BusinessCalls.NextKeepsInv` | src/auto_agents/business_calls.py:54-94 | Every step of every caller, deaths and interrupts right after a commit included, keeps receipts, runs and results in step. |
| `BusinessCalls.AtMostOnce` | src/auto_agents/business_calls.py:54-94 | Over every interleaving, death and interrupt, the function of an identity runs at most once. |
| `BusinessCalls.OneUnresolvedModelCall` | src/auto_agents/business_state.py:131-163 | At most one model call is dispatched or unknown at any time, in every run without an interrupt between the commit of a settlement and its return. |
| `BusinessCalls.OneUnresolvedExactly` | src/auto_agents/business_calls.py:72-94 | From any reachable state, whatever happened before: no two model calls will be unresolved, in any run without further such interrupts, exactly when no two are now and no finished one is about to be overwritten. |
| `BusinessCalls.LateInterruptUnresolves` | src/auto_agents/business_calls.py:72-94 | The failing case, for any two model calls: one is interrupted right after its success was committed, another is dispatched, and then the handler overwrites the finished receipt as unknown. |
| `BusinessCalls.ModelCallsRunAlone` | src/auto_agents/business_calls.py:54-94 | While a model call executes every other model call is resolved, in every run without such interrupts. |
| `BusinessCalls.FinishedReplays` | src/auto_agents/business_calls.py:54-70 | Once a receipt was finished, every answer for its identity, in every run, is the result of its one run. |
| `BusinessCalls.FinishedStays` | src/auto_agents/business_calls.py:72-94 | A finished receipt stays as it is in every later run exactly when no interrupted caller is about to overwrite it. |
| `BusinessCalls.AbandonedNeverRuns` | src/auto_agents/business_calls.py:54-94 | An identity whose caller died between reserving and settling is never run again. |
| `GateResultCache.ManifestCovers` | src/auto_agents/gate_result_cache.py:154-234 | The manifest of a run holds every path the run looked at, with what it saw. |
| `GateResultCache.MatchForcesRun` | src/auto_agents/verification_manifest.py:31-70 | A manifest that matches now forces the command, an adaptive reader, to the same reads and the same outcome. |
| `GateResultCache.RunIsUnique` | src/auto_agents/gate_result_cache.py:154-234 | On one state of the files a command has one run. |
| `GateResultCache.RerunUnique` | src/auto_agents/gate_result_cache.py:154-234 | So a stored outcome that re-running gives is the only one it can give. |
| `GateResultCache.RecordKeepsSound` | src/auto_agents/gate_result_cache.py:236-376 | Recording an honest result keeps every stored row sound. |
| `GateResultCache.PruneKeepsSound` | src/auto_agents/gate_result_cache.py:325-374 | Expiry and row limits, which drop rows, keep them sound. |
| `GateResultCache.GateResultCache.KeyMeans` | src/auto_agents/gate_result_cache.py:60-87 | Two lookups of one cache share a key exactly when nothing but the white space around their commands differs; the scope counts only as far as it decides whether a run context is part of the key. |
| `GateResultCache.RestoreOne` | src/auto_agents/gate_result_cache.py:440-481 | A single output is put back exactly when its name stays inside the project, its contents are kept, nothing else is in its place and only directories are on the way there. |
| `GateResultCache.RestoreFacts` | src/auto_agents/gate_result_cache.py:440-481 | Restoring outputs never overwrites, adds only outputs and the directories above them, and a success leaves every output in place. |
| `GateResultCache.SameViewLooks` | src/auto_agents/gate_result_cache.py:90-104 | Where files were only added, a path looks the same exactly when it did not come into being or, for a directory, gained no entry. |
| `GateResultCache.MatchSurvivesRestore` | src/auto_agents/gate_result_cache.py:440-481 | After restoring, the manifest still matches exactly when no path it names came into being and no directory it names gained an entry. |
| `GateResultCache.TryRowsFacts` | src/auto_agents/gate_result_cache.py:204-224 | The row that answers matched the files as they stood just before its outputs were restored. |
| `GateResultCache.TryRowsFinds` | src/auto_agents/gate_result_cache.py:204-224 | Nothing valid is passed over: the newest matching row answers. |
| `GateResultCache.RowHitReruns` | src/auto_agents/gate_result_cache.py:204-224 | A hit from the index is a success and is what re-running the command gives. |
| `GateResultCache.CertificateHitReruns` | src/auto_agents/gate_result_cache.py:184-196 | So is one from the exact key when its certificate names all its inputs. |
| `GateResultCache.StillReruns` | src/auto_agents/gate_result_cache.py:154-234 | A validated answer stays right for as long as no input it names came into being or changed, directory listings included. |
| `GateResultCache.IndexInContext` | src/auto_agents/gate_execution.py:447-458 | A lookup in a run context reads the context-free index exactly when its scope is set to `observed_inputs` outright and the command does not depend on sources alone. |
| `GateResultCache.IndexRightExactly` | src/auto_agents/gate_result_cache.py:204-224 | Over all commands and all sound tables: every answer from the index is what re-running gives in the lookup's own run context exactly when that lookup has no context. |
| `GateResultCache.IndexWrongInContext` | src/auto_agents/gate_result_cache.py:204-224 | The failing case: in every run context some command does something else than without one, and a sound context-free row answers all the same. |
| `GateResultCache.MergedOff` | src/auto_agents/gates.py:1063-1092 | One step that switches reuse off switches it off for the merged command, and nothing else does. |
| `GateResultCache.MergedDeclares` | src/auto_agents/gates.py:1063-1092 | Merging the steps of one command, each declared as validation demands, gives `observed_inputs` exactly when the first step has it and none is stricter, and depends on sources alone exactly when all do. |
| `GateResultCache.MergeMakesContext` | src/auto_agents/gates.py:1063-1092 | How the failing input arises: two steps, each declared as it must be, merge to `observed_inputs` in a run context, which validation refuses of a single step. |
| `GateResultCache.RecordKeepsBacked` | src/auto_agents/gate_result_cache.py:236-376 | Every certificate and the index row beside it stay those of one recorded report. |
| `GateResultCache.CertificateAnswers` | src/auto_agents/gate_result_cache.py:184-196 | An answer from the exact key is the stored outcome of the report recorded under it: nothing was wrong with that, its inputs look the same and its outputs are in place. |
| `GateResultCache.RowAnswers` | src/auto_agents/gate_result_cache.py:204-224 | So is one from the index, of a report whose inputs were observed, fully traced and without network. |
| `GateResultCache.NothingToRestore` | src/auto_agents/gate_result_cache.py:440-481 | Outputs that are all in place need no restoring. |
| `GateResultCache.GateResultCache.Record` | src/auto_agents/gate_result_cache.py:236-376 | Stores exactly results that passed, ran to their end without infrastructure error or mutation, are not themselves cached, and have their outputs in place; the tables become the fresh rows with this one, cut to the newest at the limit; soundness is kept. |
| `GateResultCache.GateResultCache.StoreArtifacts` | src/auto_agents/gate_result_cache.py:403-438 | Succeeds exactly when every output is there with its digest. |
| `GateResultCache.GateResultCache.KeepNewest` | src/auto_agents/gate_result_cache.py:329-339 | Keeps the newest rows up to the limit. |
| `GateResultCache.GateResultCache.NewestRows` | src/auto_agents/gate_result_cache.py:204-215 | The newest eligible rows, newest first, as many as the limit allows. |
| `GateResultCache.GateResultCache.FromCertificate` | src/auto_agents/gate_result_cache.py:184-196 | The exact key decides and never falls through to the index. |
| `GateResultCache.GateResultCache.FromIndex` | src/auto_agents/gate_result_cache.py:204-226 | A hit is a success and what re-running gives between the files before and after. |
| `GateResultCache.GateResultCache.FirstMatch` | src/auto_agents/gate_result_cache.py:216-226 | The loop over candidate rows is the search the lemmas are about. |
| `GateResultCache.GateResultCache.RestoreArtifacts` | src/auto_agents/gate_result_cache.py:440-481 | The restoring loop, with its partial effects on a refusal. |
| `GateResultCache.GateResultCache.LookupWithReason` | src/auto_agents/gate_result_cache.py:154-234 | Each branch with its reason; files and directories are only added. Over every history a hit is the stored outcome of a report recorded under the answering key, young enough, in which nothing was wrong; on a complete manifest without network it is what re-running the command gives. The exact key answers whenever its inputs look the same and its outputs are in place, and no row that may answer is left out below the limit. |
| `DistributedGates.SlotsConserved` | src/auto_agents/distributed_gates.py:530-543 | Under every interleaving of any number of commands each worker's count is the sum of the slots held on it, within its capacity. |
| `DistributedGates.NextConserves` | src/auto_agents/distributed_gates.py:530-633 | Every step keeps that. |
| `DistributedGates.ClampUnused` | src/auto_agents/distributed_gates.py:538-543 | Releasing never needs its clamp at zero. |
| `DistributedGates.SlotsReturn` | src/auto_agents/distributed_gates.py:1004-1090 | Success, failure, caught and escaping error, cancellation, a wait given up and a known failure domain all give the slots back. |
| `DistributedGates.RunsWhereSupported` | src/auto_agents/distributed_gates.py:540-622 | In every run a command only ever runs on workers that support it and are large enough, pinned or not. |
| `DistributedGates.ReceivedMeans` | src/auto_agents/distributed_gates.py:1046-1064 | An execution comes to its own result, unless its output names an infrastructure failure where nothing else explains why it failed; a caught error is an infrastructure failure. |
| `DistributedGates.VerdictsMean` | src/auto_agents/distributed_gates.py:1065-1089 | Only an infrastructure failure that is certain is tried elsewhere, in the first loop only without a name and outside a lane with state; one with a name goes to the loop over reported failures. |
| `DistributedGates.RetriesDisciplined` | src/auto_agents/distributed_gates.py:993-1090 | With one command per lane at a time, each remote worker executes a command at most once, and the loop over reported failures uses no failure domain it knows. |
| `DistributedGates.LanelessDisciplined` | src/auto_agents/distributed_gates.py:993-1090 | Commands outside lanes need no such condition. |
| `DistributedGates.NextKeepsLaneInv` | src/auto_agents/distributed_gates.py:1075-1090 | Every step keeps the pins of lanes in step with the commands in flight. |
| `DistributedGates.PinnedLaneStays` | src/auto_agents/distributed_gates.py:1077-1090 | Once a lane has a recorded success its worker never changes. |
| `DistributedGates.SharedLaneMoves` | src/auto_agents/distributed_gates.py:1075-1090 | Why that condition: whenever two commands of one lane are at work and one is sent elsewhere before the other succeeds, the success counts for a lane that has no worker any more. |
| `DistributedGates.UncertainNeverFollowed` | src/auto_agents/distributed_gates.py:1065-1084 | In every run of the outcomes the executor can have, an uncertain result is never followed by another execution of its command, whatever anyone does and whatever comes later. Those outcomes: an uncertain result names no failure, as both places that make one build it. |
| `DistributedGates.UncertainStops` | src/auto_agents/distributed_gates.py:1065-1084 | For any outcomes: an uncertain result is never followed by another execution if it is the last result: it names no failure of its own, comes from the loop over reported failures, has state in its lane, or leaves no worker to try. |
| `DistributedGates.UncertainGoesOn` | src/auto_agents/distributed_gates.py:1065-1076 | If it is not, it is followed by one as soon as a worker not tried yet, in another failure domain, has room. |
| `DistributedGates.UncertainReportRunsAgain` | src/auto_agents/distributed_gates.py:1065-1076 | Why the outcomes matter: on any two workers, one that did name a failure would be executed again. |
| `DistributedGates.StepsBounded` | src/auto_agents/distributed_gates.py:1004-1269 | Both retry loops terminate: no run lets a command take more steps than a fixed bound. |
| `DistributedExecution.DistributedExecutor.TryAcquire` | src/auto_agents/distributed_gates.py:530-536 | Takes slots exactly when there is room. |
| `DistributedExecution.DistributedExecutor.Release` | src/auto_agents/distributed_gates.py:538-543 | Gives them back. |
| `DistributedExecution.DistributedExecutor.Candidates` | src/auto_agents/distributed_gates.py:594-608 | The workers not excluded that can serve the command; local ones again only when none is left. |
| `DistributedExecution.DistributedExecutor.AcquireEndpoint` | src/auto_agents/distributed_gates.py:545-633 | A pinned lane gets its own worker or none; otherwise the most preferred candidate with room, least loaded first. |
| `DistributedExecution.DistributedExecutor.TakeTurn` | src/auto_agents/distributed_gates.py:1201-1246 | A turn of the retry loop leaves the counts as they were, on a worker not tried before, skipping exactly known domains. |
| `DistributedExecution.DistributedExecutor.RetryReported` | src/auto_agents/distributed_gates.py:1168-1269 | Every further execution is on the most preferred new worker with room in a new failure domain, past certain infrastructure failures only; it gives up only when the limit is reached or nobody is left; a lane with state is not moved; the slots are back. |
| `DistributedExecution.DistributedExecutor.FirstLoop` | src/auto_agents/distributed_gates.py:1004-1090 | The loop of the first turns: each on the pinned worker or the most preferred one not tried, and over before its last turn only on an answer, an escape, or when no worker is available. |
| `DistributedExecution.DistributedExecutor.JudgeFirst` | src/auto_agents/distributed_gates.py:1060-1090 | What one result leads to: the answer, the other loop, or another turn, with a plain success counted for its lane. |
| `DistributedExecution.DistributedExecutor.NeverPastUncertain` | src/auto_agents/distributed_gates.py:1079-1080 | The outcomes the executor can have never let either loop go past an uncertain result. |
| `DistributedExecution.DistributedExecutor.RunUncached` | src/auto_agents/distributed_gates.py:974-1090 | Slots are back however it ends and remote workers execute at most once. With fewer executions than turns it ends only on an answer, an escape, in a lane with state, or when no worker is available; a reported failure, and nothing else, goes to the other loop, which is never cut short either; the answer, the pins and the successes are exactly those of what ran. |
| `CommandSpans.SplitJoins` | src/auto_agents/execution_binding.py:216-255 | The pieces of a command line joined are the line: nothing is lost. |
| `ShellGrammar.LinesAreRead` | src/auto_agents/execution_binding.py:216-255 | The lexer accepts exactly the lines of a grammar of quoted and unquoted text, separators and comments, and finds in them the commands that were written. |
| `ShellGrammar.WordsAreRead` | src/auto_agents/execution_binding.py:267-269 | The words of a command are exactly those that a way of writing it, with quotes that close, escapes and blanks, means. |
| `CommandSpans.FindSpans` | src/auto_agents/execution_binding.py:216-255 | The character loop finds exactly the pieces of the recursive lexer and refuses exactly nested shell syntax and open quotes. |
| `CommandSpans.SpansOrdered` | src/auto_agents/execution_binding.py:216-255 | Spans are in bounds, in order and apart, and each holds its simple command. |
| `ShellRewriting.RewriteSimpleCommands` | src/auto_agents/execution_binding.py:258-264 | For every transform, splicing from right to left is rebuilding from left to right, with blanks, separators and comments untouched; a refused command refuses the line. |
| `ShellRewriting.IdentityKeeps` | src/auto_agents/execution_binding.py:258-264 | The identity transform gives the line back. |
| `ShellWords.ExecutableTokens` | src/auto_agents/execution_binding.py:267-285 | The peeling loops give the recursively peeled words. |
| `Launchers.LaunchersPeel` | src/auto_agents/execution_binding.py:267-285 | Any assignments, `exec`, `env` and `conda run` with its options are taken off, in any order and number, and nothing else. |
| `Launchers.AssignmentMeans` | src/auto_agents/execution_binding.py:271-272 | An assignment is a name, an equals sign and anything. |
| `Launchers.NameMeans` | src/auto_agents/execution_binding.py:482-493 | A program is named by its last component, wherever it lies and however many slashes and dots follow. |
| `Launchers.RunnerFound` | src/auto_agents/execution_binding.py:478-492 | Whichever package runner starts it, the program is found with its arguments. |
| `Launchers.LaunchedNeedsFlag` | src/auto_agents/execution_binding.py:476-496 | However it is launched, a command is given the flag exactly when its program is Vitest and no argument speaks of the cache. |
| `ShellWords.WordsAppend` | src/auto_agents/execution_binding.py:476-496 | A plain word put after a command becomes its last word. |
| `ShellWords.FlagIsSeen` | src/auto_agents/execution_binding.py:478-496 | A flagged command is still the same Vitest run and now says what it does with its cache. |
| `CacheFlag.Relexes` | src/auto_agents/execution_binding.py:476-502 | Lexing the rewritten line finds just the rewritten pieces. |
| `CacheFlag.PieceAchieves` | src/auto_agents/execution_binding.py:476-496 | A rewritten command's words are the old ones, with the flag last exactly where it was needed, and it is not rewritten again. |
| `CacheFlag.DisableVitestCache` | src/auto_agents/execution_binding.py:476-502 | The rewriting, with unparsable lines left as they are. |
| `CacheFlag.CacheFlagIdempotent` | src/auto_agents/execution_binding.py:476-502 | For every command line a second pass changes nothing. |
| `CacheFlag.FlagExactlyWhereNeeded` | src/auto_agents/execution_binding.py:476-502 | Commands, gaps and words stay, and every Vitest command says what it does with its cache. |
| `CacheFlag.UnchangedWhen` | src/auto_agents/execution_binding.py:476-502 | A line that parses is unchanged exactly when no command in it needs the flag. |
| `ResourceLocks.IdentityOrder` | src/auto_agents/gate_execution.py:771-774 | On every worker, declared resources in sorted order have lock identities in the one order of all locks. |
| `ResourceLocks.LocksAscend` | src/auto_agents/gate_execution.py:771-774 | So a job takes its locks in strictly ascending order, and takes all it asked for. |
| `ResourceLocks.OtherScopesCollide` | src/auto_agents/gate_execution.py:772-774 | Why resources must be declared: with a scope that validation refuses, two resources can share one lock, which the job then waits for while holding it. |
| `ResourceLocks.LockDirectory.TryLease` | src/auto_agents/gate_execution.py:761-794 | A cancelled lease takes all its locks exactly when nobody has one and it names none twice, and otherwise leaves every lock as it was. |
| `ResourceLocks.DeclaredLease` | src/auto_agents/gate_execution.py:771-774 | Declared resources never name a lock twice. |
| `ResourceLocks.LockDirectory.Release` | src/auto_agents/gate_execution.py:788-794 | Giving back in reverse restores the others' locks exactly. |
| `ResourceJobs.JobIsFine` | src/auto_agents/gate_execution.py:761-794 | A command with declared resources, run here or sent away, takes each of its leases in the one order of all locks, and no lock twice. |
| `ResourceJobs.NextKeepsInv` | src/auto_agents/gate_execution.py:770-794 | Every step of every job on every machine, a sender's deadline included, keeps one holder per lock. |
| `ResourceJobs.InsideApart` | src/auto_agents/gate_execution.py:770-794 | Jobs inside at the same time share no lock. |
| `ResourceJobs.SomeoneMoves` | src/auto_agents/gate_execution.py:770-794 | As long as a job is not done, some job has a step of its own or a deadline to come; and a step of its own if no job nests a lease in another. |
| `ResourceJobs.StepsEnd` | src/auto_agents/gate_execution.py:770-794 | Every step brings the end nearer. |
| `ResourceJobs.AllCanEnd` | src/auto_agents/gate_execution.py:770-794 | From every such state all jobs can end, without any deadline if none nests leases, and then all locks are free. |
| `ResourceJobs.NothingLeft` | src/auto_agents/gate_execution.py:788-794 | All locks are free when all jobs have ended. |
| `ResourceJobs.NestsWhen` | src/auto_agents/distributed_gates.py:949-956 | Leases are nested exactly for a command sent to another machine with a pool resource here and a host resource there. |
| `ResourceJobs.DeclaredCommandsEnd` | src/auto_agents/distributed_gates.py:816-956 | For any declared commands on any machines and any run of them: one holder per lock, and all can end from there with all locks free, by their own steps alone unless some command nests its leases. |
| `ResourceJobs.ResourcesExclude` | src/auto_agents/distributed_gates.py:816-956 | In every run of declared commands those that are inside exclude one another: no two on one machine and worker name the same host resource, and no two of one sender, or at home with it, the same pool resource, unless a sender met its deadline. |
| `ResourceJobs.NestedLeasesWait` | src/auto_agents/distributed_gates.py:872-956 | Why unless: on any two machines, with any workers and resource names, two commands sent across and two at home can each hold one lock and wait for one another until a deadline frees the next. |
| `PathWalk.ResolveObservedPath` | src/auto_agents/gate_execution.py:476-536 | The loop terminates on every file system, link cycles included, and reports exactly what recursive pathname resolution comes to. |
| `PathWalk.LoopResolves` | src/auto_agents/gate_execution.py:476-536 | Putting a link's target before the pending components is resolving the link by itself first. |
| `PathWalk.LoopAppend` | src/auto_agents/gate_execution.py:524-532 | A walk along two stretches is the first one, continued. |
| `PathWalk.LoopGrounded` | src/auto_agents/gate_execution.py:476-536 | Every walk ends at a real path, with as many links followed as it says, all of them permitted. |
| `PathWalk.LimitDoesNotMatter` | src/auto_agents/gate_execution.py:525-527 | A walk that stays within the link limit does not depend on it. |
| `PathWalk.TooManyIsTooMany` | src/auto_agents/gate_execution.py:525-527 | One that exceeds it follows more links than that under any limit. |
| `PathWalk.RealIsItself` | src/auto_agents/gate_execution.py:489-536 | A real path comes to itself, with no link followed. |
| `PathWalk.ParentStep` | src/auto_agents/gate_execution.py:489-493 | After a real directory a parent step takes its last component away, and at the root nothing. |
| `PathWalk.LinkStep` | src/auto_agents/gate_execution.py:509-532 | After a real directory a permitted link stands for its target: taken from the root when that is absolute, and from the link's own directory when it is not. |
| `PathWalk.EndsAt` | src/auto_agents/gate_execution.py:494-536 | After a real directory, how a walk ends at a name that is missing, forbidden or no directory. |
| `PathWalk.FortyLinks` | src/auto_agents/gate_execution.py:525-527 | Forty links may be followed and no more; any other path comes to what it would with no limit in the way. |
| `PathWalk.FollowedRegistered` | src/auto_agents/gate_execution.py:509-522 | A link inside the checkout is followed only when the executor registered just that absolute target under its place and it is a real directory; a refusal has such a link that is not. |
| `PathWalk.FoundIsReal` | src/auto_agents/gate_execution.py:490-536 | A found path is free of links, or a missing or forbidden name in a link-free directory. |
| `PathWalk.FoundLinks` | src/auto_agents/gate_execution.py:509-524 | Every followed link, and nothing else, is recorded with its target. |
| `ManagedBlocks.MergeManagedContent` | src/auto_agents/agent_instructions.py:442-458 | The merged file is the author's frame around the new block, and the refusals are those of the markers. |
| `ManagedBlocks.CountOnce` | src/auto_agents/agent_instructions.py:448-449 | The non-overlapping count is one exactly when the marker is in one place. |
| `ManagedBlocks.MergeTwice` | src/auto_agents/agent_instructions.py:442-458 | Merging g1 and then g2 is merging g2, exactly when g1 is free of markers; otherwise the file is refused from then on. |
| `ManagedBlocks.MergeIdempotent` | src/auto_agents/agent_instructions.py:442-458 | Merging the same text again changes nothing. |
| `ManagedBlocks.AuthorTextKept` | src/auto_agents/agent_instructions.py:442-458 | All author text outside an existing block is byte-identical; without a block only trailing blanks go. |
| `ManagedBlocks.RefusedWhen` | src/auto_agents/agent_instructions.py:442-458 | For every file: refused exactly when it is not replaced as a whole and a marker is there but not both once, or both are in the wrong order. Replaced as a whole are empty files and files known to be generated that have no block. |

## Left out

- Subprocesses, git, sockets, TLS, file locks, SQLite and JSON: atomic steps, with a crash point wherever the code commits separately.
- Progress reports, timing estimates, notifications, redaction and command-line handling: presentation.
- Scheduler.RunOverlapped: the slot-utilisation figures and the partial result attached to refused preflights are not modelled; a batch of futures that are done together is booked in any order.
- PhasedRunner.RunParallel: the cancel event reaches commands through their outcomes only.
- TargetBatches.BalancedBatches: weights are exact numbers, and the size of a file is part of the cost function.
- ArtifactStorage.ArtifactStore: one row with its two paths; byte accounting and budgets and the guards asked of other subsystems (their answers are inputs) are not modelled, nor is disposing of a worktree outside the sweep.
- ArtifactStorage.ArtifactStore.Register: whether the path overlaps those of other rows is an input, and roots that are never allowed are not modelled.
- ArtifactStorage.ArtifactStore.ReconcileRow: adoption of candidates during reconciliation is not modelled.
- Outsiders who change files between an inode check and the removal that follows: check and removal are one step.
- CandidateRetirement.Project.Retire: what git says of the delivery and of the archived commits is one input; time budgets, unreadable or oversized documents, the receipt's own identity fields, and documents that appear or vanish between runs are not modelled.
- CandidateRetirement.StripLineMeans: line numbers are ASCII digits, where the code also takes those of other scripts.
- BusinessCalls.Perform: reconciling unknown calls by an operator is not modelled; phases without receipts run directly; interrupts after a commit are moves of the state machine only.
- Migration of legacy stores, projections and exports in `business_state.py`: plumbing over layouts.
- GateResultCache.GateResultCache.LookupWithReason: database errors, which switch the cache off, the table that explains misses and file modes are not modelled; manifests are path-to-digest maps without the special prefixes for denied and external paths.
- GateResultCache.GateResultCache.Record: the honesty of the executor's input trace is required, not proved; tracing system calls is not part of this model.
- DistributedExecution.DistributedExecutor.AcquireEndpoint: waiting for room ends in its timeout, since nobody else is at work there; waiting beside others is a step of the state machine.
- GateResultCache.CertificateHitReruns: a hit on the exact key whose certificate does not name all its inputs rests on the source fingerprint, and nothing is claimed of it.
- Managed runtime repair after the retry loops, and discovery and probing of workers: outside the slot accounting.
- DistributedGates.SlotsConserved: the order in which a free worker is preferred is left open there; `AcquireEndpoint` has it, with nobody else at work.
- DistributedGates.RetriesDisciplined: commands of one lane are taken to come one after the other, as the scheduler's serial lane sends them; `SharedLaneMoves` says why.
- DistributedGates.UncertainNeverFollowed: that a worker's own answer never carries the reason `remote_state_uncertain` is a property of code on the worker, taken as part of which outcomes can be.
- `classify_reported_infrastructure_failure`: which output lines count as markers is an input.
- Quoting beyond what the lexer itself decides (here-documents, arithmetic) is not modelled, as in the code.
- ShellWords.ExecutableTokens: assignments are recognised by ASCII letters, as the pattern does; words come from POSIX-mode splitting without comments.
- ResourceJobs.SomeoneMoves: a deadline is a step that may come at any time once the sender holds its lease; its length is not modelled, nor are the slots and retries around a sent command.
- PathWalk.ResolveObservedPath: paths and link targets are component lists, so doubled and trailing slashes and `.` are already gone; a registered link's text is taken in its normal form.
- ManagedBlocks.MergeManagedContent: the recorded hash of a generated file stands for the file's text.
- Regular-expression heuristics, failure scraping, incident diagnosis and rule extraction: decision tables.
