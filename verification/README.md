# YOMA office layer: models and proofs

A Dafny model of the algorithmic core of YOMA's office layer, and of three neighbours of it (agent
runs, memory search, the credential vault), with proofs of what these components keep over whole runs.

Objects that update themselves are classes here; their methods are proved against functions on values,
and the theorems are about those functions: over every input, every sequence of calls, or every
interleaving. Loops of the program are loops here, with the invariants that connect them to the function.

| files | what they model |
|---|---|
| `Layering`, `Plans`, `DependencyOrder`, `CrossSystem`, `Scheduling` | level-by-level dependency ordering, the same on the quotient graph of systems, and the lifecycle of schedules |
| `Reconciliation`, `CentralServer` | snapshots diffed into an event log, two stores, restarts |
| `AgentRuns`, `AgentRunRaces` | the agent-run protocol, each database transaction one atomic step; what concurrent requests can still do |
| `Policy`, `Approval`, `GovernedExecution`, `CentralGovernance` | policy check, approval workflow, bridge and gateway with re-entrant executors; governance of distributed requests |
| `CloudSync`, `OfflineSync`, `EventCollection`, `IdentityMapping` | the outbound queue, the offline buffer that mirrors it, event numbering, identity caches over one table |
| `DocumentIndex`, `DocumentSearch`, `MemorySearch`, `Text` | the document table and its two indexes, the LIKE patterns of both searches, Python's `strip` and SQLite's LIKE |
| `CredentialVault`, `Base64` | the keystream cipher, base64 (section 4 of RFC 4648), sealing and retrieval |
| `Situations`, `HistoricalTrends`, `DecisionContext`, `Reliability` | grouping of situations, trends and patterns, historical contexts, reliability grades, in exact arithmetic |
| `Sorting`, `Wrappers` | Python's `sorted`; identifiers, options and results |

Identifiers are a datatype around their text. Hashes, JSON, HMAC, uuids, the clock and subscribers are
parameters. Times are integers (microseconds where arithmetic is done on them); rates are reals.

Where the code does less than its documentation or its tests suggest, the code is followed. Each such point
has a lemma that reaches it from the start, and a theorem with the exact condition:

| what can happen | reached by | exactly when |
|---|---|---|
| a log of a snapshot with a repeated id does not replay | `CentralServer.RepeatedIdBreaksReplay` | `Reconciliation.DiffReplaysIff` |
| a cancelled agent run turns failed | `AgentRunRaces.CancelledCanTurnFailed` | `AgentRunRaces.CancelCanFailIff` |
| a completed agent run has a running step | `AgentRunRaces.TwoExecutorsBreakCompletion` | `AgentRunRaces.OneExecutorIsTheBound` |
| a refusal overwrites the finished record of an action whose id ends in `-REJECTED` | `GovernedExecution.RefusalCanOverwrite` | `GovernedExecution.FinishedRecordsStandIff` |
| a key settled on one side only breaks the offline mirror | `OfflineSync.OneSidedSettlementBreaks` | `OfflineSync.MirrorKeptIff` |
| a record filed by hand under a key that is not its sync id is buffered under an id that the queue does not have | `OfflineSync.MisfiledRecordBreaks` | `OfflineSync.KeyedKeptIff`, `OfflineSync.MirrorKeptIff` |
| an event that cannot be prepared leaves a gap in the numbers of the returned envelopes | `EventCollection.RaiseLeavesGap` | `EventCollection.ReturnedGaplessIff` |
| the id of such an event counts as a duplicate afterwards and is never queued | `EventCollection.ConsumedIsLost` | `EventCollection.RaisesIff` |
| the document fallback search takes an underscore for any character | `DocumentSearch.FallbackExactIff` | `DocumentSearch.FallbackExactIff` |
| two instances give one external identity two ids | `IdentityMapping.TwoInstancesSplit` | `IdentityMapping.LookUpCanSplitIff` |
| a request of another node under an old id erases an approval | `CentralGovernance.ApprovalCanBeErased` | `CentralGovernance.DecisionStandsIff` |
| a plan scheduled for one local time in two zones gets the first zone's schedule | `Scheduling.TwoZonesShareASchedule` | `Scheduling.AnswersAskedInstantIff` |
| the reliability analyses of all actions and of a type named `ALL` overwrite each other | `Reliability.ScopesCollideIff` | `Reliability.ScopesCollideIff` |
| a plan can be ordered but not coordinated | `CrossSystem.OrderedButNotCoordinated` | `DependencyOrder.OrderIffAcyclic` against `CrossSystem.CoordinationIffSystemsAcyclic` |

## Model

| member | source | states |
|---|---|---|
| Layering.CompleteIffAcyclic | src/yoma/office/dependency_aware_execution.py:154-174 | on every closed graph the level-by-level release empties the graph exactly when no cycle of dependencies exists |
| Layering.StuckIsGreatestDeadlock | src/yoma/office/dependency_aware_execution.py:261-291 | what is left over is the greatest set in which every node waits for another node of the set |
| Layering.LevelIsLongestChain | src/yoma/office/dependency_aware_execution.py:158-174 | a node's level is the length of its longest dependency chain: one that long exists, none is longer |
| Layering.LevelIsMinimal | src/yoma/office/dependency_aware_execution.py:158-174 | no assignment of levels that respects the dependencies puts a node on an earlier level |
| Layering.LevelsAreRanking | src/yoma/office/dependency_aware_execution.py:158-174 | when everything is released, the levels themselves put every dependency strictly earlier |
| Layering.DeadlockHasCycle | src/yoma/office/dependency_aware_execution.py:165-168 | any set that waits for itself contains a cycle, so the error message "circular dependency" is true whenever it is raised |
| Plans.IdCountIsUniqueness | src/yoma/office/multi_action_execution.py:90-93 | comparing the number of distinct ids with the number of actions detects exactly the repeated ids |
| Plans.SameWorkSameGraph | src/yoma/office/dependency_aware_execution.py:149-152 | the dependency graph does not depend on the order or numbering of the actions |
| DependencyOrder.DependencyEngine.Order | src/yoma/office/dependency_aware_execution.py:96-194 | `order` with its cache: a cached order is returned as it is, duplicates and cycles raise without caching, a plan with missing dependencies is reported as blocked, otherwise the levels of the graph come back, sorted |
| DependencyOrder.DependencyEngine.Analyze | src/yoma/office/dependency_aware_execution.py:196-309 | `analyze` with its own cache, leaving the orders untouched |
| DependencyOrder.ReleaseInLevels | src/yoma/office/dependency_aware_execution.py:154-174 | the loop of `order` computes the recursive levels and leaves exactly the stuck nodes |
| DependencyOrder.ReleaseAll | src/yoma/office/dependency_aware_execution.py:261-291 | the loop of `analyze`, which keeps no levels, leaves the same nodes |
| DependencyOrder.MissingDependencies | src/yoma/office/dependency_aware_execution.py:123-128 | the nested loop finds exactly the dependencies that name no action |
| DependencyOrder.OrderIffAcyclic | src/yoma/office/dependency_aware_execution.py:158-194 | for unique ids and nothing missing, an order comes back exactly when the dependencies are acyclic, and otherwise the circular-dependency error |
| DependencyOrder.OrderIsPermutation | src/yoma/office/dependency_aware_execution.py:176-191 | an order lists every action exactly once, and passes the constructor's check |
| DependencyOrder.OrderRespectsDependencies | src/yoma/office/dependency_aware_execution.py:176-191 | every action comes strictly after all its dependencies |
| DependencyOrder.LevelMeansLongestChain | src/yoma/office/dependency_aware_execution.py:158-174 | an action's level in the returned order is its longest dependency chain and the least that any ranking allows |
| DependencyOrder.InputOrderIsIrrelevant | src/yoma/office/dependency_aware_execution.py:96-194 | rearranging or renumbering the actions changes neither the order nor the analysis |
| DependencyOrder.AnalysisAgreesWithOrder | src/yoma/office/dependency_aware_execution.py:196-309 | the analysis says circular exactly when `order` raises; missing and blocked lists agree; its ready actions are level 0 |
| DependencyOrder.BlockedIsGreatestDeadlock | src/yoma/office/dependency_aware_execution.py:271-288 | on a cycle the blocked actions are the greatest set in which each waits for another of the set |
| DependencyOrder.OrderOfDangling | src/yoma/office/dependency_aware_execution.py:123-147 | for unique ids, when some dependency names no action: `order` succeeds with nothing ordered; blocked lists exactly the ids of the actions, missing exactly the dependencies that name none, both strictly sorted |
| DependencyOrder.OrderOfComplete | src/yoma/office/dependency_aware_execution.py:181-191 | otherwise an order blocks nothing and misses nothing |
| DependencyOrder.AnalysisOfDangling | src/yoma/office/dependency_aware_execution.py:220-245 | the same two lists for `analyze`, which then calls nothing ready and sees no circle |
| DependencyOrder.AnalysisOfComplete | src/yoma/office/dependency_aware_execution.py:247-309 | otherwise ready are exactly the ids of actions without dependencies, cyclic or not; nothing is missing; circular, and a non-empty blocked list, mean a cycle |
| DependencyOrder.DependencyCountIsCardinality | src/yoma/office/dependency_aware_execution.py:236-239 | the count of an analysis is the number of dependencies written in the plan |
| DependencyOrder.KeysAreApart | src/yoma/office/dependency_aware_execution.py:107-216 | different plan ids never share a key in either cache |
| DependencyOrder.DuplicatesAreRefused | src/yoma/office/dependency_aware_execution.py:113-121 | the duplicate error comes exactly for repeated ids |
| CrossSystem.CrossSystemEngine.Coordinate | src/yoma/office/cross_system_coordination.py:429-473 | `coordinate` with its cache by coordination id: an unidentified plan is refused, a failure is not cached |
| CrossSystem.BuildGroups | src/yoma/office/cross_system_coordination.py:286-377 | the grouping loops yield the sorted systems, one group for each, the unresolved systems, and the quotient graph |
| CrossSystem.GroupBySystem | src/yoma/office/cross_system_coordination.py:295-313 | the first loop files each action under its system, in plan order, and collects the systems without an integration |
| CrossSystem.BuildDependencies | src/yoma/office/cross_system_coordination.py:317-345 | the dependency loops compute the quotient of the action graph: the other systems that a system's actions wait for |
| CrossSystem.OrderSystems | src/yoma/office/cross_system_coordination.py:379-427 | the third copy of the loop raises exactly when some system is stuck, and otherwise returns the levels of the quotient graph |
| CrossSystem.GroupsPartitionActions | src/yoma/office/cross_system_coordination.py:286-377 | the groups' action ids are together the plan's action ids, counted with multiplicity |
| CrossSystem.GroupHoldsItsSystem | src/yoma/office/cross_system_coordination.py:347-370 | a group lists exactly the actions of its system, sorted by sequence and id |
| CrossSystem.CoordinationIffSystemsAcyclic | src/yoma/office/cross_system_coordination.py:379-473 | coordination is refused exactly when the systems depend on each other in a circle |
| CrossSystem.CrossDependencyIsEarlier | src/yoma/office/cross_system_coordination.py:379-427 | after success every dependency between two systems points to a strictly earlier level |
| CrossSystem.CircleStaysInOneSystem | src/yoma/office/cross_system_coordination.py:379-427 | after success any circle of dependent actions lies within one system |
| CrossSystem.UnresolvedWithin | src/yoma/office/cross_system_coordination.py:379-427 | the blocked list of a system order is always empty, because every unresolved system has a group |
| CrossSystem.ParticipatingIff | src/yoma/office/cross_system_coordination.py:295-315 | the participating systems are exactly those that some action belongs to: by a non-empty target, or as the placeholder for none; strictly sorted |
| CrossSystem.UnresolvedIff | src/yoma/office/cross_system_coordination.py:295-427 | unresolved, and missing in the system order, are exactly the placeholder if an action has no target, and, if there are integrations, the targets that are not among them; strictly sorted |
| CrossSystem.EdgeIff | src/yoma/office/cross_system_coordination.py:317-345 | the quotient graph has an edge exactly for a dependency of one system's action on an id whose first action belongs to another system |
| CrossSystem.GroupIsOfItsSystem | src/yoma/office/cross_system_coordination.py:347-370 | there is one group for each participating system, in order, and its dependency list is exactly those edges |
| CrossSystem.InvalidIff | src/yoma/office/cross_system_coordination.py:253-264 | a plan is refused as invalid exactly if one of its four ids is empty |
| CrossSystem.CoordinationIdIs | src/yoma/office/cross_system_coordination.py:241-251 | the key of the cache: plan, orchestration and the ids of the actions |
| CrossSystem.OrderedButNotCoordinated | src/yoma/office/cross_system_coordination.py:379-427 | a concrete acyclic plan that the dependency engine orders and coordination refuses |
| Scheduling.SchedulingEngine.SchedulePlan | src/yoma/office/execution_scheduling.py:165-235 | refusals in the order of the checks; an existing id returns the stored schedule; otherwise the engine's order is frozen into a new one |
| Scheduling.SchedulingEngine.MarkReady | src/yoma/office/execution_scheduling.py:266-302 | `ready` makes a scheduled one ready at or after its time; an early one, or one that is not scheduled, comes back unchanged; an unknown id or a naive time raises |
| Scheduling.SchedulingEngine.Cancel | src/yoma/office/execution_scheduling.py:304-329 | `cancel` makes a scheduled or ready one cancelled; a completed or cancelled one comes back unchanged; an unknown id raises |
| Scheduling.SchedulingEngine.Complete | src/yoma/office/execution_scheduling.py:331-358 | `complete` makes a ready one completed and raises on every other, changing nothing |
| Scheduling.SchedulesOnlyAdvance | src/yoma/office/execution_scheduling.py:165-358 | over any run a stored schedule keeps everything but its status, which only moves forward; completed and cancelled are absorbing |
| Scheduling.StatusTellsTheCalls | src/yoma/office/execution_scheduling.py:266-358 | after any calls, each status of a new schedule has its exact condition on them: completed by a `complete` after a timely `ready` and before any `cancel`; cancelled by a `cancel` that no such completion precedes; ready or scheduled otherwise, by whether a timely `ready` was made |
| Scheduling.EveryScheduleTellsItsCalls | src/yoma/office/execution_scheduling.py:165-358 | over any run from the start every stored schedule was made new by one `schedule` call with that call's plan and times, and its status tells the calls since then |
| Scheduling.ScheduleRefusesIff | src/yoma/office/execution_scheduling.py:165-199 | `schedule` refuses exactly if something is wrong with the times or the order, with the first such error; the engine is asked exactly if the times are in order |
| Scheduling.OrderCallStores | src/yoma/office/dependency_aware_execution.py:96-194 | other users of the engine store an order exactly where there is none and the plan has one |
| Scheduling.SchedulesAgreeWithEngine | src/yoma/office/execution_scheduling.py:182-229 | over any run, with other users of the dependency engine, each schedule's order and levels equal the order that the engine answers for its plan id |
| Scheduling.SchedulesHoldTheirPlansOrder | src/yoma/office/execution_scheduling.py:182-229 | over any run from the start in which a plan is the only one under its id, each of its schedules carries the order computed from that plan, so its levels are the longest dependency chains |
| Scheduling.AnswersAskedInstantIff | src/yoma/office/execution_scheduling.py:158-235 | in any state `schedule` answers for the instant that was asked exactly when its id, which has the local time without the zone, is not taken by a schedule for another instant |
| Scheduling.TwoZonesShareASchedule | src/yoma/office/execution_scheduling.py:158-235 | for any plan that can be scheduled, from the start: asked for the same local time in a second zone, it gets the schedule for the first |
| Scheduling.OneZoneAnswersTheInstant | src/yoma/office/execution_scheduling.py:158-235 | over any run whose times come from one zone, `schedule` answers for the plan and the instant that were asked |
| Reconciliation.DiffReplaysIff | src/yoma/office/central_server.py:331-531 | for every snapshot, repeated ids included: replaying the emitted events gives the new state exactly when no id whose last copy equals the old state has a different copy before it |
| Reconciliation.KeyReplaysIff | src/yoma/office/central_server.py:331-531 | the same, key by key |
| Reconciliation.DistinctIsReplayable | src/yoma/office/central_server.py:331-531 | a snapshot with distinct ids meets the condition |
| Reconciliation.DiffRewinds | src/yoma/office/central_server.py:331-531 | undoing the events through their previous states gives the old state back, for every snapshot, repeated ids included |
| Reconciliation.AbandonedPrefixDoesNotReplay | src/yoma/office/central_server.py:299-329 | events published for a snapshot that a raising subscriber then abandoned never replay to the state that was kept |
| Reconciliation.RepeatIsSilentIff | src/yoma/office/central_server.py:331-531 | reconciling the same snapshot again emits nothing exactly when it holds no two different copies of an id |
| Reconciliation.SortKeepsCopies | src/yoma/office/central_server.py:331-432 | sorting the records by id keeps the order of the copies of one id, so the last copy stays last |
| Reconciliation.DiffIsLabelled | src/yoma/office/central_server.py:357-410 | every event of a snapshot is labelled by its own two states: added, removed, activated, deactivated or updated, each exactly if previous, current and their activity flags say so; and it carries what is filed under its key |
| Reconciliation.DiffCount | src/yoma/office/central_server.py:357-410 | the events with their multiplicity: a change once for every copy of a record that differs from the state before, a removal once for every known id without a record, and no other event |
| Reconciliation.DiffIsOrdered | src/yoma/office/central_server.py:357-410 | changes come before removals, each in the order of ids |
| CentralServer.CentralServerAdapter.Reconcile | src/yoma/office/central_server.py:331-531 | one reconciliation: a refused record changes nothing; a raising subscriber leaves the state as it was but the published prefix in both logs; otherwise state, tables, flags, both logs and report are as the diff says |
| CentralServer.CentralServerAdapter.Emit | src/yoma/office/central_server.py:299-329 | the event is appended and saved before it is published, so it is kept even when a subscriber raises |
| CentralServer.CentralServerAdapter.EmitChanges | src/yoma/office/central_server.py:357-399 | the first loop publishes the change events up to the first failure and sorts the ids into added, updated and unchanged |
| CentralServer.CentralServerAdapter.EmitRemovals | src/yoma/office/central_server.py:401-410 | the second loop publishes a removal for each known id that did not come |
| CentralServer.CentralServerAdapter.constructor | src/yoma/office/central_server.py:253-281 | a new adapter loads the ordered rows of both kinds and files each list by id, which gives the saved tables back; its log is empty, and it is initialized for a kind exactly when its list has rows |
| CentralServer.OrganizationStore.Save | src/yoma/office/organization_state.py:60-125 | replace-all: the delete-and-insert loop succeeds exactly on distinct ids, and a failure leaves the table as it was |
| CentralServer.OrganizationStore.Load | src/yoma/office/organization_state.py:127-180 | loading gives the rows of one kind in the order of their ids |
| CentralServer.SavedDictIsRestored | src/yoma/office/organization_state.py:60-180 | saving the dict of one kind, as its list in the order of ids, and then loading the ordered rows of both kinds and filing them by id gives both dicts back |
| CentralServer.LoadedRowsRebuild | src/yoma/office/central_server.py:253-281 | from any tables, the ordered rows of users and systems, filed by id, are together the tables again |
| CentralServer.ReportClassifies | src/yoma/office/central_server.py:331-531 | where each id is listed, stated by what was known before and what came, for every snapshot |
| CentralServer.ReportPartitions | src/yoma/office/central_server.py:331-531 | for distinct ids the sizes of added, removed, updated and unchanged add up to the union of old and new ids |
| CentralServer.ReportIsSorted | src/yoma/office/central_server.py:351-430 | the four lists of a report are in the order of ids |
| CentralServer.NormalizedIs | src/yoma/office/central_server.py:331-345 | if no record is refused, the normalized list is the records, one by one |
| CentralServer.SnapshotKeepsAccountIff | src/yoma/office/central_server.py:253-531 | one reconciliation keeps log and state in step exactly when all events are delivered and the snapshot is replayable |
| CentralServer.SnapshotRewinds | src/yoma/office/central_server.py:299-531 | undoing survives even a repeated id, as long as no subscriber raises |
| CentralServer.HistoryReplaysAndRewinds | src/yoma/office/central_server.py:253-531 | over any clean run of snapshots and restarts the whole saved history replays from start to now and rewinds back, the log since the last restart does the same, and the tables hold the current state |
| CentralServer.RestartThenRepeatIsSilent | src/yoma/office/central_server.py:253-297 | after a save and a restart the same snapshot changes nothing and emits nothing |
| CentralServer.EveryEventIsLabelled | src/yoma/office/central_server.py:299-531 | over any run, with raising subscribers and repeated ids, every event in the log and in the saved history is labelled by its own two states |
| CentralServer.RepeatedIdBreaksReplay | src/yoma/office/central_server.py:331-531 | for any two different records under one id: a snapshot of one, then one of both with that one last, leave a history that does not replay to the state |
| AgentRuns.RunTable.constructor | src/yoma/app.py:1236-1256 | a new run awaits approval exactly when its plan needs it; all steps planned, all arguments pending |
| AgentRuns.RunTable.Approve | src/yoma/app.py:1277-1290 | only a run that awaits approval is approved, else nothing changes |
| AgentRuns.RunTable.Cancel | src/yoma/app.py:1292-1306 | a run that is not terminal becomes cancelled and loses its pending arguments |
| AgentRuns.RunTable.Claim | src/yoma/app.py:1388-1406 | the block at the loop head claims one step, or on a cancellation sweeps the planned steps with a loop over the rows |
| AgentRuns.RunTable.Fail | src/yoma/app.py:1357-1367 | the run becomes failed whatever it was before, and so does exactly the step that is named |
| AgentRuns.RunTable.Finish | src/yoma/app.py:1446-1454 | the else branch completes the run unless a cancellation was requested |
| AgentRuns.EveryInterleavingIsSafe | src/yoma/app.py:1236-1456 | in every interleaving with any number of executors: nothing starts before an approval when one is needed; after a cancel no step or execution starts and nothing completes; a step whose stored arguments are incomplete is only called with the full ones; status, flags and log stay consistent |
| AgentRuns.OneExecutorIsOrderly | src/yoma/app.py:1369-1456 | with one executor the steps are a completed prefix, then at most one running or failed step, then untouched or cancelled ones; tools are called for steps 0, 1, 2, ... once each; once the executor is done no step is running, and the run is completed with every step completed, or failed with one failed step or timed out after a completed one, or cancelled with all other steps cancelled |
| AgentRuns.FailureMarksItsStep | src/yoma/app.py:1357-1367 | with any number of executors, one that records a failure turns exactly the step it names into a failed one, none if it names none, and the run becomes failed |
| AgentRuns.RequestsMean | src/yoma/app.py:1277-1381 | when approve, cancel and execute are accepted, and the run after each |
| AgentRuns.HeadOfLoop | src/yoma/app.py:1388-1406 | at the loop head a cancellation comes before the time limit, which comes before the claim; what each does to the steps |
| AgentRuns.BodyOfLoop | src/yoma/app.py:1407-1445 | calling the tool, completing the step and dropping its arguments, outcome by outcome; unavailable arguments fail the step |
| AgentRunRaces.CancelCanFailIff | src/yoma/app.py:1292-1306 | for every plan and every reachable run that is not terminal: after a cancel now some continuation ends failed exactly when some executor is inside a step at this moment; otherwise the run stays cancelled in every continuation |
| AgentRunRaces.CancelledCanTurnFailed | src/yoma/app.py:1357-1367 | a concrete interleaving in which a cancelled run becomes failed |
| AgentRunRaces.TwoExecutorsBreakCompletion | src/yoma/app.py:1369-1381 | for every plan with a step there is an interleaving of two executors that completes the run while its first step is running again |
| AgentRunRaces.OneExecutorIsTheBound | src/yoma/app.py:1369-1456 | completed runs of a plan have every step completed, with up to n executors, exactly when n is at most one or the plan has no step |
| Approval.FirstDecisionStands | src/yoma/office/action_approval.py:104-218 | after any attempts a workflow has at most one record, that of the first acceptable attempt, which fixes its status, and it never leaves its plan |
| Approval.DecideIff | src/yoma/office/action_approval.py:104-218 | when an attempt is refused and with which error, and otherwise the workflow after it: status, and one more record of that plan and reviewer with its own number |
| Policy.Evaluate | src/yoma/office/policy_constraints.py:95-136 | the loop computes the check result that `CheckMeaning` characterises |
| Policy.CheckMeaning | src/yoma/office/policy_constraints.py:95-179 | a plan is blocked exactly when some constraint is not allowed, has a criterion, and each criterion that lists something lists a step's type, the priority, an affected user, an affected system; every constraint is reported once, as failed exactly if it rules the plan out so; both lists are sorted |
| GovernedExecution.ActionExecutionGateway.BeginExecution | src/yoma/office/action_execution.py:119-180 | the checks before the executor and the running record written ahead of it |
| GovernedExecution.ActionExecutionGateway.FinishExecution | src/yoma/office/action_execution.py:182-253 | the innermost call overwrites its record with the outcome, or leaves it running when the exception is not caught |
| GovernedExecution.ActionExecutionGateway.RefuseExecution | src/yoma/office/action_execution.py:125-151 | an unapproved call writes a rejected record under its own key |
| GovernedExecution.ExecutionPolicyEnforcer.Execute | src/yoma/office/execution_policy.py:110-177 | policy first, then the bridge, then the gateway, as `EnforcerAnswers` characterises it |
| GovernedExecution.EnforcerAnswers | src/yoma/office/execution_policy.py:110-177 | the enforcer answers with the first error that has a reason and leaves the gateway as it was; so it is blocked by policy exactly when some constraint rules the plan out; without any reason it enters the executor of the first step, its record written ahead |
| GovernedExecution.AtMostOnceAndAuthorized | src/yoma/office/action_execution.py:153-253 | over any run, with executors that call back into enforcer, bridge or gateway: an executor is entered at most once per action id; through the bridge only for the first step of a plan whose workflow is approved with a recorded decision that has an id; through the enforcer only if no constraint rules the plan out in the sense of `CheckMeaning` |
| GovernedExecution.EnforcedMeansOneApproval | src/yoma/office/approval_execution_bridge.py:79-221 | behind every enforced execution whose workflow the approval engine made there is exactly one decision, an approval of that plan, which no constraint rules out |
| GovernedExecution.RefusalOverwritesIff | src/yoma/office/action_execution.py:125-151 | a refusal rewrites a finished record exactly when that action's id is the refused id with "-REJECTED" appended |
| GovernedExecution.RefusalCanOverwrite | src/yoma/office/action_execution.py:125-151 | for any refused id, a run in which a succeeded record is overwritten by its refusal |
| GovernedExecution.FinishedRecordsStandIff | src/yoma/office/action_execution.py:125-253 | over any run, from any point at which a record is succeeded or failed, it stays the same up to any later point exactly when no refusal in between, with non-empty ids, names the id that "-REJECTED" completes to the action's own |
| GovernedExecution.FinishedRecordsAreFinal | src/yoma/office/action_execution.py:160-253 | the case a caller can see: the record of an action whose id does not end in "-REJECTED" never changes once it is succeeded or failed |
| CentralGovernance.DistributedCentralGovernance.ValidateRequest | src/yoma/office/distributed_central_governance.py:186-219 | exactly the issues that the request has are reported, each once and in the order of the checks; there is only one such list |
| CentralGovernance.DistributedCentralGovernance.SubmitRequest | src/yoma/office/distributed_central_governance.py:221-279 | a request with issues replaces what is stored; a clean one returns an existing result or opens a workflow |
| CentralGovernance.DistributedCentralGovernance.ApproveRequest | src/yoma/office/distributed_central_governance.py:281-340 | the error order of `approve`, and the recorded decision |
| CentralGovernance.DistributedCentralGovernance.RejectOrModify | src/yoma/office/distributed_central_governance.py:342-440 | `reject` and `modify` skip the eligibility check and overwrite the governance status |
| CentralGovernance.EveryRunIsGoverned | src/yoma/office/distributed_central_governance.py:186-440 | in every run requests and results have the same keys; each result carries its stored request's issues and its plan's own workflow, decided at most once; an approved result has no issues; "rejected by governance" stands exactly while issues exist and nobody decided |
| CentralGovernance.OutcomeTellsItsCalls | src/yoma/office/distributed_central_governance.py:221-440 | after any run a request is known exactly if it was submitted; it is the one submitted last with issues, or first if none had any; its outcome carries its data, its issues, and the decision of the first acceptable attempt since then, approvals counting only without issues |
| CentralGovernance.ApprovalSucceedsIff | src/yoma/office/distributed_central_governance.py:281-340 | after any run an approval succeeds exactly for a known, issue-free, undecided request, a non-empty reviewer id and an aware time, although `reject` and `modify` rewrite the status that guards it |
| CentralGovernance.DecisionStandsIff | src/yoma/office/distributed_central_governance.py:221-279 | a recorded decision stays under every call except exactly a submission with issues under the same id |
| CentralGovernance.ApprovalCanBeErased | src/yoma/office/distributed_central_governance.py:221-250 | for any request that passes the checks: submitted, approved, and then followed by a request of any foreign node with the same plan and id, its approval is replaced by a pending workflow and the issue "wrong node" |
| CentralGovernance.CleanResubmissionIsIdle | src/yoma/office/distributed_central_governance.py:252-254 | submitting an issue-free request again changes nothing and returns the stored result |
| MemorySearch.ChainIsOnePass | src/yoma/memory.py:103-104 | the three chained replacements equal a one-pass escape of each special character |
| MemorySearch.BackslashLastIsWrong | src/yoma/memory.py:103-104 | escaping the backslash last would not |
| MemorySearch.PatternMatchesSubstrings | src/yoma/memory.py:103-107 | for every query and text the pattern matches exactly when the query occurs in the text, letter case of ASCII aside |
| MemorySearch.SearchFindsWanted | src/yoma/memory.py:96-109 | a search returns the first rows, up to the limit and one at least, of a list that holds each active memory of the user containing the query as often as the table does, and nothing else, by importance and update time downwards and then by id |
| MemorySearch.SearchRefusesIff | src/yoma/memory.py:97-101 | a search is refused exactly for a query of white space, or one longer than the bound when stripped |
| DocumentSearch.TermsAreWords | src/yoma/document_index.py:142-144 | the terms of a query are non-empty runs of word characters without a per cent sign |
| DocumentSearch.TermsAreRuns | src/yoma/document_index.py:142 | the terms are all the longest runs of word characters, in order: the query is gaps without word characters and terms in turn |
| DocumentSearch.LowerIsRedundant | src/yoma/document_index.py:161-165 | lowering both sides changes no answer of LIKE |
| DocumentSearch.FallbackMatchesInOrder | src/yoma/document_index.py:161-165 | for terms without underscores the fallback finds exactly the texts in which the terms occur one after another in query order |
| DocumentSearch.FallbackExactIff | src/yoma/document_index.py:161-165 | the fallback pattern means that, for every text, exactly when no term has an underscore |
| DocumentSearch.EmptyTextIsNotFound | src/yoma/document_index.py:142-165 | no query finds the empty text |
| DocumentIndex.Connection.UpsertDocument | src/yoma/document_index.py:14-82 | the new contents of all three tables, or no change when another document has the path |
| DocumentIndex.Connection.RecordFailedDocument | src/yoma/document_index.py:85-132 | the same for a failure, whose conflict branch keeps owner and path and ignores a taken path |
| DocumentIndex.Connection.SearchDocuments | src/yoma/document_index.py:141-165 | by either path: no document twice, as many as the bound allows, newest first, none left out that is newer; the hits are stated on the documents alone |
| DocumentIndex.IndexesMirrorDocuments | src/yoma/document_index.py:14-132 | after any run of upserts and failures each index holds exactly one row for each document whose `indexed_at` is set, with its owner, path and text, and no other row |
| DocumentIndex.FullTextRowsAreHits | src/yoma/document_index.py:146-158 | because the tables agree, the joined full-text query finds each hit once and nothing else |
| DocumentIndex.FailedIsNeverFound | src/yoma/document_index.py:141-165 | neither path finds a document whose extraction failed |
| DocumentIndex.LastWriteDecides | src/yoma/document_index.py:14-132 | after any run each index holds, under every id, one row with the text of the last write that was not refused if that was an upsert, and nothing if it was a failure or there was none |
| DocumentIndex.DocumentTellsItsWrites | src/yoma/document_index.py:14-132 | after any run a document is there exactly if a write for it was accepted; created by the first; sizes, times, status, text, parser and index time of the last; owner, root, path and names of the last upsert, or else of the first |
| DocumentIndex.PathsStayUnique | src/yoma/document_index.py:14-132 | after any run no two documents lie on one path of one root of one user |
| DocumentIndex.HitIff | src/yoma/document_index.py:146-165 | a hit is a document of the searching user under an own root, indexed and matched by full text, or holding the terms in order on the fallback path |
| DocumentIndex.BoundIs | src/yoma/document_index.py:145 | the bound is the limit, moved into the range from 1 to 100 |
| CredentialVault.GrowStream | src/yoma/credential_vault.py:47-56 | the loop yields whole 32-byte blocks covering the data, and fails exactly beyond the eight-byte counter |
| CredentialVault.CryptBlocks | src/yoma/credential_vault.py:47-61 | the loop and the zip compute the byte-wise cipher: byte i with byte i mod 32 of block i div 32 |
| CredentialVault.CryptInvertsItself | src/yoma/credential_vault.py:47-61 | the cipher is its own inverse at every length |
| CredentialVault.CipherByte | src/yoma/credential_vault.py:44-61 | byte i is combined with byte i mod 32 of the hash of the key and the eight bytes of i div 32 |
| CredentialVault.BigEndianIsNumber | src/yoma/credential_vault.py:50-52 | those bytes have their width and stand for the counter, so no two counters share them |
| CredentialVault.OpenIff | src/yoma/credential_vault.py:130-164 | any well-formed entry, tampered with or not: integrity is lost exactly if the tag is not that of nonce and ciphertext under the key derived from this nonce; otherwise the decrypted bytes decide |
| CredentialVault.MalformedIff | src/yoma/credential_vault.py:138-143 | an entry is malformed exactly if one of its three fields does not decode |
| CredentialVault.SealIs | src/yoma/credential_vault.py:103-126 | sealing writes nonce, ciphertext and tag in base64, under the key derived from that nonce |
| Base64.DecodeInvertsEncode | src/yoma/credential_vault.py:121-141 | decoding what was encoded gives the bytes back, for every byte string |
| Base64.EncodeIsGrouped | src/yoma/credential_vault.py:123-125 | the k-th four characters carry the bits of the k-th three bytes in order, missing bytes as zero bits and padding, as in section 4 of RFC 4648 |
| Base64.AlphabetIs | src/yoma/credential_vault.py:123-125 | the symbols are the alphabet of table 1 of RFC 4648 |
| Base64.DecodesIff | src/yoma/credential_vault.py:138-141 | decoded are exactly groups of four symbols of which the last may end in one or two pads |
| CredentialVault.OpenInvertsSeal | src/yoma/credential_vault.py:103-164 | a sealed value opens again, whatever the nonce, hash and tag function |
| CredentialVault.CredentialVault.Store | src/yoma/credential_vault.py:92-128 | the refusals of `store` and the document after it |
| CredentialVault.CredentialVault.Delete | src/yoma/credential_vault.py:170-178 | the entry goes; an unknown id is refused and changes nothing |
| CredentialVault.RetrieveReturnsLastStored | src/yoma/credential_vault.py:92-178 | after any run of stores and deletes every id retrieves what was last stored under it, or is not found |
| CloudSync.CloudSyncManager.Enqueue | src/yoma/office/cloud_sync.py:174-182 | the first record under an idempotency key stays and is what every later call returns |
| CloudSync.CloudSyncManager.Prepare | src/yoma/office/cloud_sync.py:276-304 | an invalid payload is refused without a change; a known event returns its queued record |
| CloudSync.CloudSyncManager.Acknowledge | src/yoma/office/cloud_sync.py:194-207 | one more attempt and no error on a known key, otherwise no change |
| CloudSync.CloudSyncManager.Fail | src/yoma/office/cloud_sync.py:209-229 | one more attempt and the reason on a known key; a blank reason is refused first |
| CloudSync.QueueStaysKeyed | src/yoma/office/cloud_sync.py:136-229 | preparing and settling keep every record filed under its own key, which is its sync id; the identities may differ from record to record, as when managers share the queue |
| CloudSync.EnqueueKeepsKeyedIff | src/yoma/office/cloud_sync.py:174-182 | a record put into the queue by hand keeps this exactly when its sync id is its key or the key is taken |
| CloudSync.OneRecordPerEvent | src/yoma/office/cloud_sync.py:174-182 | a keyed queue, shared or not, holds at most one record for each node and event id |
| CloudSync.RecordTellsItsHistory | src/yoma/office/cloud_sync.py:136-304 | over any run of all calls from the empty queue a key is queued exactly if some call offered a record under it; the record is the first one offered, with one more attempt for each settlement since, and the state and error of the last |
| CloudSync.DifferentEventsDifferentTexts | src/yoma/office/cloud_sync.py:135-141 | two events of one node never share the text that is hashed into their key |
| OfflineSync.OfflineConnectivityManager.PrepareCloudSync | src/yoma/office/offline_connectivity.py:252-272 | queue and buffer after a preparation |
| OfflineSync.OfflineConnectivityManager.AcknowledgeCloudSync | src/yoma/office/offline_connectivity.py:274-294 | the queue is settled even when the buffer then refuses the key |
| OfflineSync.OfflineConnectivityManager.FailCloudSync | src/yoma/office/offline_connectivity.py:296-319 | likewise for a failure |
| OfflineSync.OfflineConnectivityManager.ClearFailedRecords | src/yoma/office/offline_connectivity.py:233-250 | the loop resets exactly the failed records and returns how many there were |
| OfflineSync.OfflineConnectivityManager.Buffer | src/yoma/office/offline_connectivity.py:108-122 | the first record under a sync id stays in the buffer |
| OfflineSync.OfflineConnectivityManager.MarkLocalSynced | src/yoma/office/offline_connectivity.py:194-207 | the buffer alone records one more attempt; an unknown key is refused |
| OfflineSync.OfflineConnectivityManager.MarkLocalFailed | src/yoma/office/offline_connectivity.py:209-231 | likewise for a failure, a blank reason being refused first |
| OfflineSync.QueueSide | src/yoma/office/offline_connectivity.py:252-319 | every action changes the queue as the sync manager would on its own, or not at all |
| OfflineSync.BufferSide | src/yoma/office/offline_connectivity.py:108-319 | the buffer settles like a queue, if the queue knows the key first; what it takes in, and when it stays as it is |
| OfflineSync.BufferMirrorsQueue | src/yoma/office/offline_connectivity.py:108-319 | over runs of every call on the manager and of calls that go past it: throughout the run each buffered key is queued with the same payload and attempts and the same state, except that a cleared one is pending locally and failed in the queue, exactly when each call meets its condition (see `MirrorKeptIff`) at the moment it is made; nothing is demanded of records that are queued only |
| OfflineSync.MirrorKeptIff | src/yoma/office/offline_connectivity.py:108-319 | the condition for each call: settlements through the manager, clearing, and any direct preparation or enqueue always keep the mirror; a settlement of one side alone exactly if the key is not buffered (or its blank reason is refused); a record queued locally exactly if its sync id is buffered already or the queue has its like under that sync id; a preparation likewise for the record that it gets back |
| OfflineSync.KeyedPreparationIsHarmless | src/yoma/office/offline_connectivity.py:252-272 | where every queued record is filed under its sync id, a preparation always keeps the mirror |
| OfflineSync.KeyedKeptIff | src/yoma/office/offline_connectivity.py:108-319 | every call but one leaves such a queue so: the exception is exactly a direct enqueue, under a free key, of a record with another sync id |
| OfflineSync.OneSidedSettlementBreaks | src/yoma/office/offline_connectivity.py:194-207 | for every valid payload: prepared and then settled in the buffer alone, or in the queue alone, the two sides differ in their attempts |
| OfflineSync.MisfiledRecordBreaks | src/yoma/office/offline_connectivity.py:252-272 | for every valid payload: its record filed by hand with another sync id, and then its preparation, leave a buffered record whose id the queue does not have |
| EventCollection.DistributedEventCollector.Collect | src/yoma/office/distributed_event_collection.py:125-198 | the sorting and collecting loops compute the batch of the specification, also when a preparation raises half-way |
| EventCollection.CollectedAddsUp | src/yoma/office/distributed_event_collection.py:125-198 | received equals accepted plus duplicates plus rejected, and a batch is sorted by time and id |
| EventCollection.CollectMeans | src/yoma/office/distributed_event_collection.py:125-198 | what a collection returns, from its items and the state before: the counts; envelopes numbered on, in order of time and id, one for each new id and with its earliest event; for each of them the queued record, new with the fields of the event unless one was there |
| EventCollection.NumberingIsGapless | src/yoma/office/distributed_event_collection.py:125-201 | over any run of collections and resets the envelopes that were made are numbered 0, 1, 2, ...; all of them were returned exactly when no call raised; no id is numbered twice between resets; the queue keeps this node's records under their own keys, one for each event id, even across resets |
| EventCollection.RaisesIff | src/yoma/office/distributed_event_collection.py:162-198 | a batch raises exactly when one of its sorted events is new, the first with its id there, and has a payload that cannot be prepared |
| EventCollection.ReturnedGaplessIff | src/yoma/office/distributed_event_collection.py:125-201 | over any run the returned envelopes are numbered 0, 1, 2, ... exactly when no collection that meets a new event and nothing unsendable comes after one that met an unsendable event, stated on events and ids alone |
| EventCollection.RaiseLeavesGap | src/yoma/office/distributed_event_collection.py:172-182 | for any unsendable event and any good one with another id, collected one after the other from the start: the first envelope a caller gets is number 1 |
| EventCollection.ConsumedIsLost | src/yoma/office/distributed_event_collection.py:165-182 | after any run, the id of an event that a call raises on, never numbered before and its key not shared, is lost whatever is collected before the next reset: no envelope with it is returned and nothing is queued for it |
| EventCollection.QueueOnlyGrows | src/yoma/office/distributed_event_collection.py:125-198 | a queued record is never replaced, and every returned envelope's event has one |
| IdentityMapping.IdentityMappingPersistence.Save | src/yoma/office/identity_mapping.py:171-204 | blank parts are refused in order; an id that another identity has is refused; otherwise the row is written |
| IdentityMapping.IdentityMappingPersistence.GetExternalIdentity | src/yoma/office/identity_mapping.py:225-245 | the scan finds a row with the id, or there is none |
| IdentityMapping.KeyOfIff | src/yoma/office/identity_mapping.py:20-30 | a blank provider is refused first, then a blank external id; otherwise the identity is the two texts without the white space at their ends |
| IdentityMapping.IdentityMapper.LookUp | src/yoma/office/identity_mapping.py:32-49 | the first part of `map`, and all of `get_internal_id`: the cache, then one read of the table, a hit being remembered |
| IdentityMapping.IdentityMapper.MapIdentity | src/yoma/office/identity_mapping.py:20-66 | answer, table and caches after a `map` whose three parts follow each other; an id that another identity has is refused after the caches were filled |
| IdentityMapping.IdentityMapper.GetInternalId | src/yoma/office/identity_mapping.py:68-105 | answer and caches after a lookup |
| IdentityMapping.IdentityMapper.GetExternalIdentity | src/yoma/office/identity_mapping.py:107-137 | answer and caches after a reverse lookup |
| IdentityMapping.LookUpMeans | src/yoma/office/identity_mapping.py:32-49 | a look-up answers from the cache first, then from the table and remembers that; otherwise the call of `map` is in flight |
| IdentityMapping.FillAndSaveMean | src/yoma/office/identity_mapping.py:51-66 | filling puts the id into both caches; saving writes the row and answers, unless another identity has the id |
| IdentityMapping.AllIdsAreIssued | src/yoma/office/identity_mapping.py:20-137 | in every run of any number of instances over one table, where the look-up, the filling of the caches and the save of a `map` are separate steps and any calls interleave: every id in the table, in a cache or in flight was given out for that identity |
| IdentityMapping.CachesAgreeIff | src/yoma/office/identity_mapping.py:20-137 | at the end of any such run that leaves no id unsaved, every cache is a sub-map of the table exactly when no call filled late, that is gave a new id to an identity that had one by then |
| IdentityMapping.DifferentIdentitiesDifferentIds | src/yoma/office/identity_mapping.py:20-105 | in every such run, overlapping calls included, different identities are answered with different ids |
| IdentityMapping.OneIdIff | src/yoma/office/identity_mapping.py:51-57 | over any such run every identity is given one id exactly when no call filled late |
| IdentityMapping.MapIsStable | src/yoma/office/identity_mapping.py:20-105 | at every point of a run without a late fill, all answers of `map` and `get_internal_id` for one identity, from whatever instances, are the same id |
| IdentityMapping.MapIsStableIff | src/yoma/office/identity_mapping.py:20-105 | and over runs that leave no id unsaved, exactly then |
| IdentityMapping.TableCompleteIff | src/yoma/office/identity_mapping.py:59-64 | at the end of a run that leaves no id unsaved, the table holds every id that was given out exactly when no call filled late |
| IdentityMapping.LookupsInvertMap | src/yoma/office/identity_mapping.py:68-137 | at every point of a run without a late fill, in every instance, the two lookups are inverse to each other and give only ids that were given out for that identity |
| IdentityMapping.NothingFoundIff | src/yoma/office/identity_mapping.py:68-105 | when no id is unsaved, late fills or not, a lookup finds nothing exactly for an identity that was never given an id |
| IdentityMapping.NoOverlapIsEnough | src/yoma/office/identity_mapping.py:20-66 | if no first `map` of an identity begins while another of it is in flight, answers are stable and identities have one id; once no id is unsaved, caches agree and the table is complete |
| IdentityMapping.OverlapSplits | src/yoma/office/identity_mapping.py:37-64 | from any reachable point where two calls for one identity are in flight, one of them without an id yet and the other with or without one, finishing both, with no further overlap, gives the identity two answers |
| IdentityMapping.LookUpCanSplitIff | src/yoma/office/identity_mapping.py:37-64 | after any run without overlap, a look-up that finds nothing can be followed, without another overlap, by two different answers for some identity exactly when a call for its own identity is in flight at that moment |
| IdentityMapping.TwoInstancesSplit | src/yoma/office/identity_mapping.py:37-64 | for every identity, a run of two instances from an empty table that ends with two answers, and with the lost id in the first cache |
| Situations.GroupByScope | src/yoma/office/baseline_trend.py:115-133 | the loop files each situation under its scope, in order, with scopes in the order of their first situation |
| Situations.SortedGroups | src/yoma/office/historical_pattern.py:85-128 | the opening common to both detectors yields the scopes in sorted order, each with its history |
| Situations.GroupsHoldEverything | src/yoma/office/baseline_trend.py:125-133 | the group sizes add up to the number of situations |
| Situations.HistoryHoldsScope | src/yoma/office/baseline_trend.py:108-151 | a history is sorted by time and id and holds exactly the given situations of its scope, however they were listed |
| Situations.GroupIsHistory | src/yoma/office/baseline_trend.py:115-151 | each group is the history of its scope, which some situation has |
| Situations.ScopeHasGroup | src/yoma/office/baseline_trend.py:115-151 | every situation's scope has a group |
| Situations.GroupsInOrder | src/yoma/office/baseline_trend.py:135-138 | no scope has two groups, and they come in the order of their four texts |
| HistoricalTrends.AnalyzeGroup | src/yoma/office/baseline_trend.py:213-368 | the interval loop and the arithmetic compute the trend of the specification |
| HistoricalTrends.Analyze | src/yoma/office/baseline_trend.py:90-151 | the trends of all groups, in order |
| HistoricalTrends.Detect | src/yoma/office/historical_pattern.py:70-180 | the patterns of all groups with two members or more, in order |
| HistoricalTrends.DetectorsAgree | src/yoma/office/historical_pattern.py:85-180 | the patterns are one by one the trends with at least two occurrences: same scope, count, ends, situations, and an average interval of (last - first) / (n - 1) |
| HistoricalTrends.IntervalsTelescope | src/yoma/office/historical_pattern.py:130-139 | the n - 1 intervals of a group sum to last minus first |
| HistoricalTrends.TrendCounts | src/yoma/office/baseline_trend.py:228-272 | a trend's counts are the numbers of situations in the two windows, both ends of the recent one included, and its ids those of the group |
| HistoricalTrends.TrendRates | src/yoma/office/baseline_trend.py:236-305 | each rate times its time in days is its count; days are the observed time or the window, whichever is longer; change and deviation follow |
| HistoricalTrends.PatternMeans | src/yoma/office/historical_pattern.py:130-180 | a pattern has its group's count, ends, gaps and ids |
| HistoricalTrends.TrendsFollowGroups | src/yoma/office/baseline_trend.py:135-151 | one trend for each group, in order |
| HistoricalTrends.WindowsPartition | src/yoma/office/baseline_trend.py:252-272 | no situation is counted in both windows, the two counts are that of the double window, and the recent one is never empty |
| HistoricalTrends.DirectionFollowsCounts | src/yoma/office/baseline_trend.py:274-323 | direction and ratio depend on the two counts and the stable band only, not on the window's length; exact conditions for increasing, decreasing and an infinite ratio |
| HistoricalTrends.ShortHistoryDoesNotDeviate | src/yoma/office/baseline_trend.py:236-305 | a history no longer than one window lies in the recent window and deviates by zero |
| DecisionContext.ContextSpeaksOfItsGroup | src/yoma/office/historical_decision_context.py:98-257 | built from what the detectors report on the same situations, a context carries the pattern and trend of its own scope's history, or the defaults exactly when that is too short |
| DecisionContext.ContextCountsItsGroup | src/yoma/office/historical_decision_context.py:107-182 | count, situation ids, "unknown" and average interval of such a context, stated by the history alone |
| DecisionContext.ContextMeans | src/yoma/office/historical_decision_context.py:107-182 | each number of the trend in its own place of the context, or the defaults |
| DecisionContext.BuildPicksGreatest | src/yoma/office/historical_decision_context.py:193-257 | from any patterns and trends the builder takes the greatest of its scope, by count, last occurrence, and id or scope, and none exactly if there is none |
| Reliability.ExecutionReliabilityIntelligenceEngine.Analyze | src/yoma/office/execution_reliability.py:242-395 | the filtering and counting loops yield the metrics of the selected outcomes, stored under the scope's key; an empty type changes nothing |
| Reliability.SelectType | src/yoma/office/execution_reliability.py:250-258 | the filtering loop keeps the outcomes of the type, in order |
| Reliability.SelectionIsOfType | src/yoma/office/execution_reliability.py:250-258 | the selection holds each outcome of the type as often as it was given, and no other |
| Reliability.CountStatus | src/yoma/office/execution_reliability.py:264-283 | the counting loop computes the count of a status |
| Reliability.CountIsCardinality | src/yoma/office/execution_reliability.py:264-283 | that count is the number of places that hold the status |
| Reliability.CountsAddUp | src/yoma/office/execution_reliability.py:264-303 | the five status counts sum to the total, and the reviews to what was not achieved |
| Reliability.RatesSumToEvidence | src/yoma/office/execution_reliability.py:287-298 | the unrounded rates sum to the evidence quality, which with the insufficient part makes one; all are zero without outcomes |
| Reliability.RatesMean | src/yoma/office/execution_reliability.py:285-303 | each rate times the total is its own count |
| Reliability.CountsMean | src/yoma/office/execution_reliability.py:264-303 | each count is the number of outcomes of its own status, and every outcome not achieved asks for a review |
| Reliability.LevelIff | src/yoma/office/execution_reliability.py:177-212 | the exact condition of each grade, in whole numbers |
| Reliability.SelectionKeepsOrder | src/yoma/office/execution_reliability.py:250-258 | the selection keeps the order of the outcomes |
| Reliability.AchievementNeverLowers | src/yoma/office/execution_reliability.py:177-212 | adding an achieved outcome anywhere in a non-empty list never lowers the grade |
| Reliability.ImprovementNeverLowers | src/yoma/office/execution_reliability.py:177-212 | turning any outcome into an achieved one never lowers the grade |
| Reliability.ScopesCollideIff | src/yoma/office/execution_reliability.py:348-394 | two scopes share a key exactly when one is all actions and the other a type named ALL |
| Sorting.LexLeIff | src/yoma/office/dependency_aware_execution.py:160-174 | the order of ids in all sorted lists: equal, or decided at the first place where the texts differ |
| Text.StripMeans | src/yoma/memory.py:99 | stripping takes white space off both ends, all of it and nothing else |
| Text.BlankIff | src/yoma/memory.py:97 | a text is blank exactly when it is white space only |
| Text.FoldIff | src/yoma/memory.py:106 | two characters compare equal in LIKE exactly when they are equal, or one ASCII letter in two cases |

## Left out

- HTTP routing, authentication, database locking, file input and output, and the wall clock: transactions are atomic steps, times are parameters.
- SHA-256, HMAC and JSON internals: parameters; JSON is assumed to read back what it wrote, hashes to have 32 bytes. Injectivity of hashes is not needed.
- Type checks by `isinstance`, id-prefix checks, and the constants `requires_human_approval` and `executable` that constructors insist on.
- The constructor of a plan refuses empty ids and a false approval flag (src/yoma/office/action_planning.py:68-73), so the governance issues for a missing plan id, a missing decision id and approval not required, which the checks and the model have, never arise from plans built normally.
- Lookup, listing, status and explanation members that only read: `get`, `status`, `order_many`, `exists`, evidence texts, recommendations, confidence.
- The event buses' subscription filters: a subscriber is only whether it raises on an event.
- The normalization of raw user and system records: a record is normalized or refused. Users and systems are kinds in one state; a change notice for one never touches the other.
- Adapters without their optional stores (`persistence=None`, no event store): both stores are taken to be present.
- The transaction and rollback engine behind `schedule`: not part of this model. `clear` on the engines is not modelled.
- `analyze` on repeated action ids, which the constructor of the plan refuses: blocked ids are listed once each here.
- Result caches by plan id are modelled, so a changed plan under an old id gets the old answer; nothing is claimed about such plans beyond that.
- The body of `execute_tool` and its authorization: a tool call proceeds or raises. Clearing the pending arguments counts as part of the transaction beside it.
- Executors of the gateway are foreign code: any sequence of calls and returns is allowed in between.
- Non-ASCII white space in `strip`, non-ASCII letters in `lower`, embedded NUL characters, and SQLite's pattern length limit.
- Full-text MATCH is any predicate on terms and text; a table created after documents exist is not modelled. Foreign keys are taken to hold.
- Lenient base64 decoding of malformed text: only well-formed entries decode, anything else is an error.
- Float rounding: rates and averages are exact, `timedelta(days=...)` is an exact number of microseconds, the six-digit rounding of stored rates is not applied.
- Signal combinations of patterns.
- Sync payload contents beyond what validation looks at, and connectivity states, which change no record.
- CentralGovernance.DistributedCentralGovernance.SubmitRequest: does not model the metadata dictionaries.
