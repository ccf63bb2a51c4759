# Verified model of the Jarvis control plane

Jarvis runs missions through durable, transactional steps over shared rows: a manager model
proposes work items, a service dispatches and reconciles them, a ledger reserves the most any
action could cost before it starts, and workers may crash, stall or race between any two
transactions. This project models those steps as they are written and proves what they keep
over every run. Run `dafny verify dfyconfig.toml` from this directory.

Each transaction is one atomic step on a state of maps, sets and sequences. A crash, another
writer or the passing of time may fall between any two steps. Code that updates rows in place
is also written as a class whose methods change fields in loops; each method is proved to end
in exactly the state the step function names, and the laws are proved about the step functions.
The `...Effects` modules say once more, without those functions, what a step does and when it
does it: with a guard, a value or a field of a step exchanged they no longer hold.

| file | what it models |
|---|---|
| `Graphs.dfy` | paths, cycles and topological listings of a finite edge set |
| `Decisions.dfy` | the check of one manager response, with its depth-first search for cycles |
| `Backlog.dfy` | one mission's items, dependencies, runs, launches, wakeups and turns, and every step that writes them |
| `BacklogSafety.dfy`, `BacklogTheorems.dfy` | the invariant of all interleavings; run ids; dependency safety |
| `BacklogWakeups.dfy` | one wakeup per finished run |
| `BacklogProgress.dfy`, `BacklogSchedules.dfy` | why work never gets stuck, and that every schedule finishes it |
| `BacklogLaunches.dfy`, `BacklogCancellation.dfy` | exactly when a three-part launch breaks those laws, and how `cancelled` is left |
| `ApplyEffects.dfy`, `DispatchEffects.dfy`, `ReconcileEffects.dfy`, `LaunchEffects.dfy`, `OwnerEffects.dfy` | what each transaction does to which row and when, in terms of the rows alone |
| `MissionStore.dfy` | the backlog transactions row by row |
| `Commands.dfy` | the owner's commands: expected version and idempotency key |
| `Ledger.dfy`, `LedgerStore.dfy` | the maximum-liability ledger: step functions, and the same in loops over rows and fields |
| `LedgerBounds.dfy`, `LedgerLaws.dfy`, `LedgerReplays.dfy`, `LedgerUsage.dfy`, `LedgerEffects.dfy` | bounds, closed forms, repeats, the usage view, and when exactly a scope admits |
| `LedgerRuns.dfy` | runs from the empty ledger that reach what the laws allow |
| `JobCharges.dfy`, `JobRuns.dfy` | backlog and ledger in joint transactions: exactly when a started item is charged in full |
| `Turns.dfy`, `TurnStore.dfy` | one management turn under a lease, its started record, call and receipt |
| `TurnSafety.dfy`, `TurnLiability.dfy`, `TurnLeases.dfy` | one call, full liability while in doubt, one owner in time |
| `TurnEffects.dfy` | each step of a turn exactly, and how long a failed one is put off |
| `Layout.dfy` | the depth-first run layout |
| `DepthGuard.dfy` | the JSON nesting guard and the bounded body |
| `Usage.dfy`, `UsageEffects.dfy` | usage aggregated from started and result records, and what each record adds to it |
| `Alerts.dfy` | the alert ledger |
| `LegacyGraph.dfy` | the legacy develop, verify and review graph |
| `Publication.dfy` | the triggers that freeze published workflows |

## Where the code does less than it seems to

The code is modelled as it is. These plausible claims are false of it; each has a lemma that
says exactly when it holds, or a run that breaks it.

- Dependency safety and truthful wakeups need the three transactions of `start_item` to finish
  while the item is still ready or started: `FinishDepSafeExactly`, `FinishWakeInvExactly`,
  `EarlyStartIsReachable`, `ReopeningIsReachable`.
- `cancelled` does not last: an answer in flight, a failed turn, a run awaiting approval or a
  worker still waiting for a slot undoes it: `CancelledIsLeftExactly`, `CancelledIsRevived`,
  `WorkerRevivesCancelled`.
- Starting an item reserves its job, but a started item need not be charged: the release after
  a refused enqueue hits the rows of whoever started the item, or of whoever starts it later:
  `StartedIsChargedExactly`, `ReleasedUnderAnother`, `StartedAfterRelease`.
- The comment on `reserve` promises all three scopes at once. A denial caught inside the
  transaction commits the rows of the scopes before it: `CaughtDenialIsCleanExactly`,
  `DenialLeavesSharedRow`.
- A released row is not charged again when its action is reserved again, yet it can still be
  reconciled: `AdmittedIsChargedExactly`, `ReleasedChangesExactly`, `ReleasedRowIsSettled`.
- After a team revision a settlement no longer reaches the row of the old team:
  `SettlementReachesExactly`, `DesertedTeamIsStranded`, `TeamRowIsStranded`.
- A failed turn can be applied later unless workers keep to their time: `TerminalChangesExactly`,
  `FailedTurnIsApplied`.
- A turn can be attempted more often than configured, by taking over a lapsed lease when no
  attempt is left: `StepAttemptsExactly`, `AttemptsAreBoundedExactly`, `ClaimsAreUnbounded`.
- A repeated team update never gets its stored answer: `StoredResponseIsUsedExactly`.
- Aggregation depends on the order of records when two different ones tie at the top of a call:
  `OrderFreeExactly`, `TiesAreDecidedByOrder`.
- A draft pointer can go stale: `DraftPointerBreaksExactly`, `DraftIsPublishedUnderPointer`.

## Model

| member | source | states |
|---|---|---|
| `Decisions.CycleSearch.Visit` | packages/contracts/src/jarvis_contracts/missions.py:188-197 | the visit keeps a topological listing of what it has finished, and reports failure only for a graph that has a cycle |
| `Decisions.BoundedAction` | packages/contracts/src/jarvis_contracts/missions.py:167-202 | a response is accepted exactly if its lifecycle is permitted, its action and lifecycle agree, its keys are distinct, its dependencies stay inside it and are acyclic; otherwise the first broken rule is named |
| `Decisions.KeyCount` | packages/contracts/src/jarvis_contracts/missions.py:180-182 | comparing the number of keys with the number of items detects exactly the duplicates |
| `Graphs.ReplanKeepsAcyclic` | orchestrator/app/jarvis_orchestrator/missions.py:557-583 | replacing the outgoing edges of a set of nodes by acyclic edges inside that set keeps the whole graph acyclic |
| `Decisions.FaultsExactly` | packages/contracts/src/jarvis_contracts/missions.py:158-202 | which rule is named when, and that a response passes exactly if its lifecycle is not reserved, its action fits its items and lifecycle, no key repeats, no dependency leaves it and none is circular |
| `BacklogSafety.ReplanAcyclic` | orchestrator/app/jarvis_orchestrator/missions.py:541-583 | applying a validated response keeps the whole backlog graph acyclic |
| `BacklogSafety.ReconcileFrame` | orchestrator/app/jarvis_orchestrator/missions.py:1116-1254 | what a reconciliation does to each row and that it touches no dependency, run, job, launch, turn or existing wakeup |
| `BacklogSafety.StepInv` | orchestrator/app/jarvis_orchestrator/missions.py:465-1254 | every step of every writer keeps the keys valid, the graph acyclic, one run per item and one job per item |
| `BacklogTheorems.EveryRunKeepsInv` | orchestrator/app/jarvis_orchestrator/missions.py:519-583 | in every reachable state, whatever the interleaving, the backlog graph is acyclic and the run and job discipline holds |
| `ApplyEffects.TakesEffectExactly` | orchestrator/app/jarvis_orchestrator/missions.py:477-575 | an open turn goes stale exactly when the directive, the team or its finished run has moved on; it takes effect exactly when besides every row it names may be planned, new rows are paid for and no dependency repeats; otherwise nothing is written |
| `ApplyEffects.ProposalIsWritten` | orchestrator/app/jarvis_orchestrator/missions.py:541-569 | every proposal of a response that takes effect is stored with its own content and priority under the directive, team and wakeup of the turn, ready exactly without dependencies; a row that was there keeps its run and event and gets the next version |
| `ApplyEffects.OnlyProposalsAreWritten` | orchestrator/app/jarvis_orchestrator/missions.py:541-583 | no other row changes, and an item waits for exactly the dependencies of its latest proposal |
| `ApplyEffects.TurnIsClosed` | orchestrator/app/jarvis_orchestrator/missions.py:600-677 | the mission takes the label of the response and a new version, the wakeup is committed, and a deadline is kept once under the present directive and team |
| `ApplyEffects.StaleTurnIsMarked` | orchestrator/app/jarvis_orchestrator/missions.py:493-518 | a stale turn and its wakeup are marked and nothing else changes |
| `ApplyEffects.ProposedWorkCanStart` | orchestrator/app/jarvis_orchestrator/missions.py:541-569 | in an autonomous mission left active or idle with room for one more, the next dispatch of a proposal without dependencies starts it |
| `DispatchEffects.StartsExactly` | orchestrator/app/jarvis_orchestrator/missions.py:910-1114 | a dispatch starts an item exactly if it is ready under the present directive of a served autonomous mission, nothing refuses it and fewer items are at work than the limit; it starts on its derived run |
| `DispatchEffects.RefusalsAreLabelled` | orchestrator/app/jarvis_orchestrator/missions.py:940-1018 | a dispatch that starts nothing changes at most the label: blocked by a missing team, a budget or a workflow, waiting for capacity at the limit, idle if every row is held |
| `DispatchEffects.RefusedIsLeftAlone` | orchestrator/app/jarvis_orchestrator/missions.py:1001-1017 | after such a refusal the mission is blocked with its items and runs as they were, and no run of dispatches changes anything any more |
| `DispatchEffects.CapacityIsTemporary` | orchestrator/app/jarvis_orchestrator/missions.py:980-983 | at capacity the mission is still served: with room again the next dispatch starts the item |
| `DispatchEffects.DispatchesStayUnderCap` | orchestrator/app/jarvis_orchestrator/missions.py:962-983 | over every run of dispatches the items at work stay within the limit, or do not grow in number |
| `ReconcileEffects.RunDecides` | orchestrator/app/jarvis_orchestrator/missions.py:1140-1159 | a started item becomes accepted, blocked or cancelled exactly as its run completed, failed or was blocked, or was cancelled, and stays as it is while the run goes on |
| `ReconcileEffects.PendingIsUnlockedExactly` | orchestrator/app/jarvis_orchestrator/missions.py:1177-1199 | any other row changes exactly if it is pending and all it depends on is accepted or has a completed run, and then it becomes ready |
| `ReconcileEffects.MissionIsLabelled` | orchestrator/app/jarvis_orchestrator/missions.py:1116-1139 | the label is what the last running row says: waiting if it awaits approval, active if a wait was seen before it, unchanged otherwise; and cancelled if the mission was being cancelled and a run has ended |
| `ReconcileEffects.EventsAreCounted` | orchestrator/app/jarvis_orchestrator/missions.py:1200-1215 | each ended row is left with the cursor of its own event, in the order in which the rows were read, and there is one event for each row that changed |
| `ReconcileEffects.WakeupsAreWritten` | orchestrator/app/jarvis_orchestrator/missions.py:1216-1254 | exactly the ended runs of an autonomous mission that is not paused, over or on its way out wake the manager, under the directive and team of the moment, about the item, its run and its event |
| `OwnerEffects.MessageOpensTurn` | api/app/jarvis_api/missions.py:845-905 | a message opens one turn under the directive and team of the moment, unless the mission is over |
| `OwnerEffects.WakeupBecomesTurnExactly` | orchestrator/app/jarvis_orchestrator/missions.py:763-840 | a pending wakeup of a mission that may act is dropped if the directive or team has moved, waits while a turn is open, and otherwise becomes the one open turn |
| `OwnerEffects.FailureIsRecorded` | orchestrator/app/jarvis_orchestrator/missions.py:743-761 | a turn that fails for good takes its wakeup with it and blocks the mission exactly if a budget failed |
| `OwnerEffects.RevisionStopsTheOldPlan` | api/app/jarvis_api/missions.py:718-719 | after a revised directive no dispatch starts an item planned before it, and an open turn goes stale |
| `BacklogTheorems.RunIdWrittenOnce` | api/app/jarvis_api/missions.py:1200-1294 | a work item's run id is written once and never changed by any interleaving of apply, dispatch, reconcile and the three launch transactions |
| `BacklogTheorems.UninterruptedLaunch` | api/app/jarvis_api/missions.py:1191-1295 | a launch whose three transactions follow each other directly finishes while its item is ready or started |
| `BacklogTheorems.TimelyRunsAreDepSafe` | orchestrator/app/jarvis_orchestrator/missions.py:941-951 | with launches that finish in time, every item past pending has all its dependencies accepted, although dispatch never reads them |
| `BacklogTheorems.ReconcileDepSafe` | orchestrator/app/jarvis_orchestrator/missions.py:1183-1199 | unlocking pending items keeps dependency safety and leaves terminal rows alone |
| `BacklogTheorems.CommitDepSafe` | orchestrator/app/jarvis_orchestrator/missions.py:541-583 | applying a response keeps dependency safety and never touches a terminal row |
| `BacklogTheorems.TerminalIsAbsorbing` | orchestrator/app/jarvis_orchestrator/missions.py:547-548 | along such runs accepted, blocked and cancelled items keep their state, run and event cursor for good |
| `BacklogWakeups.ReconcileWakesOnce` | orchestrator/app/jarvis_orchestrator/missions.py:1214-1249 | an item that turns terminal under a running autonomous mission has exactly one wakeup for its run afterwards |
| `BacklogWakeups.WokenOnceForEver` | orchestrator/app/jarvis_orchestrator/missions.py:1226-1249 | and keeps exactly that one over the rest of the run |
| `BacklogWakeups.OneWakeupPerRun` | orchestrator/app/jarvis_orchestrator/missions.py:1226-1233 | two wakeups about the same run are the same wakeup |
| `BacklogWakeups.TimelyRunsKeepWakeInv` | orchestrator/app/jarvis_orchestrator/missions.py:478-491 | every wakeup about a finished run agrees with its item's state, run and cursor in every state of such runs |
| `BacklogWakeups.StaleOnlyByRevision` | orchestrator/app/jarvis_orchestrator/missions.py:477-518 | applying a decision goes stale exactly when the directive or team was revised; the target, source and cursor check never rejects |
| `BacklogProgress.SomethingCanMove` | orchestrator/app/jarvis_orchestrator/missions.py:1177-1199 | with nothing blocked or cancelled and something unaccepted, a reconciliation leaves some item ready or started |
| `BacklogProgress.CompletedWorkIsAccepted` | orchestrator/app/jarvis_orchestrator/missions.py:1140-1199 | if every dispatched run completed, a reconciliation accepts all started items, so the number of unaccepted items drops |
| `BacklogSchedules.EveryScheduleFinishes` | orchestrator/app/jarvis_orchestrator/missions.py:99-103 | every schedule of reconciliations, dispatches, completing runs and workers' slot labels, with any idle steps between them, accepts everything: at most four steps per unaccepted item get something done, as many as that leave nothing, and until then some step can |
| `BacklogSchedules.EverythingGetsAccepted` | orchestrator/app/jarvis_orchestrator/missions.py:99-103 | so from every such state there is a schedule of at most four steps per unaccepted item that accepts everything |
| `BacklogSchedules.EveryRunIsLinked` | orchestrator/app/jarvis_orchestrator/missions.py:1039-1095 | in every reachable state a run with an item's derived identity is that item's run |
| `BacklogLaunches.FinishDepSafeExactly` | api/app/jarvis_api/missions.py:1279-1295 | the last launch transaction keeps dependency safety exactly if the item is not waiting again and is not accepted work that others rely on |
| `LaunchEffects.CheckPassesExactly` | api/app/jarvis_api/missions.py:1200-1260 | the guards pass exactly for an admitted item that never ran, is ready under the present directive and has all dependencies accepted, and record its content and the team |
| `LaunchEffects.EnqueueAnswers` | api/app/jarvis_api/runtime.py:441-592 | the first request draws a fresh queued run, the same one again gets that run, and another is refused |
| `LaunchEffects.FinishStartsExactly` | api/app/jarvis_api/missions.py:1279-1295 | the item is started on the enqueued run exactly if it has no other |
| `LaunchEffects.FirstRequestGoverns` | api/app/jarvis_api/runtime.py:441-592 | after any run a launch of an item gets the run first enqueued for it exactly if it asks for the same content and priority under the same team |
| `BacklogLaunches.FinishWakeInvExactly` | api/app/jarvis_api/missions.py:1290-1294 | it keeps wakeups truthful exactly if the item has no wakeup yet |
| `BacklogLaunches.EarlyStartIsReachable` | api/app/jarvis_api/missions.py:1191-1295 | a concrete run in which a replanned item is started before its dependency is accepted |
| `BacklogLaunches.ReopeningIsReachable` | api/app/jarvis_api/missions.py:1191-1295 | a concrete run in which a second launch reopens an accepted item under its wakeup |
| `BacklogCancellation.CancelledIsLeftExactly` | orchestrator/app/jarvis_orchestrator/missions.py:600-600 | a step takes a cancelled mission out of that state exactly if it applies a decision with another lifecycle, blocks after a failed turn, is an owner's control to another lifecycle, reconciles while a run awaits approval, or is a wait for a slot by a worker whose item's run is still executing and has not itself been told to stop |
| `BacklogCancellation.ReconcileFromCancelled` | orchestrator/app/jarvis_orchestrator/missions.py:1129-1139 | a reconciliation does so exactly if some started item's run awaits approval |
| `BacklogCancellation.CancelledIsRevived` | orchestrator/app/jarvis_orchestrator/missions.py:600-600 | a run in which a mission is cancelled while a turn is in flight and the turn's answer, whatever validated response without work, takes effect afterwards |
| `BacklogCancellation.WorkerRevivesCancelled` | orchestrator/app/jarvis_orchestrator/workers/runtime.py:155-173 | a run from a new mission with two items at work: the cancellation reaches one run, its end makes the mission cancelled, and the other run's worker, waiting for a slot, makes it one that dispatch serves again |
| `MissionStore.MissionStore.WriteItems` | orchestrator/app/jarvis_orchestrator/missions.py:541-564 | the row loop ends in the replanned backlog with the old edges of the proposed items gone, or refuses exactly if some item may not be updated |
| `MissionStore.MissionStore.WriteDependencies` | orchestrator/app/jarvis_orchestrator/missions.py:576-583 | the edge loop adds exactly the response's edges, or fails exactly if one repeats |
| `MissionStore.MissionStore.Apply` | orchestrator/app/jarvis_orchestrator/missions.py:465-677 | the transaction leaves exactly the specified next state: applied, stale, or rolled back |
| `MissionStore.MissionStore.DispatchReady` | orchestrator/app/jarvis_orchestrator/missions.py:910-1114 | among the rows nobody else holds it picks the ready item of highest priority under the current directive, the smallest id among equals, and leaves exactly the specified state; if all are held an active mission turns idle |
| `MissionStore.MissionStore.ReconcileItems` | orchestrator/app/jarvis_orchestrator/missions.py:1116-1254 | the loops over active, finished, pending and changed rows end in exactly the specified state |
| `MissionStore.MissionStore.UnlockRows` | orchestrator/app/jarvis_orchestrator/missions.py:1183-1199 | unlocking row by row, reading rows already changed, unlocks what the state before the loop said |
| `MissionStore.MissionStore.CheckLaunch` | api/app/jarvis_api/missions.py:1191-1252 | the first launch transaction, guard by guard |
| `MissionStore.MissionStore.EnqueueJob` | api/app/jarvis_api/runtime.py:441-592 | the idempotent enqueue: a fresh run, the stored one, or a refusal |
| `MissionStore.MissionStore.FinishLaunch` | api/app/jarvis_api/missions.py:1279-1308 | the last launch transaction, which checks only the run id |
| `Commands.EachAppliesOnce` | api/app/jarvis_api/missions.py:693-810 | no command takes effect twice, and stored answers are those of the requests that did |
| `Commands.RepeatIsAnsweredAlike` | api/app/jarvis_api/missions.py:701-719 | a repeated directive or message gets the same answer and changes nothing after any run |
| `Commands.RepeatedTeamUpdateConflicts` | api/app/jarvis_api/missions.py:763-777 | a repeated team update changes nothing and always gets a version conflict |
| `Commands.StoredResponseIsUsedExactly` | api/app/jarvis_api/missions.py:763-777 | a stored answer is used exactly for the commands that look at the key first |
| `Commands.MissionApi.Direct` | api/app/jarvis_api/missions.py:694-752 | directives and messages: key, version, lifecycle, effect, in that order |
| `Commands.TakesEffectExactly` | api/app/jarvis_api/missions.py:693-812 | a command takes effect exactly if it is new, expects the present version and, unless it is about the team, the mission is open; then the version and its own number grow by one and the answer says so |
| `Commands.RefusedExactly` | api/app/jarvis_api/missions.py:701-719 | which answer a command without effect gets, and that it changes nothing |
| `Commands.EffectsAreCounted` | api/app/jarvis_api/missions.py:720-722 | over every run the directive, the team and the version count exactly the commands that took effect and what other writers added |
| `Commands.AnswersTellTheirMoment` | api/app/jarvis_api/missions.py:745-752 | every stored answer tells the version after the expected one and the directives and teams there had been by then |
| `Commands.MissionApi.UpdateTeam` | api/app/jarvis_api/missions.py:756-810 | team updates: version, key, effect, in that order |
| `LedgerStore.LedgerStore.EnsureControls` | orchestrator/app/jarvis_orchestrator/mission_resources.py:64-86 | missing controls are inserted with the shared limits, the mission's with its own |
| `LedgerStore.Add` | orchestrator/app/jarvis_orchestrator/mission_resources.py:116-125 | the running totals grow by exactly the values that are present, field by field |
| `LedgerStore.LedgerStore.Total` | orchestrator/app/jarvis_orchestrator/mission_resources.py:172-187 | the row loop computes the charge of the window, or finds exactly the rows of another price |
| `LedgerStore.LedgerStore.FirstOver` | orchestrator/app/jarvis_orchestrator/mission_resources.py:189-194 | the first field whose total passes its limit; any cost needs a cost limit |
| `LedgerStore.LedgerStore.ReserveScope` | orchestrator/app/jarvis_orchestrator/mission_resources.py:152-208 | one scope is denied with the right reason, finds its row, or adds it |
| `LedgerStore.LedgerStore.Reserve` | orchestrator/app/jarvis_orchestrator/mission_resources.py:128-210 | the scope loop ends with the specified rows and denial |
| `LedgerStore.LedgerStore.Reconcile` | orchestrator/app/jarvis_orchestrator/mission_resources.py:213-239 | every row of the action at a present scope that is not reconciled or unknown is settled, no other row changes, and it reports whether there was any |
| `LedgerStore.LedgerStore.Release` | orchestrator/app/jarvis_orchestrator/mission_resources.py:242-258 | exactly the reserved rows of the action at present scopes are released |
| `LedgerStore.LedgerStore.UsageView` | orchestrator/app/jarvis_orchestrator/mission_resources.py:261-301 | open liabilities, recorded use and doubt of the mission's current window |
| `LedgerUsage.ShownIsCharged` | orchestrator/app/jarvis_orchestrator/mission_resources.py:275-285 | reserved plus actual in the view equals, field by field and in cost, what a reservation is judged against |
| `LedgerUsage.ViewDecidesAdmission` | orchestrator/app/jarvis_orchestrator/mission_resources.py:172-194 | in every reachable ledger a new request is admitted at mission scope exactly when the unreleased rows of its window have its price unit and the view, which reads the mission's own limits, has room in every field |
| `LedgerLaws.ReachableLedgers` | orchestrator/app/jarvis_orchestrator/mission_resources.py:64-86 | in every reachable ledger each scope and action has at most one row, and a mission's limits equal those of its scope |
| `LedgerLaws.AttemptInClosedForm` | orchestrator/app/jarvis_orchestrator/mission_resources.py:152-208 | the walk over the scopes is denied exactly when some scope denies on the rows before it, and adds exactly the missing rows of the scopes before the first denial |
| `LedgerLaws.CaughtDenialIsCleanExactly` | orchestrator/app/jarvis_orchestrator/missions.py:984-1007 | a denial caught inside the transaction adds no row exactly if every scope before the denying one had its row already; it leaves the whole ledger alone exactly if, besides, no control was missing |
| `LedgerRuns.DenialLeavesSharedRow` | orchestrator/app/jarvis_orchestrator/missions.py:984-1007 | a run from the empty ledger in which a second job is denied for the mission's wall time and, the denial being caught, its row at the shared scope is committed; rolled back, nothing is |
| `LedgerLaws.RowsAreForever` | orchestrator/app/jarvis_orchestrator/mission_resources.py:234-258 | over every run no row disappears or is re-priced, and a reconciled or unknown row never changes |
| `LedgerLaws.ReleasedChangesExactly` | orchestrator/app/jarvis_orchestrator/mission_resources.py:234-239 | a step changes a released row exactly if it reconciles its action at one of the mission's present scopes, and then settles it |
| `LedgerRuns.ReleasedRowIsSettled` | orchestrator/app/jarvis_orchestrator/mission_resources.py:235-258 | for every request that fits, a run from the empty ledger in which its rows are reserved, released, and charged again by a reconciliation |
| `LedgerReplays.RepeatIsFree` | orchestrator/app/jarvis_orchestrator/mission_resources.py:157-171 | an admitted request repeated after any run that keeps team and limits is admitted again and changes no row |
| `LedgerReplays.AdmittedIsChargedExactly` | orchestrator/app/jarvis_orchestrator/mission_resources.py:163-171 | an admitted request is charged its liability exactly if no row was there, the row was open, or it was settled for the same amounts |
| `LedgerReplays.DesertedTeamIsStranded` | orchestrator/app/jarvis_orchestrator/mission_resources.py:60-61 | rows of a team no mission has any more never change again |
| `LedgerReplays.SettlementReachesExactly` | orchestrator/app/jarvis_orchestrator/mission_resources.py:222-239 | after a team revision a settlement reaches a row exactly if its scope is still one of the mission's |
| `LedgerRuns.TeamRowIsStranded` | orchestrator/app/jarvis_orchestrator/mission_resources.py:222-239 | a run from the empty ledger, for any request that fits: settled after a team revision, it stays charged in full to the first team over everything that follows without that team |
| `JobCharges.PartsAreRuns` | api/app/jarvis_api/missions.py:1191-1308 | the parts of every run of the joint transactions are a run of the backlog and a run of the ledger, so all laws about those hold of it |
| `JobCharges.JobIsChargedExactly` | orchestrator/app/jarvis_orchestrator/mission_resources.py:242-258 | over every run of dispatches, launches, refusals, reconciliations and everything else, a job's row at any scope is charged its whole liability exactly while no release of a refused launch and no settlement has reached its scope |
| `JobCharges.StartedIsChargedExactly` | api/app/jarvis_api/missions.py:1236-1278 | in every reachable state a started item has its job's row at the shared scope, the mission's and some team's, and at the first two it is charged in full exactly if no refused launch of the item was ever released and it was never settled before |
| `JobRuns.ReleasedUnderAnother` | api/app/jarvis_api/missions.py:1274-1295 | a run with two callers: one is refused, the other starts the item, and the release that follows leaves the started item charged nothing |
| `JobRuns.StartedAfterRelease` | orchestrator/app/jarvis_orchestrator/missions.py:983-1000 | a run in which the automatic dispatch starts an item after a refused launch was released: its reservation finds the released rows, is admitted and charges nothing |
| `LedgerBounds.ReserveBounded` | orchestrator/app/jarvis_orchestrator/mission_resources.py:181-194 | an attempt, admitted or denied half way, never raises a scope above the larger of its old charge and its limit |
| `LedgerEffects.ScopeAdmitsExactly` | orchestrator/app/jarvis_orchestrator/mission_resources.py:152-194 | a scope without a row admits exactly if the currency is its own, the rows of its aligned window have the same price, and each field stays within its limit, a cost only under a cost limit; a denial names the first reason and the first field |
| `LedgerEffects.RepeatAdmittedExactly` | orchestrator/app/jarvis_orchestrator/mission_resources.py:157-171 | a scope with a row admits exactly the same liability at the same price, and adds nothing |
| `LedgerEffects.SettledExactly` | orchestrator/app/jarvis_orchestrator/mission_resources.py:222-239 | a settlement writes the use or the doubt into exactly the unsettled rows of the action at the scopes the mission has now |
| `LedgerEffects.FirstRequestAdmittedExactly` | orchestrator/app/jarvis_orchestrator/mission_resources.py:34-42 | the first request of all is admitted exactly if it is within the amounts shared by all missions, without a cost, and within the mission's own limits |
| `JobCharges.DispatchIsPaidFor` | orchestrator/app/jarvis_orchestrator/missions.py:983-1012 | a selected item with room is started exactly if the ledger admits its job; otherwise the mission is blocked and what was reserved before the denial is committed |
| `JobCharges.LaunchIsPaidFor` | api/app/jarvis_api/missions.py:1234-1254 | a launch passes its guards exactly with its reservation, and a denial leaves nothing |
| `LedgerBounds.ChargesAreBounded` | orchestrator/app/jarvis_orchestrator/mission_resources.py:111-258 | in every reachable ledger each scope, window and field is charged at most the largest limit it has had plus the accumulated overrun |
| `LedgerBounds.ChargesWithinLimit` | orchestrator/app/jarvis_orchestrator/mission_resources.py:111-258 | with unchanged limits: at most the limit plus the overrun |
| `LedgerBounds.SettlingWithinLiability` | orchestrator/app/jarvis_orchestrator/mission_resources.py:213-239 | settling at or below the liability, or as unknown, overruns nothing |
| `LedgerBounds.TwoWindows` | orchestrator/app/jarvis_orchestrator/mission_resources.py:111-113 | a span one window long meets at most two aligned windows |
| `LedgerBounds.AnyWindowTwiceTheLimit` | orchestrator/app/jarvis_orchestrator/mission_resources.py:111-113 | rows reserved in any interval one window long are charged at most twice the limit plus the overrun of two windows |
| `TurnStore.TurnStore.Claim` | orchestrator/app/jarvis_orchestrator/missions.py:105-134 | a turn is taken exactly if it is due and queued, or running with a lapsed lease |
| `TurnStore.TurnStore.Begin` | orchestrator/app/jarvis_orchestrator/missions.py:230-316 | the transaction before the call, check by check, writes everything or nothing |
| `TurnStore.TurnStore.Store` | orchestrator/app/jarvis_orchestrator/missions.py:342-399 | the receipt and the settlement, or neither |
| `TurnStore.TurnStore.Fail` | orchestrator/app/jarvis_orchestrator/missions.py:699-742 | decided turns are left alone; otherwise the turn is queued again or failed and an unanswered call is marked unknown |
| `TurnStore.BoundedSnapshot` | orchestrator/app/jarvis_orchestrator/missions.py:680-697 | what is kept is the longest tail of the last twenty messages that fits; it is refused exactly when no tail fits |
| `TurnSafety.OneInvocationPerTurn` | orchestrator/app/jarvis_orchestrator/missions.py:230-338 | over every interleaving of owners, crashes, timeouts and lapsed leases the provider is invoked at most once for a turn, and every decision to be applied is its one answer |
| `TurnEffects.ClaimedExactly` | orchestrator/app/jarvis_orchestrator/missions.py:105-134 | a claim succeeds exactly on a turn that is due and queued or past its lease, and gives it the owner, a full lease and one attempt more |
| `TurnEffects.FailureExactly` | orchestrator/app/jarvis_orchestrator/missions.py:699-743 | what a failure makes of a turn: five seconds and the attempt back for a paused admission, two to the power of the attempts while one is left and the code allows it, failed otherwise |
| `TurnEffects.FailureIsPutOff` | orchestrator/app/jarvis_orchestrator/missions.py:708-742 | after a failure that queues the turn again no claim succeeds before that delay is over, over every run in which no other worker decides or fails it, which is every run if there is none |
| `TurnEffects.DelayIsExact` | orchestrator/app/jarvis_orchestrator/missions.py:111-120 | and from that moment on a claim does succeed |
| `TurnEffects.BeginExactly` | orchestrator/app/jarvis_orchestrator/missions.py:230-293 | why the transaction before the call starts none and what it leaves: the claim, the budget, a stored receipt, a started record, the cap, in this order |
| `TurnEffects.BeginStartsCall` | orchestrator/app/jarvis_orchestrator/missions.py:254-316 | what it writes when it starts one: the reservation, the started record and the call counted, all for this worker |
| `TurnEffects.StoredExactly` | orchestrator/app/jarvis_orchestrator/missions.py:342-399 | the receipt of the first answer is stored with its settlement, and a second is refused |
| `TurnSafety.ReceiptNeverRefused` | orchestrator/app/jarvis_orchestrator/missions.py:342-358 | a worker with an answer never finds a receipt stored already |
| `TurnSafety.CallsStayUnderCap` | orchestrator/app/jarvis_orchestrator/team_resources.py:34-44 | the distinct calls of the team never exceed its cap, and the turn counts from its started record on |
| `TurnSafety.StepAttemptsExactly` | orchestrator/app/jarvis_orchestrator/missions.py:105-128 | a step breaks the bound on attempts exactly if it takes over a lapsed lease when no attempt is left |
| `TurnSafety.AttemptsAreBoundedExactly` | orchestrator/app/jarvis_orchestrator/missions.py:733-742 | along a whole run a turn is attempted at most as often as configured, and queued again only while an attempt is left, exactly if no lease is taken over at the bound |
| `TurnSafety.ClaimsAreUnbounded` | orchestrator/app/jarvis_orchestrator/missions.py:111-128 | from every due turn there is a run with any number of claims, so also one past the configured bound |
| `TurnLiability.UncertainCallIsChargedInFull` | orchestrator/app/jarvis_orchestrator/missions.py:715-732 | with a started record and no receipt every row of the call is charged its whole liability, at all three scopes it was started under |
| `TurnLiability.SettledOnlyWithTheReceipt` | orchestrator/app/jarvis_orchestrator/missions.py:383-399 | a row of the call becomes reconciled only in the transaction that stores the receipt |
| `TurnLeases.OneOwnerAtATime` | orchestrator/app/jarvis_orchestrator/missions.py:79-84 | with a lease of at least the call timeout plus thirty seconds and workers that keep to it, no two workers are ever in time to act on the turn |
| `TurnLeases.TerminalTurnsStay` | orchestrator/app/jarvis_orchestrator/missions.py:105-144 | then an applied, stale or failed turn never changes again |
| `TurnLeases.TerminalChangesExactly` | orchestrator/app/jarvis_orchestrator/missions.py:702-742 | without the timing, a decided turn changes exactly by a late application or by a late failure that queues a failed turn again |
| `TurnLeases.FailedTurnIsApplied` | orchestrator/app/jarvis_orchestrator/missions.py:465-470 | a run, for every lease length, in which a failed turn is applied |
| `Layout.LayoutBuilder.Visit` | web/src/components/run-experience.tsx:15-22 | the recursive visit ends on every graph and leaves exactly the specified order |
| `Layout.VisitAddsWhatItCanReach` | web/src/components/run-experience.tsx:13-24 | a visit adds exactly the nodes a walk over kept edges reaches before meeting anything already placed, each once |
| `Layout.OrderIsComplete` | web/src/components/run-experience.tsx:23-24 | every node is in the order once, and what the entrypoint reaches comes first |
| `Layout.EdgesAreFollowed` | web/src/components/run-experience.tsx:18-20 | the edges walked are exactly those that are neither a retry nor a fallback |
| `Layout.FirstTargetFollows` | web/src/components/run-experience.tsx:15-22 | right after a new node comes the target of its first edge, in the order of the list, that leads to something new |
| `Layout.PlaceAll` | web/src/components/run-experience.tsx:25-32 | the grid gives different nodes different places |
| `Layout.RuntimeLayout` | web/src/components/run-experience.tsx:13-33 | every node of the spec has its own place, numbered in the depth-first order |
| `DepthGuard.DepthExceeded` | api/app/jarvis_api/security.py:25-49 | the byte loop answers true exactly if the depth counter ever passes the limit |
| `DepthGuard.ValueSinks` | api/app/jarvis_api/security.py:31-48 | scanning the text of any JSON value returns to the same depth and goes exactly as deep as the value is nested, whatever its strings contain |
| `DepthGuard.GuardIsNesting` | api/app/jarvis_api/security.py:25-49 | for every JSON text the guard refuses exactly those nested deeper than one more than the maximum |
| `DepthGuard.LetThroughIsShallow` | api/app/jarvis_api/security.py:25-49 | for arbitrary bytes let through, the bracket stack before the first unmatched closer never exceeds the limit |
| `DepthGuard.RefusedIsDeep` | api/app/jarvis_api/security.py:43-48 | without an unmatched closer, bytes are refused exactly when the stack passes the limit somewhere |
| `DepthGuard.CounterDriftsAfterwards` | api/app/jarvis_api/security.py:47-48 | after any number of unmatched closers the brackets that follow are counted exactly that much lower |
| `DepthGuard.Collect` | api/app/jarvis_api/security.py:152-164 | the buffered body is the join of all chunks and within the limit, or it is refused for the first chunk that would pass it, or the sender has gone |
| `Usage.LatestRepresents` | api/app/jarvis_api/usage.py:20-32 | aggregation fails exactly if two records of a call disagree on profile or provider; otherwise it keeps one record per call that nothing in its call is newer than |
| `Usage.OrderAndRepeatsDoNotMatter` | api/app/jarvis_api/usage.py:19-82 | every permutation and duplication of the records gives the same usage if no call's top is tied between different records |
| `Usage.UntiedIsDecisive` | api/app/jarvis_api/usage.py:28-31 | it is enough that no two different records of a call tie on time and known outcome |
| `Usage.OrderFreeExactly` | api/app/jarvis_api/usage.py:28-32 | for every list without a conflict, the records that count are the same however it is arranged exactly if no call's top is tied between different records |
| `UsageEffects.NewCallCounts` | api/app/jarvis_api/usage.py:33-82 | a record of a new call adds its known tokens or one unknown call, an exact or estimated amount to its currency's subtotal or, unknown or missing, one unknown call there and no total, and moves no other currency |
| `UsageEffects.StatusByRecords` | api/app/jarvis_api/usage.py:53-61 | a currency is unknown exactly if some record that counts has no known cost, not applicable exactly if none has any, and estimated exactly if one is an estimate and none unknown |
| `UsageEffects.LatestRecordCounts` | api/app/jarvis_api/usage.py:28-32 | a record later than all others of its call, or as late and known where they are unclear, replaces them; any other changes nothing |
| `UsageEffects.FailsExactly` | api/app/jarvis_api/usage.py:22-27 | aggregation fails exactly if two records of a call name different profiles or providers |
| `UsageEffects.CurrenciesInOrder` | api/app/jarvis_api/usage.py:39-39 | the currencies are those of the records that count, each once, by code |
| `Usage.TiesAreDecidedByOrder` | api/app/jarvis_api/usage.py:28-32 | of two records tied at the top of a call in any list, the one listed first is kept, nothing else changes, and the known tokens differ by exactly what the two say |
| `Usage.OneCallPerCorrelation` | api/app/jarvis_api/usage.py:71-72 | one call is counted for each distinct correlation |
| `Usage.CurrenciesSorted` | api/app/jarvis_api/usage.py:39-39 | the currencies are listed in strict order, and are exactly those of the calls |
| `Usage.Totals` | api/app/jarvis_api/usage.py:33-37 | the unknown calls, the known tokens and whether some are estimated, summed row by row |
| `Usage.CurrencyReport` | api/app/jarvis_api/usage.py:40-70 | one currency's subtotal, unknown calls and status, summed cost by cost |
| `Usage.Aggregate` | api/app/jarvis_api/usage.py:19-82 | the loops compute the specified usage and fail exactly on an identity that changed |
| `Alerts.LedgerAgreesWithHistory` | api/app/jarvis_api/operations.py:613-667 | after any evaluations each signal that ever fired has exactly one row and no other has any; each active row counts its unbroken streak and remembers its start, each recovered one its end |
| `Alerts.ActiveIsFiring` | api/app/jarvis_api/operations.py:613-667 | the active rows are exactly the last evaluation's firing signals |
| `Alerts.RowTellsItsHistory` | api/app/jarvis_api/operations.py:613-667 | over every history a row is active exactly while its signal is at warning or critical, counts the unbroken evaluations, and knows when they began or ended |
| `Alerts.RowShowsLastSignal` | api/app/jarvis_api/operations.py:613-650 | and shows the level and the reason of the last such signal of its key |
| `Alerts.FiredIsFires` | api/app/jarvis_api/operations.py:613-617 | the dictionary of firing signals has each firing key once and no other |
| `Alerts.AlertLedger.Evaluate` | api/app/jarvis_api/operations.py:613-674 | the loops leave exactly the specified rows, active for exactly the firing signals, and opened less recovered is the change in active rows |
| `Alerts.ChangeIsOpenedLessLapsed` | api/app/jarvis_api/operations.py:668-674 | whatever the rows were, an evaluation changes the number of active ones by what it opens less what it recovers |
| `Alerts.ActiveIsOpenedLessRecovered` | api/app/jarvis_api/operations.py:613-674 | over every history the active rows are all that was opened less all that was recovered |
| `LegacyGraph.VerifyTask` | docs/reference/legacy/jarvis_dev.py:386-444 | the command loop records every exit code, or a failure if there is no command |
| `LegacyGraph.VerdictIsPassing` | docs/reference/legacy/jarvis_dev.py:541-697 | the review passes exactly if there were commands, all exited with zero, and the answer was PASS |
| `LegacyGraph.SevenAttempts` | docs/reference/legacy/jarvis_dev.py:700-711 | no run develops a task an eighth time |
| `LegacyGraph.EveryProjectEnds` | docs/reference/legacy/jarvis_dev.py:769-859 | the graph stops within twenty-three steps a task; it is complete exactly if every task passes within seven attempts, and otherwise blocked at the first that does not |
| `LegacyGraph.Invoke` | docs/reference/legacy/jarvis_dev.py:769-859 | the node loop ends with that outcome |
| `Publication.PublishedForGood` | api/migrations/versions/0001_m1_persistence_foundation.py:881-917 | once published, a version keeps its row, its set of bound revisions and their content over every sequence of row operations |
| `Publication.PublishedPointersAreTrue` | api/migrations/versions/0005_m4_workflows.py:97-115 | in every reachable state a published pointer names a published version of the same template |
| `Publication.DraftPointerBreaksExactly` | api/migrations/versions/0005_m4_workflows.py:99-102 | a step makes a true draft pointer false exactly when it publishes the draft or moves it to another template |
| `Publication.RevisionsAreForGood` | api/migrations/versions/0001_m1_persistence_foundation.py:881-899 | revisions and bindings never change or go, published or not |
| `Publication.IdentityIsForGood` | api/migrations/versions/0005_m4_workflows.py:106-112 | a template that stays keeps its owner and its key over every sequence |
| `Publication.KeysAlwaysHold` | api/migrations/versions/0005_m4_workflows.py:97-115 | in every reachable state bindings, versions and pointers name rows that are there |
| `Publication.VersionsChangeExactly` | api/migrations/versions/0001_m1_persistence_foundation.py:900-916 | when exactly a version is inserted, rewritten, moved or deleted, in terms of the rows that hold it |
| `Publication.TemplatesChangeExactly` | api/migrations/versions/0005_m4_workflows.py:97-115 | when exactly a template is inserted, rewritten, moved or deleted |
| `Publication.DraftIsPublishedUnderPointer` | api/migrations/versions/0005_m4_workflows.py:99-102 | four accepted operations from the empty tables that leave a template's draft pointer on a published version |
| `Publication.Tables.WriteVersion` | api/migrations/versions/0001_m1_persistence_foundation.py:900-916 | an update of a version is let through exactly if it is unpublished and no key is violated |
| `Publication.Tables.RemoveVersion` | api/migrations/versions/0001_m1_persistence_foundation.py:900-916 | a deletion of a version is let through exactly if it is unpublished and nothing refers to it |
| `Publication.Tables.Bind` | api/migrations/versions/0005_m4_workflows.py:72-87 | a binding is let through exactly if its version is unpublished and no key is violated |
| `Publication.Tables.WriteTemplate` | api/migrations/versions/0005_m4_workflows.py:97-115 | a template update is let through exactly if its pointers name versions of it in the right state and its identity is kept |

## Left out

- The database, its locks and isolation, LangGraph and its recursion limit: transactions are atomic steps and unique keys are guards; `skip_locked` is any step being free to happen or not.
- Digests, `uuid5` and canonical JSON: they stand for what they are computed from, as if injective.
- Decimal amounts: whole numbers of an exact minor unit; no rounding occurs in the modelled code.
- Other missions inside one reconciliation: the backlog is one mission's, and `OtherEvents` stands for what others write between its steps, not for events of other missions in the middle of one reconciliation.
- Mission texts, waiting reasons, messages, event payloads and the snapshot handed to the manager: no law here depends on them.
- Admission answers, budget answers inside backlog steps, workflow availability, the clock and the provider: parameters that may take any value. The budget itself is the ledger's model; `JobCharges` joins the two for the reservations of jobs, with other missions' jobs among the actions of other texts.
- The constraint text in an enqueue request: a directive revision that changes only the constraints shows as a refusal by the enqueue, which its parameter allows at any time.
- A run's desired state: whether a worker's own run was told to stop is an answer from outside that may be yes or no at every turn of its wait; the owner's cancellation reaches one active run, so another's may be no.
- An enqueue that fails after its transaction has committed: a refusal writes nothing here. Events of workers are `OtherEvents`.
- Expected-version checks on item launches: `admitted` stands for them together with the budget.
- The emergency stop of `api/app/jarvis_api/operations.py:949-970`: it is not among the writers. What it does to a mission's label and to its runs are `Control` and `RunChange` steps; that it closes admission, and inserts the shared control row with default limits if there is none, is not modelled. "Every interleaving" means of the writers modelled here.
- Mission lifecycle labels beyond `cancelled`, and dispatch fairness: a mission at capacity stays first in line, so no fairness law holds.
- `request_reconciliation` of a blocked run, and approvals: they are `RunChange` steps, which may set any run to any status.
- `require_admission`, provider adapters, prompts, HTTP routing, authentication, generated contracts and React components: one guard each, or plumbing.
- `IdempotencyRepository`, `CommandRepository` and `RunOwnership` are not part of this model; one stored response per key is assumed of the first.
- `control_mission` is modelled as the `Control` step and the ledger's `SetLimits`; its own idempotency key works like that of a directive.
- Turns of other missions: `Turns` follows one turn, and every other call, reservation or settlement is a step of its environment.
- `TurnLeases.OneOwnerAtATime`: the thirty seconds of database work are a premise about workers, as in the code; nothing in the code enforces them.
- Text normalisation of the legacy reviewer's verdict and of its commands: the verdict is taken as stripped and in capitals.
- UTF-8 validation of request bodies and the status codes of the refusals: single guards.
- Unique version numbers and template keys: further rejections of the same row operations, which only shorten runs.
- Worker slots, recovery generation, qualification, retention preview and secret provisioning: settled by one guard or one pass.
