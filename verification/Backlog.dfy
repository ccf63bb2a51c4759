/**
  One mission's durable backlog and everything that writes it. Each transaction
  of the service is one atomic step on `State`; a crash may fall between any two.
  The launch of an item from the API is three separate transactions, so other
  steps may come between them.
 */
module Backlog {
  import opened Wrappers
  import opened Decisions

  datatype ItemLifecycle = Pending | Ready | Started | Accepted | Blocked | Cancelled

  /** Automatic launches derive the run id from the item; the API draws fresh ones. */
  datatype RunId = AutoRun(item: Key) | EnqueuedRun(serial: nat)

  datatype RunStatus = Queued | Running | ApprovalRequired | Completed | RunBlocked | Failed | RunCancelled

  /** The deduplication key of a wakeup row. */
  datatype WakeupKey =
    | RunTerminal(run: RunId, outcome: ItemLifecycle)
    | UserDirection(message: nat)
    | Deadline(turn: TurnId, at: int)

  datatype TurnId = ForWakeup(wakeup: WakeupKey) | ForMessage(message: nat)

  datatype WakeupStatus = WakeupPending | TurnQueued | Committed | WakeupStale | WakeupFailed

  datatype Wakeup = Wakeup(
    directive: nat, team: nat, cursor: nat,
    target: Option<Key>, source: Option<RunId>, status: WakeupStatus)

  datatype TurnStatus = TurnOpen | TurnApplied | TurnStale | TurnFailed

  datatype Turn = Turn(directive: nat, team: nat, wakeup: Option<WakeupKey>, cursor: nat, status: TurnStatus)

  datatype Item = Item(
    body: string, priority: int, lifecycle: ItemLifecycle,
    directive: nat, team: nat, sourceWakeup: Option<WakeupKey>,
    run: Option<RunId>, cursor: Option<nat>, version: nat)

  datatype Mission = Mission(
    lifecycle: MissionLifecycle, autonomous: bool, directive: nat, team: nat, version: nat)

  /** What an enqueue request says; the stored response is keyed by item and guarded by it. */
  datatype JobRequest = JobRequest(body: string, priority: int, team: nat)

  datatype StoredJob = StoredJob(request: JobRequest, run: RunId)

  /** How far one launch from the API has come. */
  datatype Launch = Checked(key: Key, request: JobRequest) | Enqueued(key: Key, run: RunId)

  datatype State = State(
    items: map<Key, Item>,
    deps: set<(Key, Key)>,
    runs: map<RunId, RunStatus>,
    jobs: map<Key, StoredJob>,
    launches: map<nat, Launch>,
    wakeups: map<WakeupKey, Wakeup>,
    turns: map<TurnId, Turn>,
    mission: Mission,
    cursor: nat,
    serial: nat)

  // ------------------------------------------------------------------ applying a decision

  /** The proposal for `k`; keys of a validated response are distinct. */
  function Proposed(items: seq<Proposal>, k: Key): (p: Proposal)
    requires k in Keys(items)
    ensures p in items && p.key == k
  {
    var last := items[|items| - 1];
    if last.key == k then last
    else
      assert k in Keys(items[..|items| - 1]) by {
        var q :| q in items && q.key == k;
        assert items == items[..|items| - 1] + [last];
      }
      Proposed(items[..|items| - 1], k)
  }

  function ReplanItem(before: Option<Item>, p: Proposal, turn: Turn): Item {
    Item(p.body, p.priority,
         if p.dependencies == [] then Ready else Pending,
         turn.directive, turn.team, turn.wakeup,
         if before.Some? then before.value.run else None,
         if before.Some? then before.value.cursor else None,
         if before.Some? then before.value.version + 1 else 0)
  }

  function Find(items: map<Key, Item>, k: Key): Option<Item> {
    if k in items then Some(items[k]) else None
  }

  function Replan(items: map<Key, Item>, proposals: seq<Proposal>, turn: Turn): map<Key, Item> {
    map k | k in items.Keys + Keys(proposals) ::
      if k in Keys(proposals) then ReplanItem(Find(items, k), Proposed(proposals, k), turn) else items[k]
  }

  function ReplanDeps(deps: set<(Key, Key)>, proposals: seq<Proposal>): set<(Key, Key)> {
    (set e | e in deps && e.0 !in Keys(proposals)) + Edges(proposals)
  }

  predicate Terminal(l: ItemLifecycle) { l in {Accepted, ItemLifecycle.Blocked, ItemLifecycle.Cancelled} }

  /** The target, source and cursor check on a wakeup about a finished run. */
  predicate WakeupHolds(s: State, wk: WakeupKey)
    requires wk in s.wakeups
  {
    var w := s.wakeups[wk];
    && w.target.Some? && w.target.value in s.items
    && var item := s.items[w.target.value];
    && item.run == w.source && w.source.Some?
    && item.cursor == Some(w.cursor)
    && Terminal(item.lifecycle)
  }

  predicate WakeupValid(s: State, turn: Turn) {
    turn.wakeup.Some? && turn.wakeup.value in s.wakeups && turn.wakeup.value.RunTerminal? ==>
      WakeupHolds(s, turn.wakeup.value)
  }

  predicate Governs(s: State, turn: Turn) {
    s.mission.directive == turn.directive && s.mission.team == turn.team
  }

  function MarkWakeup(wakeups: map<WakeupKey, Wakeup>, wk: Option<WakeupKey>, status: WakeupStatus): map<WakeupKey, Wakeup> {
    if wk.Some? && wk.value in wakeups then wakeups[wk.value := wakeups[wk.value].(status := status)] else wakeups
  }

  datatype ApplyOutcome = AppliedNow | WentStale | BudgetDenied | UpdateNotAllowed | DependencyRepeated

  predicate Updatable(items: map<Key, Item>, p: Proposal) {
    p.key in items ==> items[p.key].lifecycle in {Pending, Ready}
  }

  predicate NoRepeats(p: Proposal) {
    forall i, j | 0 <= i < j < |p.dependencies| :: p.dependencies[i] != p.dependencies[j]
  }

  /** `admitted` is the budget's answer for the new items, asked only if there are any. */
  function ApplyVerdict(s: State, turn: Turn, d: Decision, admitted: bool): ApplyOutcome {
    if !Governs(s, turn) || !WakeupValid(s, turn) then WentStale
    else if !(Keys(d.items) <= s.items.Keys) && !admitted then BudgetDenied
    else if exists p | p in d.items :: !Updatable(s.items, p) then UpdateNotAllowed
    else if exists p | p in d.items :: !NoRepeats(p) then DependencyRepeated
    else AppliedNow
  }

  function AddDeadline(s: State, t: TurnId, turn: Turn, at: Option<int>): map<WakeupKey, Wakeup> {
    var wakeups := MarkWakeup(s.wakeups, turn.wakeup, Committed);
    if at.None? || Deadline(t, at.value) in wakeups then wakeups
    else wakeups[Deadline(t, at.value) := Wakeup(s.mission.directive, s.mission.team, turn.cursor, None, None, WakeupPending)]
  }

  function GoStale(s: State, t: TurnId): State
    requires t in s.turns
  {
    s.(turns := s.turns[t := s.turns[t].(status := TurnStale)],
       wakeups := MarkWakeup(s.wakeups, s.turns[t].wakeup, WakeupStale),
       cursor := s.cursor + 1)
  }

  function Commit(s: State, t: TurnId, d: Decision): State
    requires t in s.turns
  {
    s.(items := Replan(s.items, d.items, s.turns[t]),
       deps := ReplanDeps(s.deps, d.items),
       turns := s.turns[t := s.turns[t].(status := TurnApplied)],
       wakeups := AddDeadline(s, t, s.turns[t], d.scheduledWakeupAt),
       mission := s.mission.(lifecycle := d.lifecycle, version := s.mission.version + 1),
       cursor := s.cursor + |d.items| + 1)
  }

  function ApplyTx(s: State, t: TurnId, d: Decision, admitted: bool): State
    requires t in s.turns
  {
    match ApplyVerdict(s, s.turns[t], d, admitted)
    case WentStale => GoStale(s, t)
    case AppliedNow => Commit(s, t, d)
    case _ => s  // the transaction rolls back
  }

  // ------------------------------------------------------------------ automatic dispatch

  predicate Dispatchable(s: State, k: Key) {
    k in s.items && s.items[k].lifecycle == Ready && s.items[k].directive == s.mission.directive
  }

  predicate RunActive(r: RunStatus) { r !in {RunStatus.Completed, Failed, RunBlocked, RunCancelled} }

  function ActiveKeys(s: State): set<Key> {
    set k | k in s.items && s.items[k].lifecycle == Started
            && s.items[k].run.Some? && s.items[k].run.value in s.runs
            && RunActive(s.runs[s.items[k].run.value])
  }

  predicate MayDispatch(m: Mission) {
    m.autonomous && m.lifecycle in {Active, Idle, WaitingForCapacity}
  }

  /** The answers that come from outside the backlog. */
  datatype DispatchGate = AdmissionDenied | AllLocked | TeamMissing | DispatchBudgetDenied | WorkflowMissing | Open

  /** The item starts on its derived run, which is created unless it is there. */
  function StartTx(s: State, k: Key): State
    requires k in s.items
  {
    s.(items := s.items[k := LaunchedItem(s.items[k], AutoRun(k))],
       runs := if AutoRun(k) in s.runs then s.runs else s.runs[AutoRun(k) := Queued],
       mission := s.mission.(lifecycle := Active, version := s.mission.version + 1),
       cursor := s.cursor + if AutoRun(k) in s.runs then 1 else 3)
  }

  /** What the mission is labelled instead, if the item is not started. */
  function HeldBack(s: State, gate: DispatchGate, activeLimit: nat): Option<MissionLifecycle> {
    if gate == AllLocked then Some(if s.mission.lifecycle == Active then Idle else s.mission.lifecycle)
    else if gate == TeamMissing then Some(MissionLifecycle.Blocked)
    else if |ActiveKeys(s)| >= activeLimit then Some(WaitingForCapacity)
    else if gate != Open then Some(MissionLifecycle.Blocked)
    else None
  }

  function DispatchTx(s: State, k: Key, gate: DispatchGate, activeLimit: nat): State {
    if !MayDispatch(s.mission) || !Dispatchable(s, k) || gate == AdmissionDenied then s
    else
      var held := HeldBack(s, gate, activeLimit);
      if held.Some? then s.(mission := s.mission.(lifecycle := held.value)) else StartTx(s, k)
  }

  // ------------------------------------------------------------------ reconciling finished runs

  predicate Joined(s: State, k: Key) {
    && k in s.items && s.items[k].lifecycle == Started
    && s.items[k].run.Some? && s.items[k].run.value in s.runs
  }

  predicate Finishing(s: State, k: Key) {
    Joined(s, k) && !RunActive(s.runs[s.items[k].run.value])
  }

  function Outcome(r: RunStatus): ItemLifecycle {
    match r
    case Completed => Accepted
    case RunBlocked | Failed => ItemLifecycle.Blocked
    case _ => ItemLifecycle.Cancelled
  }

  function OutcomeOf(s: State, k: Key): ItemLifecycle
    requires Joined(s, k)
  {
    Outcome(s.runs[s.items[k].run.value])
  }

  /** `order` lists the started rows as the database happens to return them. */
  predicate Lists(s: State, order: seq<Key>) {
    && (forall i, j | 0 <= i < j < |order| :: order[i] != order[j])
    && (forall k | k in order :: Joined(s, k))
    && (forall k | k in s.items && Joined(s, k) :: k in order)
  }

  /** Active runs move the mission in and out of waiting for approval. */
  function Relabel(s: State, order: seq<Key>): MissionLifecycle
    requires forall k | k in order :: Joined(s, k)
  {
    if order == [] then s.mission.lifecycle
    else
      var before, k := Relabel(s, order[..|order| - 1]), order[|order| - 1];
      assert k in order && Joined(s, k);
      var status := s.runs[s.items[k].run.value];
      if !RunActive(status) then before
      else if status == ApprovalRequired then WaitingForApproval
      else if before == WaitingForApproval then Active
      else before
  }

  function FinishItem(s: State, k: Key): Item
    requires k in s.items
  {
    if Finishing(s, k)
    then s.items[k].(lifecycle := OutcomeOf(s, k), version := s.items[k].version + 1)
    else s.items[k]
  }

  function FinishItems(s: State): map<Key, Item> {
    map k | k in s.items :: FinishItem(s, k)
  }

  predicate DepsAccepted(items: map<Key, Item>, deps: set<(Key, Key)>, k: Key) {
    forall e | e in deps && e.0 == k :: e.1 in items && items[e.1].lifecycle == Accepted
  }

  predicate Unlocks(items: map<Key, Item>, deps: set<(Key, Key)>, k: Key) {
    k in items && items[k].lifecycle == Pending && DepsAccepted(items, deps, k)
  }

  function Unlock(items: map<Key, Item>, deps: set<(Key, Key)>): map<Key, Item> {
    map k | k in items ::
      if Unlocks(items, deps, k) then items[k].(lifecycle := Ready, version := items[k].version + 1) else items[k]
  }

  function FinishedOf(s: State, order: seq<Key>): seq<Key> {
    if order == [] then []
    else
      var before, k := FinishedOf(s, order[..|order| - 1]), order[|order| - 1];
      if Finishing(s, k) then before + [k] else before
  }

  predicate Wakeable(m: Mission) {
    m.autonomous && m.lifecycle !in {Cancelling, Paused, MissionLifecycle.Cancelled, MissionLifecycle.Completed, Archived}
  }

  function WakeupsAfter(s: State, k: Key): map<WakeupKey, Wakeup>
    requires k in s.items && s.items[k].run.Some?
  {
    var wk := RunTerminal(s.items[k].run.value, s.items[k].lifecycle);
    if Wakeable(s.mission) && wk !in s.wakeups
    then s.wakeups[wk := Wakeup(s.mission.directive, s.mission.team, s.cursor + 1, Some(k), s.items[k].run, WakeupPending)]
    else s.wakeups
  }

  function MissionAfter(s: State, k: Key): Mission
    requires k in s.items && s.items[k].run.Some?
  {
    if s.mission.lifecycle == Cancelling then s.mission.(lifecycle := MissionLifecycle.Cancelled)
    else if Wakeable(s.mission) && RunTerminal(s.items[k].run.value, s.items[k].lifecycle) !in s.wakeups
    then s.mission.(version := s.mission.version + 1)
    else s.mission
  }

  /** The event, the cursor and the wakeup for one item that became terminal. */
  function AnnounceOne(s: State, k: Key): (t: State)
    requires k in s.items && s.items[k].run.Some?
    ensures t.items == s.items[k := s.items[k].(cursor := Some(s.cursor + 1))]
    ensures t.items.Keys == s.items.Keys
  {
    s.(items := s.items[k := s.items[k].(cursor := Some(s.cursor + 1))],
       wakeups := WakeupsAfter(s, k),
       mission := MissionAfter(s, k),
       cursor := s.cursor + 1)
  }

  function Announce(s: State, done: seq<Key>): (t: State)
    requires forall k | k in done :: k in s.items && s.items[k].run.Some?
    ensures t.items.Keys == s.items.Keys
    ensures forall k | k in s.items :: t.items[k].run == s.items[k].run
  {
    if done == [] then s
    else
      var k := done[|done| - 1];
      assert k in done;
      AnnounceOne(Announce(s, done[..|done| - 1]), k)
  }

  lemma {:induction false} FinishedOfIs(s: State, order: seq<Key>)
    ensures forall k :: k in FinishedOf(s, order) <==> k in order && Finishing(s, k)
  {
    if order != [] {
      FinishedOfIs(s, order[..|order| - 1]);
      assert order == order[..|order| - 1] + [order[|order| - 1]];
    }
  }

  /** After runs were read: items finished, pending items unlocked, nothing announced yet. */
  function Settled(s: State, order: seq<Key>): State
    requires Lists(s, order)
  {
    s.(items := Unlock(FinishItems(s), s.deps),
       mission := s.mission.(lifecycle := Relabel(s, order)))
  }

  function EmitMore(s: State, count: nat): State {
    s.(cursor := s.cursor + count)
  }

  function ReconcileTx(s: State, order: seq<Key>): State
    requires Lists(s, order)
  {
    FinishedOfIs(s, order);
    EmitMore(Announce(Settled(s, order), FinishedOf(s, order)),
             |set k | k in s.items && Unlocks(FinishItems(s), s.deps, k)|)
  }

  // ------------------------------------------------------------------ launch from the API

  /** First transaction: the guards; nothing in the backlog is written. */
  function LaunchCheckTx(s: State, pid: nat, k: Key, admitted: bool): State {
    if && pid !in s.launches && k in s.items && s.items[k].run.None? && Dispatchable(s, k)
       && DepsAccepted(s.items, s.deps, k) && admitted
    then s.(launches := s.launches[pid := Checked(k, JobRequest(s.items[k].body, s.items[k].priority, s.mission.team))])
    else s
  }

  function EndLaunch(s: State, pid: nat): State {
    s.(launches := s.launches - {pid})
  }

  /** Second transaction: the idempotent enqueue. A refusal ends the launch. */
  function LaunchEnqueueTx(s: State, pid: nat, available: bool): State {
    if pid !in s.launches || !s.launches[pid].Checked? then s
    else
      var k, request := s.launches[pid].key, s.launches[pid].request;
      if !available || (k in s.jobs && s.jobs[k].request != request) then EndLaunch(s, pid)
      else if k in s.jobs then s.(launches := s.launches[pid := Enqueued(k, s.jobs[k].run)])
      else
        var run := EnqueuedRun(s.serial);
        s.(jobs := s.jobs[k := StoredJob(request, run)],
           runs := s.runs[run := Queued],
           launches := s.launches[pid := Enqueued(k, run)],
           serial := s.serial + 1,
           cursor := s.cursor + 3)
  }

  function LaunchedItem(item: Item, r: RunId): Item {
    item.(run := Some(r), lifecycle := Started, version := item.version + 1)
  }

  predicate MayFinish(s: State, pid: nat) {
    && pid in s.launches && s.launches[pid].Enqueued? && s.launches[pid].key in s.items
    && var run := s.items[s.launches[pid].key].run;
    run.None? || run.value == s.launches[pid].run
  }

  /** Third transaction: only here is the item locked, and only its run id is checked. */
  function LaunchFinishTx(s: State, pid: nat): State {
    if pid !in s.launches || !s.launches[pid].Enqueued? then s
    else if !MayFinish(s, pid) then EndLaunch(s, pid)
    else
      var k := s.launches[pid].key;
      s.(items := s.items[k := LaunchedItem(s.items[k], s.launches[pid].run)],
         launches := s.launches - {pid},
         mission := s.mission.(version := s.mission.version + 1),
         cursor := s.cursor + 1)
  }

  // ------------------------------------------------------------------ the other writers

  function MessageTx(s: State): State {
    if s.mission.lifecycle in {Cancelling, MissionLifecycle.Cancelled, MissionLifecycle.Completed, Archived} then s
    else
      var wk := UserDirection(s.serial);
      s.(wakeups := s.wakeups[wk := Wakeup(s.mission.directive, s.mission.team, s.cursor, None, None, TurnQueued)],
         turns := s.turns[ForMessage(s.serial) := Turn(s.mission.directive, s.mission.team, Some(wk), s.cursor, TurnOpen)],
         mission := s.mission.(version := s.mission.version + 1),
         serial := s.serial + 1,
         cursor := s.cursor + 1)
  }

  function MaterializeTx(s: State, wk: WakeupKey, admitted: bool): State {
    if || wk !in s.wakeups || s.wakeups[wk].status != WakeupPending || !s.mission.autonomous || !admitted
       || s.mission.lifecycle in {Paused, Cancelling, MissionLifecycle.Cancelled, MissionLifecycle.Completed, Archived}
    then s
    else if s.mission.directive != s.wakeups[wk].directive || s.mission.team != s.wakeups[wk].team then
      s.(wakeups := s.wakeups[wk := s.wakeups[wk].(status := WakeupStale)])
    else if exists t | t in s.turns :: s.turns[t].status == TurnOpen then s
    else
      var t := ForWakeup(wk);
      s.(wakeups := s.wakeups[wk := s.wakeups[wk].(status := TurnQueued)],
         turns := if t in s.turns then s.turns
                  else s.turns[t := Turn(s.mission.directive, s.mission.team, Some(wk), s.wakeups[wk].cursor, TurnOpen)])
  }

  function FailTurnTx(s: State, t: TurnId, block: bool): State {
    if t !in s.turns || s.turns[t].status in {TurnApplied, TurnStale} then s
    else s.(turns := s.turns[t := s.turns[t].(status := TurnFailed)],
            wakeups := MarkWakeup(s.wakeups, s.turns[t].wakeup, WakeupFailed),
            mission := if block then s.mission.(lifecycle := MissionLifecycle.Blocked) else s.mission,
            cursor := s.cursor + 1)
  }

  /** The run of this item is executing somewhere; its worker may label the mission. */
  predicate Executing(s: State, k: Key) {
    && k in s.items && s.items[k].run.Some? && s.items[k].run.value in s.runs
    && RunActive(s.runs[s.items[k].run.value])
  }

  /**
    One turn of a worker's wait for a slot. Only a stop requested of its own run ends the
    wait; the mission's label is overwritten whatever it was.
   */
  function AwaitSlotTx(s: State, k: Key, stopped: bool): State {
    if Executing(s, k) && !stopped then s.(mission := s.mission.(lifecycle := WaitingForCapacity)) else s
  }

  function TakeSlotTx(s: State, k: Key): State {
    if Executing(s, k) && s.mission.lifecycle == WaitingForCapacity
    then s.(mission := s.mission.(lifecycle := Active)) else s
  }

  // ------------------------------------------------------------------ runs of the whole system

  datatype Op =
    | Apply(turn: TurnId, decision: Decision, admitted: bool)
    | Dispatch(key: Key, gate: DispatchGate, activeLimit: nat)
    | Reconcile(order: seq<Key>)
    | LaunchCheck(pid: nat, key: Key, admitted: bool)
    | LaunchEnqueue(pid: nat, available: bool)
    | LaunchFinish(pid: nat)
    | LaunchCrash(pid: nat)
    | RunChange(run: RunId, status: RunStatus)
    | Message
    | Materialize(wakeup: WakeupKey, admitted: bool)
    | FailTurn(turn: TurnId, block: bool)
    | ReviseDirective
    | ReviseTeam(team: nat)
    | Control(lifecycle: MissionLifecycle, autonomous: bool)
    | AwaitSlot(key: Key, stopped: bool)
    | TakeSlot(key: Key)
    | OtherEvents(count: nat)

  /** Only validated responses are applied; every other step may come at any time. */
  ghost predicate Legal(op: Op) {
    op.Apply? ==> Judge(op.decision) == NoFault
  }

  function Step(s: State, op: Op): State {
    match op
    case Apply(t, d, admitted) => if t in s.turns then ApplyTx(s, t, d, admitted) else s
    case Dispatch(k, gate, limit) => DispatchTx(s, k, gate, limit)
    case Reconcile(order) => if Lists(s, order) then ReconcileTx(s, order) else s
    case _ => if IsLaunch(op) then LaunchTx(s, op) else if IsTurn(op) then TurnTx(s, op) else OwnerTx(s, op)
  }

  predicate IsLaunch(op: Op) { op.LaunchCheck? || op.LaunchEnqueue? || op.LaunchFinish? }

  function LaunchTx(s: State, op: Op): State
    requires IsLaunch(op)
  {
    match op
    case LaunchCheck(pid, k, admitted) => LaunchCheckTx(s, pid, k, admitted)
    case LaunchEnqueue(pid, available) => LaunchEnqueueTx(s, pid, available)
    case LaunchFinish(pid) => LaunchFinishTx(s, pid)
  }

  predicate IsTurn(op: Op) { op.Message? || op.Materialize? || op.FailTurn? }

  function TurnTx(s: State, op: Op): State
    requires IsTurn(op)
  {
    match op
    case Message => MessageTx(s)
    case Materialize(wk, admitted) => MaterializeTx(s, wk, admitted)
    case FailTurn(t, block) => FailTurnTx(s, t, block)
  }

  /** Crashes, run progress, workers' labels, owner commands and events written for other missions. */
  function OwnerTx(s: State, op: Op): State {
    match op
    case ReviseDirective =>
      if s.mission.lifecycle in {Cancelling, MissionLifecycle.Cancelled, MissionLifecycle.Completed, Archived} then s
      else s.(mission := s.mission.(directive := s.mission.directive + 1, version := s.mission.version + 1), cursor := s.cursor + 1)
    case ReviseTeam(team) => s.(mission := s.mission.(team := team, version := s.mission.version + 1), cursor := s.cursor + 1)
    case Control(l, autonomous) =>
      s.(mission := s.mission.(lifecycle := l, autonomous := autonomous, version := s.mission.version + 1), cursor := s.cursor + 1)
    case OtherEvents(n) => s.(cursor := s.cursor + n)
    case AwaitSlot(k, stopped) => AwaitSlotTx(s, k, stopped)
    case TakeSlot(k) => TakeSlotTx(s, k)
    case LaunchCrash(pid) => EndLaunch(s, pid)
    case RunChange(r, status) => if r in s.runs then s.(runs := s.runs[r := status]) else s
    case _ => s
  }

  function Run(s: State, ops: seq<Op>): State {
    if ops == [] then s else Step(Run(s, ops[..|ops| - 1]), ops[|ops| - 1])
  }

  ghost predicate LegalRun(ops: seq<Op>) {
    forall op | op in ops :: Legal(op)
  }

  /** A mission just created: no items, no runs, nothing in flight. */
  predicate Initial(s: State) {
    s.items == map[] && s.deps == {} && s.runs == map[] && s.jobs == map[]
    && s.launches == map[] && s.wakeups == map[] && s.turns == map[]
  }
}
