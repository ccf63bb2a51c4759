/**
  What every step keeps, over all interleavings, and what additionally holds when
  each launch from the API finishes while its item is still ready or started.
 */
module BacklogSafety {
  import opened Wrappers
  import opened Graphs
  import opened Decisions
  import opened Backlog

  predicate Unstarted(l: ItemLifecycle) { l in {Pending, Ready} }

  /** `r` is the run this item may carry: its derived one, or the one stored for it. */
  predicate Owns(s: State, k: Key, r: RunId) {
    r == AutoRun(k) || (k in s.jobs && s.jobs[k].run == r)
  }

  ghost predicate ForeignKeys(s: State) {
    && (forall e | e in s.deps :: e.0 in s.items && e.1 in s.items)
    && (forall t | t in s.turns && s.turns[t].wakeup.Some? :: s.turns[t].wakeup.value in s.wakeups)
  }

  ghost predicate RunDiscipline(s: State) {
    && (forall k | k in s.items :: Unstarted(s.items[k].lifecycle) <==> s.items[k].run.None?)
    && (forall k | k in s.items && s.items[k].run.Some? ::
          s.items[k].run.value in s.runs && Owns(s, k, s.items[k].run.value))
  }

  ghost predicate JobDiscipline(s: State) {
    && (forall k | k in s.jobs :: s.jobs[k].run in s.runs && s.jobs[k].run.EnqueuedRun? && s.jobs[k].run.serial < s.serial)
    && (forall k, l | k in s.jobs && l in s.jobs && s.jobs[k].run == s.jobs[l].run :: k == l)
    && (forall pid | pid in s.launches :: s.launches[pid].key in s.items)
    && (forall pid | pid in s.launches && s.launches[pid].Enqueued? ::
          s.launches[pid].key in s.jobs && s.jobs[s.launches[pid].key].run == s.launches[pid].run)
  }

  /** Holds in every state the service can reach, whatever comes between its transactions. */
  ghost predicate Inv(s: State) {
    ForeignKeys(s) && Acyclic(s.deps) && RunDiscipline(s) && JobDiscipline(s)
  }

  // ------------------------------------------------------------------ every step keeps the invariant

  lemma EdgesInside(items: seq<Proposal>)
    requires DependenciesInside(items)
    ensures forall e | e in Edges(items) :: e.0 in Keys(items) && e.1 in Keys(items)
  {
    forall e | e in Edges(items) ensures e.0 in Keys(items) && e.1 in Keys(items) {
      var p, d :| p in items && d in p.dependencies && e == (p.key, d);
      assert d in DependencySet(p);
    }
  }

  /** Applying a decision keeps the whole dependency graph acyclic. */
  lemma ReplanAcyclic(s: State, items: seq<Proposal>)
    requires Acyclic(s.deps) && DependenciesInside(items) && Acyclic(Edges(items))
    ensures Acyclic(ReplanDeps(s.deps, items))
  {
    EdgesInside(items);
    ReplanKeepsAcyclic(s.deps, Keys(items), Edges(items), ReplanDeps(s.deps, items));
  }

  lemma ReplannedRow(s: State, items: seq<Proposal>, turn: Turn, k: Key)
    requires k in Keys(items) && RunDiscipline(s)
    requires forall p | p in items :: Updatable(s.items, p)
    ensures k in Replan(s.items, items, turn)
    ensures Unstarted(Replan(s.items, items, turn)[k].lifecycle) && Replan(s.items, items, turn)[k].run.None?
  {
    var p := Proposed(items, k);
    assert Updatable(s.items, p);
  }

  // Each part of the invariant is carried from one state to the next by what a step leaves alone.

  ghost predicate RowKept(s: State, t: State, k: Key) {
    k in s.items && k in t.items && t.items[k].run == s.items[k].run
    && (Unstarted(t.items[k].lifecycle) <==> Unstarted(s.items[k].lifecycle))
  }

  ghost predicate RowOpen(t: State, k: Key) {
    k in t.items && Unstarted(t.items[k].lifecycle) && t.items[k].run.None?
  }

  ghost predicate RowLaunched(t: State, k: Key) {
    k in t.items && !Unstarted(t.items[k].lifecycle) && t.items[k].run.Some?
    && t.items[k].run.value in t.runs && Owns(t, k, t.items[k].run.value)
  }

  lemma KeepRunDiscipline(s: State, t: State)
    requires RunDiscipline(s) && s.runs.Keys <= t.runs.Keys
    requires forall k | k in s.jobs :: k in t.jobs && t.jobs[k].run == s.jobs[k].run
    requires forall k | k in t.items :: RowKept(s, t, k) || RowOpen(t, k) || RowLaunched(t, k)
    ensures RunDiscipline(t)
  {
    forall k | k in t.items
      ensures Unstarted(t.items[k].lifecycle) <==> t.items[k].run.None?
      ensures t.items[k].run.Some? ==> t.items[k].run.value in t.runs && Owns(t, k, t.items[k].run.value)
    {
      if RowKept(s, t, k) {
        assert k in s.items;
      }
    }
  }

  lemma KeepJobDiscipline(s: State, t: State)
    requires JobDiscipline(s) && s.runs.Keys <= t.runs.Keys && t.jobs == s.jobs && t.serial >= s.serial
    requires s.items.Keys <= t.items.Keys && t.launches.Keys <= s.launches.Keys
    requires forall pid | pid in t.launches :: t.launches[pid] == s.launches[pid]
    ensures JobDiscipline(t)
  {
  }

  lemma KeepForeignKeys(s: State, t: State)
    requires ForeignKeys(s) && s.wakeups.Keys <= t.wakeups.Keys
    requires forall e | e in t.deps :: e in s.deps || (e.0 in t.items && e.1 in t.items)
    requires s.items.Keys <= t.items.Keys
    requires forall n | n in t.turns && t.turns[n].wakeup.Some? ::
               (n in s.turns && t.turns[n].wakeup == s.turns[n].wakeup) || t.turns[n].wakeup.value in t.wakeups
    ensures ForeignKeys(t)
  {
  }

  lemma ApplyRunDiscipline(s: State, t: State, items: seq<Proposal>, turn: Turn)
    requires RunDiscipline(s) && forall p | p in items :: Updatable(s.items, p)
    requires t.items == Replan(s.items, items, turn) && t.runs == s.runs && t.jobs == s.jobs
    ensures RunDiscipline(t)
  {
    forall k | k in t.items ensures RowKept(s, t, k) || RowOpen(t, k) {
      if k in Keys(items) {
        ReplannedRow(s, items, turn, k);
      }
    }
    KeepRunDiscipline(s, t);
  }

  /** Announcing finished items touches only their cursors, the wakeups and the mission. */
  ghost predicate OnlyAnnounced(s: State, t: State, done: seq<Key>) {
    && t.deps == s.deps && t.runs == s.runs && t.jobs == s.jobs && t.launches == s.launches
    && t.turns == s.turns && t.serial == s.serial
    && t.cursor == s.cursor + |done|
    && (forall wk | wk in s.wakeups :: wk in t.wakeups && t.wakeups[wk] == s.wakeups[wk])
    && t.items.Keys == s.items.Keys
    && (forall k | k in s.items :: t.items[k] == s.items[k].(cursor := t.items[k].cursor))
    && (forall k | k in s.items && k !in done :: t.items[k] == s.items[k])
  }

  lemma AnnounceOneRest(t: State, k: Key)
    requires k in t.items && t.items[k].run.Some?
    ensures var u := AnnounceOne(t, k);
      && u.deps == t.deps && u.runs == t.runs && u.jobs == t.jobs && u.launches == t.launches
      && u.turns == t.turns && u.serial == t.serial && u.cursor == t.cursor + 1
      && (forall wk | wk in t.wakeups :: wk in u.wakeups && u.wakeups[wk] == t.wakeups[wk])
  {
  }

  lemma AnnounceOneFrame(s: State, t: State, done: seq<Key>, k: Key)
    requires OnlyAnnounced(s, t, done) && k in t.items && t.items[k].run.Some?
    ensures OnlyAnnounced(s, AnnounceOne(t, k), done + [k])
  {
    var u := AnnounceOne(t, k);
    AnnounceOneRest(t, k);
    var c := t.cursor + 1;
    assert u.items == t.items[k := t.items[k].(cursor := Some(c))];
    assert k in done + [k];
    forall l | l in s.items
      ensures u.items[l] == s.items[l].(cursor := u.items[l].cursor)
    {
      assert t.items[l] == s.items[l].(cursor := t.items[l].cursor);
    }
    forall l | l in s.items && l !in done + [k]
      ensures u.items[l] == s.items[l]
    {
      assert l !in done;
    }
  }

  lemma {:induction false} AnnounceFrame(s: State, done: seq<Key>)
    requires forall k | k in done :: k in s.items && s.items[k].run.Some?
    ensures OnlyAnnounced(s, Announce(s, done), done)
  {
    if done != [] {
      var rest, k := done[..|done| - 1], done[|done| - 1];
      assert done == rest + [k] && k in done;
      AnnounceFrame(s, rest);
      AnnounceOneFrame(s, Announce(s, rest), rest, k);
    }
  }

  lemma SettledRow(s: State, order: seq<Key>, k: Key)
    requires Lists(s, order) && k in s.items
    ensures var t := Settled(s, order);
      && k in t.items
      && t.items[k] == s.items[k].(lifecycle := t.items[k].lifecycle, version := t.items[k].version)
      && (Finishing(s, k) ==> t.items[k].lifecycle == OutcomeOf(s, k))
      && (!Finishing(s, k) ==>
            t.items[k].lifecycle == if Unlocks(FinishItems(s), s.deps, k) then Ready else s.items[k].lifecycle)
  {
  }

  /** What one reconciliation does to one row. */
  ghost predicate ReconciledRow(s: State, t: State, k: Key)
    requires k in s.items && k in t.items
  {
    && t.items[k] == s.items[k].(lifecycle := t.items[k].lifecycle, version := t.items[k].version, cursor := t.items[k].cursor)
    && (Finishing(s, k) ==> t.items[k].lifecycle == OutcomeOf(s, k))
    && (!Finishing(s, k) ==>
          t.items[k].lifecycle == (if Unlocks(FinishItems(s), s.deps, k) then Ready else s.items[k].lifecycle)
          && t.items[k].cursor == s.items[k].cursor)
  }

  lemma ReconciledRowIs(s: State, order: seq<Key>, t: State, k: Key)
    requires Lists(s, order) && k in s.items
    requires forall l | l in FinishedOf(s, order) :: Finishing(s, l)
    requires OnlyAnnounced(Settled(s, order), t, FinishedOf(s, order))
    requires k in FinishedOf(s, order) <==> Finishing(s, k)
    ensures k in t.items && ReconciledRow(s, t, k)
  {
    SettledRow(s, order, k);
    var m := Settled(s, order);
    assert t.items[k] == m.items[k].(cursor := t.items[k].cursor);
  }

  /** Both leave everything alone that a reconciliation has no business with. */
  ghost predicate SameRest(s: State, t: State) {
    && t.deps == s.deps && t.runs == s.runs && t.jobs == s.jobs && t.launches == s.launches
    && t.turns == s.turns && t.serial == s.serial && t.items.Keys == s.items.Keys
    && (forall wk | wk in s.wakeups :: wk in t.wakeups && t.wakeups[wk] == s.wakeups[wk])
  }

  lemma SettledRest(s: State, order: seq<Key>)
    requires Lists(s, order)
    ensures SameRest(s, Settled(s, order)) && Settled(s, order).wakeups == s.wakeups
  {
  }

  lemma AnnouncedRest(s: State, m: State, t: State, done: seq<Key>)
    requires SameRest(s, m) && m.wakeups == s.wakeups && OnlyAnnounced(m, t, done)
    ensures SameRest(s, t)
  {
  }

  lemma ReconcileFrame(s: State, order: seq<Key>)
    requires Lists(s, order)
    ensures SameRest(s, ReconcileTx(s, order))
    ensures forall k | k in s.items :: ReconciledRow(s, ReconcileTx(s, order), k)
  {
    FinishedOfIs(s, order);
    SettledRest(s, order);
    AnnounceFrame(Settled(s, order), FinishedOf(s, order));
    var told := Announce(Settled(s, order), FinishedOf(s, order));
    AnnouncedRest(s, Settled(s, order), told, FinishedOf(s, order));
    forall k | k in s.items ensures ReconciledRow(s, told, k) {
      ReconciledRowIs(s, order, told, k);
    }
  }

  lemma ReconcileKeepsRow(s: State, order: seq<Key>, k: Key)
    requires Lists(s, order) && k in s.items && (s.items[k].lifecycle == Pending ==> s.items[k].run.None?)
    ensures RowKept(s, ReconcileTx(s, order), k)
  {
    ReconcileFrame(s, order);
    assert ReconciledRow(s, ReconcileTx(s, order), k);
  }

  lemma ReconcileRuns(s: State, order: seq<Key>)
    requires RunDiscipline(s) && Lists(s, order)
    ensures RunDiscipline(ReconcileTx(s, order))
  {
    var t := ReconcileTx(s, order);
    assert t.items.Keys == s.items.Keys && t.runs == s.runs && t.jobs == s.jobs by { ReconcileFrame(s, order); }
    forall k | k in t.items ensures RowKept(s, t, k) {
      ReconcileKeepsRow(s, order, k);
    }
    KeepRunDiscipline(s, t);
  }

  lemma FreshJob(s: State, t: State, pid: nat, k: Key, request: JobRequest)
    requires JobDiscipline(s) && k in s.items && k !in s.jobs
    requires t.items == s.items && t.serial == s.serial + 1
    requires t.jobs == s.jobs[k := StoredJob(request, EnqueuedRun(s.serial))]
    requires t.runs == s.runs[EnqueuedRun(s.serial) := Queued]
    requires t.launches == s.launches[pid := Enqueued(k, EnqueuedRun(s.serial))]
    ensures JobDiscipline(t)
  {
    assert forall l | l in t.jobs && l != k :: l in s.jobs && t.jobs[l] == s.jobs[l];
  }

  lemma LaunchedRow(s: State, t: State, k: Key, r: RunId)
    requires RunDiscipline(s) && k in s.items && r in t.runs && Owns(s, k, r)
    requires s.runs.Keys <= t.runs.Keys && t.jobs == s.jobs && t.items.Keys == s.items.Keys
    requires forall l | l in s.items && l != k :: t.items[l] == s.items[l]
    requires t.items[k].run == Some(r) && t.items[k].lifecycle == Started
    ensures RunDiscipline(t)
  {
    forall l | l in t.items ensures RowKept(s, t, l) || RowLaunched(t, l) {
      if l == k {
        assert RowLaunched(t, k);
      } else {
        assert RowKept(s, t, l);
      }
    }
    KeepRunDiscipline(s, t);
  }

  lemma SameRuns(s: State, t: State)
    requires RunDiscipline(s) && t.items == s.items && s.runs.Keys <= t.runs.Keys
    requires forall k | k in s.jobs :: k in t.jobs && t.jobs[k].run == s.jobs[k].run
    ensures RunDiscipline(t)
  {
    assert forall k | k in t.items :: RowKept(s, t, k);
    KeepRunDiscipline(s, t);
  }

  // ------------------------------------------------------------------ one step, part by part

  lemma CommitKeys(s: State, t: TurnId, d: Decision)
    requires ForeignKeys(s) && t in s.turns && DependenciesInside(d.items)
    ensures ForeignKeys(Commit(s, t, d))
  {
    EdgesInside(d.items);
    KeepForeignKeys(s, Commit(s, t, d));
  }

  lemma ApplyKeys(s: State, t: TurnId, d: Decision, admitted: bool)
    requires ForeignKeys(s) && t in s.turns && Judge(d) == NoFault
    ensures ForeignKeys(ApplyTx(s, t, d, admitted))
  {
    match ApplyVerdict(s, s.turns[t], d, admitted)
    case AppliedNow => CommitKeys(s, t, d);
    case WentStale => KeepForeignKeys(s, GoStale(s, t));
    case _ =>
  }

  lemma ReconcileKeys(s: State, order: seq<Key>)
    requires ForeignKeys(s) && Lists(s, order)
    ensures ForeignKeys(ReconcileTx(s, order))
  {
    ReconcileFrame(s, order);
    KeepForeignKeys(s, ReconcileTx(s, order));
  }

  lemma LaunchKeys(s: State, op: Op)
    requires ForeignKeys(s) && IsLaunch(op)
    ensures ForeignKeys(LaunchTx(s, op))
  {
    KeepForeignKeys(s, LaunchTx(s, op));
  }

  lemma MessageKeys(s: State)
    requires ForeignKeys(s)
    ensures ForeignKeys(MessageTx(s))
  {
    KeepForeignKeys(s, MessageTx(s));
  }

  lemma MaterializeKeys(s: State, wk: WakeupKey, admitted: bool)
    requires ForeignKeys(s)
    ensures ForeignKeys(MaterializeTx(s, wk, admitted))
  {
    KeepForeignKeys(s, MaterializeTx(s, wk, admitted));
  }

  lemma FailTurnKeys(s: State, t: TurnId, block: bool)
    requires ForeignKeys(s)
    ensures ForeignKeys(FailTurnTx(s, t, block))
  {
    KeepForeignKeys(s, FailTurnTx(s, t, block));
  }

  lemma TurnKeys(s: State, op: Op)
    requires ForeignKeys(s) && IsTurn(op)
    ensures ForeignKeys(TurnTx(s, op))
  {
    match op
    case Message => MessageKeys(s);
    case Materialize(wk, admitted) => MaterializeKeys(s, wk, admitted);
    case FailTurn(t, block) => FailTurnKeys(s, t, block);
  }

  lemma OwnerKeys(s: State, op: Op)
    requires ForeignKeys(s)
    ensures ForeignKeys(OwnerTx(s, op))
  {
    KeepForeignKeys(s, OwnerTx(s, op));
  }

  lemma ApplyRuns(s: State, t: TurnId, d: Decision, admitted: bool)
    requires RunDiscipline(s) && t in s.turns
    ensures RunDiscipline(ApplyTx(s, t, d, admitted))
  {
    match ApplyVerdict(s, s.turns[t], d, admitted)
    case AppliedNow => ApplyRunDiscipline(s, Commit(s, t, d), d.items, s.turns[t]);
    case WentStale => SameRuns(s, GoStale(s, t));
    case _ =>
  }

  /** A dispatch leaves all rows alone, or starts this ready item on its derived run. */
  ghost predicate DispatchFrame(s: State, t: State, k: Key) {
    && t.deps == s.deps && t.jobs == s.jobs && t.launches == s.launches
    && t.wakeups == s.wakeups && t.turns == s.turns && t.serial == s.serial
    && s.runs.Keys <= t.runs.Keys
    && (|| t.items == s.items
        || (k in s.items && s.items[k].lifecycle == Ready && AutoRun(k) in t.runs
            && t.items == s.items[k := LaunchedItem(s.items[k], AutoRun(k))]))
  }

  lemma StartIs(s: State, k: Key)
    requires k in s.items && s.items[k].lifecycle == Ready
    ensures DispatchFrame(s, StartTx(s, k), k)
  {
  }

  lemma LabelIs(s: State, m: Mission, k: Key)
    ensures DispatchFrame(s, s.(mission := m), k)
  {
  }

  lemma DispatchIs(s: State, k: Key, gate: DispatchGate, limit: nat)
    ensures DispatchFrame(s, DispatchTx(s, k, gate, limit), k)
  {
    if MayDispatch(s.mission) && Dispatchable(s, k) && gate != AdmissionDenied {
      var held := HeldBack(s, gate, limit);
      if held.Some? {
        LabelIs(s, s.mission.(lifecycle := held.value), k);
      } else {
        StartIs(s, k);
      }
    }
  }

  lemma FrameRuns(s: State, t: State, k: Key)
    requires RunDiscipline(s) && DispatchFrame(s, t, k)
    ensures RunDiscipline(t)
  {
    if t.items == s.items {
      SameRuns(s, t);
    } else {
      LaunchedRow(s, t, k, AutoRun(k));
    }
  }

  lemma FrameRest(s: State, t: State, k: Key)
    requires ForeignKeys(s) && JobDiscipline(s) && DispatchFrame(s, t, k)
    ensures ForeignKeys(t) && JobDiscipline(t)
  {
    KeepForeignKeys(s, t);
    KeepJobDiscipline(s, t);
  }

  lemma FinishRuns(s: State, pid: nat)
    requires RunDiscipline(s) && JobDiscipline(s)
    ensures RunDiscipline(LaunchFinishTx(s, pid))
  {
    if MayFinish(s, pid) {
      LaunchedRow(s, LaunchFinishTx(s, pid), s.launches[pid].key, s.launches[pid].run);
    } else {
      SameRuns(s, LaunchFinishTx(s, pid));
    }
  }

  lemma LaunchRuns(s: State, op: Op)
    requires RunDiscipline(s) && JobDiscipline(s) && IsLaunch(op)
    ensures RunDiscipline(LaunchTx(s, op))
  {
    match op
    case LaunchFinish(pid) => FinishRuns(s, pid);
    case LaunchCheck(pid, k, admitted) => SameRuns(s, LaunchCheckTx(s, pid, k, admitted));
    case LaunchEnqueue(pid, available) => SameRuns(s, LaunchEnqueueTx(s, pid, available));
  }

  lemma TurnRuns(s: State, op: Op)
    requires RunDiscipline(s) && IsTurn(op)
    ensures RunDiscipline(TurnTx(s, op))
  {
    SameRuns(s, TurnTx(s, op));
  }

  lemma OwnerRuns(s: State, op: Op)
    requires RunDiscipline(s)
    ensures RunDiscipline(OwnerTx(s, op))
  {
    SameRuns(s, OwnerTx(s, op));
  }

  lemma EnqueueJobs(s: State, pid: nat, available: bool)
    requires JobDiscipline(s)
    ensures JobDiscipline(LaunchEnqueueTx(s, pid, available))
  {
    if pid in s.launches && s.launches[pid].Checked? && available && s.launches[pid].key !in s.jobs {
      FreshJob(s, LaunchEnqueueTx(s, pid, available), pid, s.launches[pid].key, s.launches[pid].request);
    }
  }

  lemma ApplyJobs(s: State, t: TurnId, d: Decision, admitted: bool)
    requires JobDiscipline(s) && t in s.turns
    ensures JobDiscipline(ApplyTx(s, t, d, admitted))
  {
    match ApplyVerdict(s, s.turns[t], d, admitted)
    case AppliedNow => KeepJobDiscipline(s, Commit(s, t, d));
    case WentStale => KeepJobDiscipline(s, GoStale(s, t));
    case _ =>
  }

  lemma ReconcileJobs(s: State, order: seq<Key>)
    requires JobDiscipline(s) && Lists(s, order)
    ensures JobDiscipline(ReconcileTx(s, order))
  {
    ReconcileFrame(s, order);
    KeepJobDiscipline(s, ReconcileTx(s, order));
  }

  lemma LaunchJobs(s: State, op: Op)
    requires JobDiscipline(s) && IsLaunch(op)
    ensures JobDiscipline(LaunchTx(s, op))
  {
    match op
    case LaunchFinish(pid) => KeepJobDiscipline(s, LaunchFinishTx(s, pid));
    case LaunchCheck(pid, k, admitted) =>
    case LaunchEnqueue(pid, available) => EnqueueJobs(s, pid, available);
  }

  lemma TurnJobs(s: State, op: Op)
    requires JobDiscipline(s) && IsTurn(op)
    ensures JobDiscipline(TurnTx(s, op))
  {
    KeepJobDiscipline(s, TurnTx(s, op));
  }

  lemma OwnerLeavesJobs(s: State, op: Op)
    ensures var t := OwnerTx(s, op);
      && t.items == s.items && t.jobs == s.jobs && t.serial == s.serial && t.runs.Keys == s.runs.Keys
      && t.launches.Keys <= s.launches.Keys && forall pid | pid in t.launches :: t.launches[pid] == s.launches[pid]
  {
  }

  lemma OwnerJobs(s: State, op: Op)
    requires JobDiscipline(s)
    ensures JobDiscipline(OwnerTx(s, op))
  {
    OwnerLeavesJobs(s, op);
    KeepJobDiscipline(s, OwnerTx(s, op));
  }

  // ------------------------------------------------------------------ one step, whole

  lemma ApplyInv(s: State, t: TurnId, d: Decision, admitted: bool)
    requires Inv(s) && t in s.turns && Judge(d) == NoFault
    ensures Inv(ApplyTx(s, t, d, admitted))
  {
    ApplyKeys(s, t, d, admitted);
    ApplyRuns(s, t, d, admitted);
    ApplyJobs(s, t, d, admitted);
    ReplanAcyclic(s, d.items);
  }

  lemma DispatchInv(s: State, k: Key, gate: DispatchGate, limit: nat)
    requires Inv(s)
    ensures Inv(DispatchTx(s, k, gate, limit))
  {
    DispatchIs(s, k, gate, limit);
    FrameRest(s, DispatchTx(s, k, gate, limit), k);
    FrameRuns(s, DispatchTx(s, k, gate, limit), k);
  }

  lemma ReconcileInv(s: State, order: seq<Key>)
    requires Inv(s) && Lists(s, order)
    ensures Inv(ReconcileTx(s, order))
  {
    ReconcileKeys(s, order);
    ReconcileRuns(s, order);
    ReconcileJobs(s, order);
    assert ReconcileTx(s, order).deps == s.deps by { ReconcileFrame(s, order); }
  }

  lemma LaunchInv(s: State, op: Op)
    requires Inv(s) && IsLaunch(op)
    ensures Inv(LaunchTx(s, op))
  {
    LaunchKeys(s, op);
    LaunchRuns(s, op);
    LaunchJobs(s, op);
  }

  lemma TurnInv(s: State, op: Op)
    requires Inv(s) && IsTurn(op)
    ensures Inv(TurnTx(s, op))
  {
    TurnKeys(s, op);
    TurnRuns(s, op);
    TurnJobs(s, op);
  }

  lemma OwnerInv(s: State, op: Op)
    requires Inv(s)
    ensures Inv(OwnerTx(s, op))
  {
    OwnerKeys(s, op);
    OwnerRuns(s, op);
    OwnerJobs(s, op);
  }

  /** No transaction, in any order and with any crash in between, breaks the invariant. */
  lemma StepInv(s: State, op: Op)
    requires Inv(s) && Legal(op)
    ensures Inv(Step(s, op))
  {
    match op
    case Apply(t, d, admitted) => if t in s.turns { ApplyInv(s, t, d, admitted); }
    case Dispatch(k, gate, limit) => DispatchInv(s, k, gate, limit);
    case Reconcile(order) => if Lists(s, order) { ReconcileInv(s, order); }
    case _ => if IsLaunch(op) { LaunchInv(s, op); } else if IsTurn(op) { TurnInv(s, op); } else { OwnerInv(s, op); }
  }
}
