/** Whatever order the service works in, the backlog gets done. */
module BacklogSchedules {
  import opened Wrappers
  import opened Graphs
  import opened Decisions
  import opened Backlog
  import opened BacklogSafety
  import opened BacklogTheorems
  import opened BacklogProgress

  // ------------------------------------------------------------------ derived runs belong to their items

  /** A derived run is only ever created together with its item's link to it. */
  ghost predicate Linked(s: State) {
    forall k | AutoRun(k) in s.runs :: k in s.items && s.items[k].run == Some(AutoRun(k))
  }

  /** No run appears but the ones drawn for a launch. */
  ghost predicate NoDerivedRun(s: State, t: State) {
    forall k | AutoRun(k) in t.runs :: AutoRun(k) in s.runs
  }

  lemma KeepLinked(s: State, t: State)
    requires Linked(s) && RunsKept(s, t) && NoDerivedRun(s, t)
    ensures Linked(t)
  {
  }

  lemma DispatchLinked(s: State, k: Key, gate: DispatchGate, limit: nat)
    requires Linked(s) && RunDiscipline(s)
    ensures Linked(DispatchTx(s, k, gate, limit))
  {
  }

  lemma OtherRuns(s: State, op: Op)
    requires !op.Dispatch? && (op.Reconcile? ==> Lists(s, op.order))
    ensures NoDerivedRun(s, Step(s, op))
  {
    match op
    case Reconcile(order) => ReconcileFrame(s, order);
    case Apply(t, d, admitted) =>
    case _ => if IsLaunch(op) { LaunchAddsNone(s, op); } else { RestAddsNone(s, op); }
  }

  lemma LaunchAddsNone(s: State, op: Op)
    requires IsLaunch(op)
    ensures NoDerivedRun(s, LaunchTx(s, op))
  {
  }

  lemma RestAddsNone(s: State, op: Op)
    requires !op.Apply? && !op.Dispatch? && !op.Reconcile? && !IsLaunch(op)
    ensures NoDerivedRun(s, if IsTurn(op) then TurnTx(s, op) else OwnerTx(s, op))
  {
  }

  lemma StepLinked(s: State, op: Op)
    requires Linked(s) && RunDiscipline(s)
    ensures Linked(Step(s, op))
  {
    if op.Dispatch? {
      DispatchLinked(s, op.key, op.gate, op.activeLimit);
    } else if op.Reconcile? ==> Lists(s, op.order) {
      StepRunsKept(s, op);
      OtherRuns(s, op);
      KeepLinked(s, Step(s, op));
    }
  }

  lemma {:induction false} EveryRunIsLinked(s: State, ops: seq<Op>)
    requires Initial(s) && LegalRun(ops)
    ensures Linked(Run(s, ops))
  {
    if ops != [] {
      EveryRunIsLinked(s, ops[..|ops| - 1]);
      EveryRunKeepsInv(s, ops[..|ops| - 1]);
      StepLinked(Run(s, ops[..|ops| - 1]), ops[|ops| - 1]);
    }
  }

  // ------------------------------------------------------------------ how much work is left

  predicate OnTrack(r: RunStatus) {
    r in {Queued, RunStatus.Running, RunStatus.Completed}
  }

  /** Nothing lost, everything current, dispatch permitted, and every started run on its way. */
  ghost predicate Calm(s: State) {
    && Inv(s) && Linked(s) && NothingLost(s) && AllCurrent(s) && MayDispatch(s.mission)
    && forall k | k in s.items && s.items[k].lifecycle == Started ::
         s.items[k].run.Some? && s.items[k].run.value in s.runs && OnTrack(s.runs[s.items[k].run.value])
  }

  /** Steps of the service at work: polls, in whatever order, runs that complete, workers waiting for a slot. */
  predicate Work(s: State, op: Op) {
    match op
    case Reconcile(order) => Lists(s, order)
    case Dispatch(_, gate, _) => gate == Open
    case RunChange(_, status) => status == RunStatus.Completed
    case AwaitSlot(_, _) => true
    case TakeSlot(_) => true
    case _ => false
  }

  /** The step gets something done. */
  ghost predicate Moves(s: State, op: Op) {
    match op
    case Reconcile(order) => Lists(s, order) && exists k :: Finishing(s, k) || Unlocks(FinishItems(s), s.deps, k)
    case Dispatch(k, gate, limit) => gate == Open && Dispatchable(s, k) && limit > |ActiveKeys(s)|
    case RunChange(r, status) =>
      status == RunStatus.Completed && r in s.runs && s.runs[r] != RunStatus.Completed
      && exists k | k in s.items :: s.items[k].lifecycle == Started && s.items[k].run == Some(r)
    case _ => false
  }

  /** Steps an item is away from being accepted. */
  function Weight(s: State, k: Key): nat
    requires k in s.items
  {
    match s.items[k].lifecycle
    case Pending => 4
    case Ready => 3
    case Started =>
      if s.items[k].run.Some? && s.items[k].run.value in s.runs && s.runs[s.items[k].run.value] == RunStatus.Completed then 1 else 2
    case _ => 0
  }

  ghost function Sum(s: State, keys: set<Key>): nat
    requires keys <= s.items.Keys
  {
    if keys == {} then 0
    else
      var k :| k in keys;
      Weight(s, k) + Sum(s, keys - {k})
  }

  /** Steps the whole backlog is away from being accepted. */
  ghost function Left(s: State): nat {
    Sum(s, s.items.Keys)
  }

  lemma {:induction false} SumPick(s: State, keys: set<Key>, k: Key)
    requires keys <= s.items.Keys && k in keys
    ensures Sum(s, keys) == Weight(s, k) + Sum(s, keys - {k})
    decreases keys
  {
    var l :| l in keys && Sum(s, keys) == Weight(s, l) + Sum(s, keys - {l});
    if l != k {
      SumPick(s, keys - {l}, k);
      SumPick(s, keys - {k}, l);
      assert (keys - {l}) - {k} == (keys - {k}) - {l};
    }
  }

  lemma {:induction false} SumAtMost(s: State, t: State, keys: set<Key>)
    requires keys <= s.items.Keys && keys <= t.items.Keys
    requires forall k | k in keys :: Weight(t, k) <= Weight(s, k)
    ensures Sum(t, keys) <= Sum(s, keys)
    decreases keys
  {
    if keys != {} {
      var k :| k in keys;
      SumPick(s, keys, k);
      SumPick(t, keys, k);
      SumAtMost(s, t, keys - {k});
    }
  }

  lemma SumLess(s: State, t: State, keys: set<Key>, k: Key)
    requires keys <= s.items.Keys && keys <= t.items.Keys && k in keys
    requires forall l | l in keys :: Weight(t, l) <= Weight(s, l)
    requires Weight(t, k) < Weight(s, k)
    ensures Sum(t, keys) < Sum(s, keys)
  {
    SumPick(s, keys, k);
    SumPick(t, keys, k);
    SumAtMost(s, t, keys - {k});
  }

  lemma OneLess(keys: set<Key>, some: set<Key>, k: Key)
    requires k in keys
    ensures |keys * some| == |(keys - {k}) * some| + if k in some then 1 else 0
  {
    if k in some {
      assert keys * some == ((keys - {k}) * some) + {k};
    } else {
      assert keys * some == (keys - {k}) * some;
    }
  }

  lemma {:induction false} SumBound(s: State, keys: set<Key>, some: set<Key>)
    requires keys <= s.items.Keys && forall k | k in keys && k !in some :: Weight(s, k) == 0
    ensures Sum(s, keys) <= 4 * |keys * some|
    decreases keys
  {
    if keys != {} {
      var k :| k in keys;
      var rest := keys - {k};
      SumPick(s, keys, k);
      SumBound(s, rest, some);
      OneLess(keys, some, k);
      assert Weight(s, k) <= if k in some then 4 else 0;
    }
  }

  lemma LeftBound(s: State)
    requires NothingLost(s)
    ensures Left(s) <= 4 * |Unaccepted(s)|
  {
    SumBound(s, s.items.Keys, Unaccepted(s));
    assert s.items.Keys * Unaccepted(s) == Unaccepted(s);
  }

  lemma NoneLeft(s: State)
    requires NothingLost(s) && Left(s) == 0
    ensures Unaccepted(s) == {}
  {
    forall k | k in s.items ensures s.items[k].lifecycle == Accepted {
      SumPick(s, s.items.Keys, k);
    }
  }

  // ------------------------------------------------------------------ one step of work

  /** No item moves away from acceptance, and if the step gets something done one comes closer. */
  ghost predicate Closer(s: State, t: State, moved: bool) {
    && t.items.Keys == s.items.Keys
    && (forall k | k in s.items :: Weight(t, k) <= Weight(s, k))
    && (moved ==> exists k | k in s.items :: Weight(t, k) < Weight(s, k))
  }

  lemma CloserIsLess(s: State, t: State, moved: bool)
    requires Closer(s, t, moved)
    ensures Left(t) + (if moved then 1 else 0) <= Left(s)
  {
    SumAtMost(s, t, s.items.Keys);
    if moved {
      var k :| k in s.items && Weight(t, k) < Weight(s, k);
      SumLess(s, t, s.items.Keys, k);
    }
  }

  lemma RowCloser(s: State, t: State, k: Key)
    requires Calm(s) && k in s.items && k in t.items && t.runs == s.runs && ReconciledRow(s, t, k)
    ensures Weight(t, k) <= Weight(s, k)
    ensures Finishing(s, k) || Unlocks(FinishItems(s), s.deps, k) ==> Weight(t, k) < Weight(s, k)
    ensures t.items[k].lifecycle !in {ItemLifecycle.Blocked, ItemLifecycle.Cancelled}
    ensures t.items[k].lifecycle == Started ==> s.items[k].lifecycle == Started && t.items[k].run == s.items[k].run
    ensures t.items[k].directive == s.items[k].directive
  {
  }

  lemma {:induction false} NoLabel(s: State, order: seq<Key>)
    requires Calm(s) && forall k | k in order :: Joined(s, k)
    ensures Relabel(s, order) == s.mission.lifecycle
  {
    if order != [] {
      var rest, k := order[..|order| - 1], order[|order| - 1];
      assert k in order && Joined(s, k);
      assert forall l | l in rest :: l in order;
      NoLabel(s, rest);
    }
  }

  lemma CalmMission(s: State, order: seq<Key>)
    requires Calm(s) && Lists(s, order)
    ensures ReconcileTx(s, order).mission == s.mission.(version := ReconcileTx(s, order).mission.version)
  {
    NoLabel(s, order);
    FinishedOfIs(s, order);
    AnnounceMission(Settled(s, order), FinishedOf(s, order));
  }

  /** Rows, runs and mission as a reconciliation leaves them. */
  ghost predicate Reconciled(s: State, t: State) {
    && t.items.Keys == s.items.Keys && t.runs == s.runs
    && t.mission == s.mission.(version := t.mission.version)
    && forall k | k in s.items :: ReconciledRow(s, t, k)
  }

  lemma ReconciledCalm(s: State, t: State)
    requires Calm(s) && Reconciled(s, t) && Inv(t)
    ensures Calm(t)
  {
    forall k | k in t.items
      ensures t.items[k].lifecycle !in {ItemLifecycle.Blocked, ItemLifecycle.Cancelled}
      ensures t.items[k].lifecycle == Started ==> s.items[k].lifecycle == Started
      ensures t.items[k].directive == s.items[k].directive && t.items[k].run == s.items[k].run
    {
      RowCloser(s, t, k);
    }
  }

  lemma ReconciledCloser(s: State, t: State, moved: bool)
    requires Calm(s) && Reconciled(s, t)
    requires moved ==> exists k :: Finishing(s, k) || Unlocks(FinishItems(s), s.deps, k)
    ensures Closer(s, t, moved)
  {
    forall k | k in s.items ensures Weight(t, k) <= Weight(s, k) {
      RowCloser(s, t, k);
    }
    if moved {
      var k :| Finishing(s, k) || Unlocks(FinishItems(s), s.deps, k);
      RowCloser(s, t, k);
    }
  }

  lemma ReconcileWorks(s: State, order: seq<Key>)
    requires Calm(s) && Lists(s, order)
    ensures Calm(ReconcileTx(s, order)) && Closer(s, ReconcileTx(s, order), Moves(s, Reconcile(order)))
  {
    ReconcileInv(s, order);
    ReconcileFrame(s, order);
    CalmMission(s, order);
    ReconciledCalm(s, ReconcileTx(s, order));
    ReconciledCloser(s, ReconcileTx(s, order), Moves(s, Reconcile(order)));
  }

  /** A dispatch changes at most one row, its run and the mission's label. */
  ghost predicate DispatchedAtMost(s: State, t: State, k: Key, moved: bool) {
    && MayDispatch(t.mission) && t.mission.directive == s.mission.directive
    && (moved ==> t.items != s.items)
    && (forall r | r in s.runs :: r in t.runs && t.runs[r] == s.runs[r])
    && (forall r | r in t.runs && r !in s.runs :: r == AutoRun(k) && t.runs[r] == Queued)
  }

  lemma DispatchOpens(s: State, k: Key, limit: nat)
    requires MayDispatch(s.mission)
    ensures DispatchedAtMost(s, DispatchTx(s, k, Open, limit), k, Moves(s, Dispatch(k, Open, limit)))
  {
    if Moves(s, Dispatch(k, Open, limit)) {
      assert DispatchTx(s, k, Open, limit).items[k].lifecycle == Started;
    }
  }

  lemma DispatchCloser(s: State, t: State, k: Key, moved: bool)
    requires Calm(s) && DispatchFrame(s, t, k) && DispatchedAtMost(s, t, k, moved) && Inv(t) && Linked(t)
    ensures Calm(t) && Closer(s, t, moved)
  {
    if t.items != s.items {
      assert t.items[k].lifecycle == Started && t.items[k].run == Some(AutoRun(k));
      assert AutoRun(k) !in s.runs;
      assert Weight(t, k) < Weight(s, k);
    }
  }

  lemma DispatchWorks(s: State, k: Key, limit: nat)
    requires Calm(s)
    ensures Calm(DispatchTx(s, k, Open, limit)) && Closer(s, DispatchTx(s, k, Open, limit), Moves(s, Dispatch(k, Open, limit)))
  {
    DispatchIs(s, k, Open, limit);
    DispatchOpens(s, k, limit);
    DispatchInv(s, k, Open, limit);
    DispatchLinked(s, k, Open, limit);
    DispatchCloser(s, DispatchTx(s, k, Open, limit), k, Moves(s, Dispatch(k, Open, limit)));
  }

  /** One run has completed, and nothing else has changed. */
  predicate Completes(s: State, t: State, r: RunId) {
    && t.items == s.items && t.mission == s.mission
    && (t.runs == s.runs || (r in s.runs && t.runs == s.runs[r := RunStatus.Completed]))
  }

  lemma CompletedCalm(s: State, t: State, r: RunId)
    requires Calm(s) && Completes(s, t, r) && Inv(t)
    ensures Calm(t)
  {
  }

  lemma CompletedCloser(s: State, t: State, r: RunId, moved: bool)
    requires Completes(s, t, r)
    requires moved ==> r in s.runs && s.runs[r] != RunStatus.Completed && t.runs == s.runs[r := RunStatus.Completed]
    requires moved ==> exists k | k in s.items :: s.items[k].lifecycle == Started && s.items[k].run == Some(r)
    ensures Closer(s, t, moved)
  {
    if moved {
      var k :| k in s.items && s.items[k].lifecycle == Started && s.items[k].run == Some(r);
      assert Weight(t, k) < Weight(s, k);
    }
  }

  lemma CompletionIs(s: State, r: RunId)
    ensures Completes(s, OwnerTx(s, RunChange(r, RunStatus.Completed)), r)
    ensures r in s.runs ==> OwnerTx(s, RunChange(r, RunStatus.Completed)).runs == s.runs[r := RunStatus.Completed]
  {
  }

  lemma CompletionWorks(s: State, r: RunId)
    requires Calm(s)
    ensures var op := RunChange(r, RunStatus.Completed);
      Calm(OwnerTx(s, op)) && Closer(s, OwnerTx(s, op), Moves(s, op))
  {
    var op := RunChange(r, RunStatus.Completed);
    OwnerInv(s, op);
    CompletionIs(s, r);
    CompletedCalm(s, OwnerTx(s, op), r);
    CompletedCloser(s, OwnerTx(s, op), r, Moves(s, op));
  }

  /** Waiting for a slot and taking it only move the mission between labels that permit dispatch. */
  lemma SlotWorks(s: State, op: Op)
    requires Calm(s) && (op.AwaitSlot? || op.TakeSlot?)
    ensures Calm(OwnerTx(s, op)) && Closer(s, OwnerTx(s, op), false)
  {
    OwnerInv(s, op);
    assert OwnerTx(s, op) == s.(mission := OwnerTx(s, op).mission);
  }

  lemma WorkStep(s: State, op: Op)
    requires Calm(s) && Work(s, op)
    ensures Calm(Step(s, op)) && Left(Step(s, op)) + (if Moves(s, op) then 1 else 0) <= Left(s)
  {
    match op
    case Reconcile(order) =>
      ReconcileWorks(s, order);
      CloserIsLess(s, ReconcileTx(s, order), Moves(s, op));
    case Dispatch(k, gate, limit) =>
      DispatchWorks(s, k, limit);
      CloserIsLess(s, DispatchTx(s, k, Open, limit), Moves(s, op));
    case RunChange(r, status) =>
      CompletionWorks(s, r);
      CloserIsLess(s, OwnerTx(s, op), Moves(s, op));
    case _ =>
      SlotWorks(s, op);
      CloserIsLess(s, OwnerTx(s, op), false);
  }

  // ------------------------------------------------------------------ there is always a next step

  lemma PendingUnlocks(s: State) returns (k: Key)
    requires Calm(s) && Unaccepted(s) != {}
    requires forall l | l in Unaccepted(s) :: s.items[l].lifecycle == Pending
    ensures Unlocks(FinishItems(s), s.deps, k)
  {
    var start :| start in Unaccepted(s);
    k := FindSink(s.deps, Unaccepted(s), [start]);
    forall e | e in s.deps && e.0 == k ensures e.1 in FinishItems(s) && FinishItems(s)[e.1].lifecycle == Accepted {
      assert (k, e.1) == e;
    }
  }

  /** While something is unaccepted some step gets something done. */
  lemma SomeStepMoves(s: State)
    requires Calm(s) && Unaccepted(s) != {}
    ensures exists op :: Work(s, op) && Moves(s, op)
  {
    var order := StartedRows(s);
    if k :| k in s.items && s.items[k].lifecycle == Started && s.runs[s.items[k].run.value] != RunStatus.Completed {
      assert Moves(s, RunChange(s.items[k].run.value, RunStatus.Completed));
    } else if k :| k in s.items && s.items[k].lifecycle == Started {
      assert Finishing(s, k);
      assert Work(s, Reconcile(order)) && Moves(s, Reconcile(order));
    } else if k :| k in s.items && s.items[k].lifecycle == Ready {
      assert Moves(s, Dispatch(k, Open, |ActiveKeys(s)| + 1));
    } else {
      var k := PendingUnlocks(s);
      assert Work(s, Reconcile(order)) && Moves(s, Reconcile(order));
    }
  }

  // ------------------------------------------------------------------ whole schedules

  ghost predicate Schedule(s: State, ops: seq<Op>) {
    ops == [] || (Schedule(s, ops[..|ops| - 1]) && Work(Run(s, ops[..|ops| - 1]), ops[|ops| - 1]))
  }

  /** How many steps of the schedule got something done. */
  ghost function Moved(s: State, ops: seq<Op>): nat {
    if ops == [] then 0
    else
      var n := |ops| - 1;
      Moved(s, ops[..n]) + if Moves(Run(s, ops[..n]), ops[n]) then 1 else 0
  }

  lemma {:induction false} ScheduleKeepsCount(s: State, ops: seq<Op>)
    requires Calm(s) && Schedule(s, ops)
    ensures Calm(Run(s, ops)) && Moved(s, ops) + Left(Run(s, ops)) <= Left(s)
  {
    if ops != [] {
      var n := |ops| - 1;
      ScheduleKeepsCount(s, ops[..n]);
      WorkStep(Run(s, ops[..n]), ops[n]);
    }
  }

  /**
    Every schedule of reconciliations, dispatches, completing runs and workers' labels, in
    any order and with any idle steps between them, accepts everything: at most four steps for each
    unaccepted item get something done, as many as that leave nothing unaccepted, and
    until then some step can.
   */
  lemma EveryScheduleFinishes(s: State, ops: seq<Op>)
    requires Calm(s) && Schedule(s, ops)
    ensures Moved(s, ops) <= 4 * |Unaccepted(s)|
    ensures Moved(s, ops) == 4 * |Unaccepted(s)| ==> Unaccepted(Run(s, ops)) == {}
    ensures Unaccepted(Run(s, ops)) == {} || exists op :: Work(Run(s, ops), op) && Moves(Run(s, ops), op)
  {
    ScheduleKeepsCount(s, ops);
    LeftBound(s);
    if Left(Run(s, ops)) == 0 {
      NoneLeft(Run(s, ops));
    }
    if Unaccepted(Run(s, ops)) != {} {
      SomeStepMoves(Run(s, ops));
    }
  }
  /** From any calm state at most four steps per unaccepted item are needed. */
  lemma EverythingGetsAccepted(s: State) returns (ops: seq<Op>)
    requires Calm(s)
    ensures Schedule(s, ops) && Unaccepted(Run(s, ops)) == {} && |ops| <= 4 * |Unaccepted(s)|
  {
    LeftBound(s);
    ops := FinishFrom(s, []);
  }

  lemma {:induction false} FinishFrom(s: State, done: seq<Op>) returns (ops: seq<Op>)
    requires Calm(s) && Schedule(s, done) && |done| + Left(Run(s, done)) <= Left(s)
    ensures Schedule(s, ops) && Unaccepted(Run(s, ops)) == {} && |ops| <= Left(s)
    decreases Left(s) - |done|
  {
    ops := done;
    ScheduleKeepsCount(s, done);
    var now := Run(s, done);
    if Unaccepted(now) != {} {
      SomeStepMoves(now);
      var op :| Work(now, op) && Moves(now, op);
      WorkStep(now, op);
      assert (done + [op])[..|done|] == done;
      ops := FinishFrom(s, done + [op]);
    }
  }
}
