/** What a dispatch does, read off the rows, and what any number of dispatches keep. */
module DispatchEffects {
  import opened Wrappers
  import opened Decisions
  import opened Backlog
  import BacklogSafety

  /** Started items whose run has not come to an end. */
  function AtWork(s: State): set<Key> {
    set k | k in s.items && s.items[k].lifecycle == Started
            && s.items[k].run.Some? && s.items[k].run.value in s.runs
            && s.runs[s.items[k].run.value] in {Queued, RunStatus.Running, ApprovalRequired}
  }

  lemma StatusAtWork(r: RunStatus)
    ensures RunActive(r) <==> r in {Queued, RunStatus.Running, ApprovalRequired}
  {
    match r
    case _ =>
  }

  lemma AtWorkIs(s: State)
    ensures AtWork(s) == ActiveKeys(s)
  {
    forall k | k in s.items && s.items[k].run.Some? && s.items[k].run.value in s.runs
      ensures k in AtWork(s) <==> k in ActiveKeys(s)
    {
      StatusAtWork(s.runs[s.items[k].run.value]);
    }
  }

  /** The mission is served, and the item is ready under its present directive. */
  predicate Selected(s: State, k: Key) {
    && s.mission.autonomous && s.mission.lifecycle in {Active, Idle, WaitingForCapacity}
    && k in s.items && s.items[k].lifecycle == Ready && s.items[k].directive == s.mission.directive
  }

  /** The item is started on its own run, queued unless it was there, and the mission is active. */
  predicate Starts(s: State, k: Key, u: State)
    requires k in s.items
  {
    && u.items == s.items[k := s.items[k].(run := Some(AutoRun(k)), lifecycle := Started, version := s.items[k].version + 1)]
    && u.runs == (if AutoRun(k) in s.runs then s.runs else s.runs[AutoRun(k) := Queued])
    && u.mission == s.mission.(lifecycle := Active, version := s.mission.version + 1)
    && u == s.(items := u.items, runs := u.runs, mission := u.mission, cursor := u.cursor)
    && u.cursor == s.cursor + (if AutoRun(k) in s.runs then 1 else 3)
  }

  lemma StartStarts(s: State, k: Key)
    requires k in s.items && s.items[k].lifecycle == Ready
    ensures Starts(s, k, StartTx(s, k)) && StartTx(s, k).items != s.items
  {
    assert StartTx(s, k).items[k].lifecycle == Started;
  }

  /** An item is started exactly if it is selected, nothing refuses it and there is room. */
  lemma StartsExactly(s: State, k: Key, gate: DispatchGate, limit: nat)
    ensures var u := Step(s, Dispatch(k, gate, limit));
      && (u.items != s.items <==> Selected(s, k) && gate == Open && |AtWork(s)| < limit)
      && (u.items != s.items ==> k in s.items && Starts(s, k, u))
  {
    AtWorkIs(s);
    assert Step(s, Dispatch(k, gate, limit)) == DispatchTx(s, k, gate, limit);
    if Selected(s, k) && gate == Open && |AtWork(s)| < limit {
      StartStarts(s, k);
    }
  }

  predicate Labelled(s: State, l: MissionLifecycle, u: State) {
    u == s.(mission := s.mission.(lifecycle := l))
  }

  /** A team that is gone blocks the mission in any case, a budget or a workflow if there is room. */
  predicate Refuses(s: State, gate: DispatchGate, limit: nat) {
    gate == TeamMissing || (gate in {DispatchBudgetDenied, WorkflowMissing} && |AtWork(s)| < limit)
  }

  /** What a dispatch leaves when it starts nothing: the label is all that may change. */
  lemma RefusalsAreLabelled(s: State, k: Key, gate: DispatchGate, limit: nat)
    ensures var u := Step(s, Dispatch(k, gate, limit));
      && (Selected(s, k) && Refuses(s, gate, limit) ==> Labelled(s, MissionLifecycle.Blocked, u))
      && (Selected(s, k) && gate in {Open, DispatchBudgetDenied, WorkflowMissing} && |AtWork(s)| >= limit ==>
            Labelled(s, WaitingForCapacity, u))
      && (Selected(s, k) && gate == AllLocked ==>
            Labelled(s, if s.mission.lifecycle == Active then Idle else s.mission.lifecycle, u))
      && (!Selected(s, k) || gate == AdmissionDenied ==> u == s)
  {
    AtWorkIs(s);
  }

  ghost predicate OnlyDispatches(ops: seq<Op>) {
    forall op | op in ops :: op.Dispatch?
  }

  lemma {:induction false} UnservedStays(s: State, ops: seq<Op>)
    requires OnlyDispatches(ops) && s.mission.lifecycle !in {Active, Idle, WaitingForCapacity}
    ensures Run(s, ops) == s
  {
    if ops != [] {
      var n := |ops| - 1;
      assert ops[n] in ops && forall op | op in ops[..n] :: op in ops;
      UnservedStays(s, ops[..n]);
      RefusalsAreLabelled(s, ops[n].key, ops[n].gate, ops[n].activeLimit);
    }
  }

  /** A refused mission is blocked, and whatever dispatches follow then change nothing. */
  lemma RefusedIsLeftAlone(s: State, k: Key, gate: DispatchGate, limit: nat, ops: seq<Op>)
    requires Selected(s, k) && Refuses(s, gate, limit) && OnlyDispatches(ops)
    ensures var u := Step(s, Dispatch(k, gate, limit));
      && u.mission.lifecycle == MissionLifecycle.Blocked && u.items == s.items && u.runs == s.runs
      && Run(u, ops) == u
  {
    RefusalsAreLabelled(s, k, gate, limit);
    UnservedStays(Step(s, Dispatch(k, gate, limit)), ops);
  }

  /** A mission at capacity is labelled so and is still served: with room, the next dispatch starts the item. */
  lemma CapacityIsTemporary(s: State, k: Key, gate: DispatchGate, limit: nat, more: nat)
    requires Selected(s, k) && gate in {Open, DispatchBudgetDenied, WorkflowMissing} && limit <= |AtWork(s)| < more
    ensures var u := Step(s, Dispatch(k, gate, limit));
      && u.mission.lifecycle == WaitingForCapacity && u.items == s.items && u.runs == s.runs
      && k in u.items && Starts(u, k, Step(u, Dispatch(k, Open, more)))
  {
    RefusalsAreLabelled(s, k, gate, limit);
    var u := Step(s, Dispatch(k, gate, limit));
    assert AtWork(u) == AtWork(s);
    StartsExactly(u, k, Open, more);
  }

  // ------------------------------------------------------------------ the cap on work in progress

  lemma OneMoreAtWork(s: State, k: Key, u: State)
    requires BacklogSafety.Inv(s) && k in s.items && s.items[k].lifecycle == Ready && Starts(s, k, u)
    ensures AtWork(u) <= AtWork(s) + {k}
  {
    forall l | l in AtWork(u) && l != k ensures l in AtWork(s) {
      assert u.items[l] == s.items[l];
    }
  }

  lemma StartUnderCap(s: State, k: Key, u: State, limit: nat)
    requires BacklogSafety.Inv(s) && k in s.items && s.items[k].lifecycle == Ready && Starts(s, k, u) && |AtWork(s)| < limit
    ensures |AtWork(u)| <= limit
  {
    OneMoreAtWork(s, k, u);
    Smaller(AtWork(u), AtWork(s) + {k});
  }

  lemma SameAtWork(s: State, u: State)
    requires u.items == s.items && u.runs == s.runs
    ensures AtWork(u) == AtWork(s)
  {
  }

  lemma NothingStarted(s: State, op: Op)
    requires op.Dispatch? && Step(s, op).items == s.items
    ensures Step(s, op).runs == s.runs
  {
    StartsExactly(s, op.key, op.gate, op.activeLimit);
    RefusalsAreLabelled(s, op.key, op.gate, op.activeLimit);
  }

  lemma DispatchUnderCap(s: State, op: Op)
    requires BacklogSafety.Inv(s) && op.Dispatch?
    ensures |AtWork(Step(s, op))| <= |AtWork(s)| || |AtWork(Step(s, op))| <= op.activeLimit
  {
    StartsExactly(s, op.key, op.gate, op.activeLimit);
    if Step(s, op).items != s.items {
      StartUnderCap(s, op.key, Step(s, op), op.activeLimit);
    } else {
      NothingStarted(s, op);
      SameAtWork(s, Step(s, op));
    }
  }

  lemma Smaller(a: set<Key>, b: set<Key>)
    requires a <= b
    ensures |a| <= |b|
  {
    assert b == a + (b - a);
  }

  /** However many dispatches follow each other, they never put more to work than the limit. */
  lemma {:induction false} DispatchesStayUnderCap(s: State, ops: seq<Op>, limit: nat)
    requires BacklogSafety.Inv(s) && OnlyDispatches(ops) && forall op | op in ops :: op.activeLimit <= limit
    ensures BacklogSafety.Inv(Run(s, ops))
    ensures |AtWork(Run(s, ops))| <= |AtWork(s)| || |AtWork(Run(s, ops))| <= limit
  {
    if ops != [] {
      var before, op := ops[..|ops| - 1], ops[|ops| - 1];
      assert op in ops && forall o | o in before :: o in ops;
      DispatchesStayUnderCap(s, before, limit);
      BacklogSafety.StepInv(Run(s, before), op);
      DispatchUnderCap(Run(s, before), op);
    }
  }
}
