/** The backlog's guarantees over whole runs. */
module BacklogTheorems {
  import opened Graphs
  import opened Decisions
  import opened Backlog
  import opened BacklogSafety

  // ------------------------------------------------------------------ all interleavings

  /** Reachable states satisfy the invariant; in particular the backlog graph is acyclic. */
  lemma {:induction false} EveryRunKeepsInv(s: State, ops: seq<Op>)
    requires Initial(s) && LegalRun(ops)
    ensures Inv(Run(s, ops))
  {
    if ops == [] {
      assert forall p: seq<Key> | IsPath(s.deps, p) && |p| > 1 :: (p[1 - 1], p[1]) in s.deps;
    } else {
      EveryRunKeepsInv(s, ops[..|ops| - 1]);
      StepInv(Run(s, ops[..|ops| - 1]), ops[|ops| - 1]);
    }
  }

  /** Rows never disappear, and a run id once written stays. */
  ghost predicate RunsKept(s: State, t: State) {
    forall k | k in s.items ::
      k in t.items && (s.items[k].run.Some? ==> t.items[k].run == s.items[k].run)
  }

  lemma ApplyRunsKept(s: State, t: TurnId, d: Decision, admitted: bool)
    requires t in s.turns
    ensures RunsKept(s, ApplyTx(s, t, d, admitted))
  {
  }

  lemma ReconcileRunsKept(s: State, order: seq<Key>)
    requires Lists(s, order)
    ensures RunsKept(s, ReconcileTx(s, order))
  {
    ReconcileFrame(s, order);
    assert forall k | k in s.items :: ReconciledRow(s, ReconcileTx(s, order), k);
  }

  lemma DispatchRunsKept(s: State, k: Key, gate: DispatchGate, limit: nat)
    requires RunDiscipline(s)
    ensures RunsKept(s, DispatchTx(s, k, gate, limit))
  {
    DispatchIs(s, k, gate, limit);
  }

  lemma LaunchRunsKept(s: State, op: Op)
    requires IsLaunch(op)
    ensures RunsKept(s, LaunchTx(s, op))
  {
  }

  lemma RestUntouched(s: State, op: Op)
    requires !op.Apply? && !op.Dispatch? && !op.Reconcile? && !IsLaunch(op)
    ensures var t := if IsTurn(op) then TurnTx(s, op) else OwnerTx(s, op);
      t.items == s.items && t.deps == s.deps
  {
  }

  lemma StepRunsKept(s: State, op: Op)
    requires RunDiscipline(s)
    ensures RunsKept(s, Step(s, op))
  {
    match op
    case Apply(t, d, admitted) => if t in s.turns { ApplyRunsKept(s, t, d, admitted); }
    case Dispatch(k, gate, limit) => DispatchRunsKept(s, k, gate, limit);
    case Reconcile(order) => if Lists(s, order) { ReconcileRunsKept(s, order); }
    case _ => if IsLaunch(op) { LaunchRunsKept(s, op); } else { RestUntouched(s, op); }
  }

  /** A work item's run id is written once, in every interleaving of all writers. */
  lemma {:induction false} RunIdWrittenOnce(s: State, ops: seq<Op>, i: nat)
    requires Initial(s) && LegalRun(ops) && i <= |ops|
    ensures RunsKept(Run(s, ops[..i]), Run(s, ops))
    decreases |ops|
  {
    if i == |ops| {
      assert ops[..i] == ops;
    } else {
      var before := ops[..|ops| - 1];
      assert before[..i] == ops[..i];
      RunIdWrittenOnce(s, before, i);
      EveryRunKeepsInv(s, before);
      StepRunsKept(Run(s, before), ops[|ops| - 1]);
    }
  }

  // ------------------------------------------------------------------ launches that finish in time

  /** The item is still ready, or already started on this very run, when it is marked started. */
  predicate FinishesInTime(s: State, op: Op) {
    op.LaunchFinish? && MayFinish(s, op.pid) ==> s.items[s.launches[op.pid].key].lifecycle in {Ready, Started}
  }

  ghost predicate TimelyRun(s: State, ops: seq<Op>) {
    LegalRun(ops) && forall i | 0 <= i < |ops| :: FinishesInTime(Run(s, ops[..i]), ops[i])
  }

  /** A launch whose three transactions follow each other directly always finishes in time. */
  lemma UninterruptedLaunch(s: State, pid: nat, k: Key, admitted: bool, available: bool)
    requires pid !in s.launches
    ensures FinishesInTime(Step(Step(s, LaunchCheck(pid, k, admitted)), LaunchEnqueue(pid, available)), LaunchFinish(pid))
  {
    var c := LaunchCheckTx(s, pid, k, admitted);
    assert c == Step(s, LaunchCheck(pid, k, admitted));
    CheckedIsReady(s, pid, k, admitted);
    var e := LaunchEnqueueTx(c, pid, available);
    assert e == Step(c, LaunchEnqueue(pid, available));
    assert e.items == s.items;
  }

  lemma CheckedIsReady(s: State, pid: nat, k: Key, admitted: bool)
    requires pid !in s.launches
    ensures var c := LaunchCheckTx(s, pid, k, admitted);
      && c.items == s.items
      && (pid in c.launches ==> c.launches[pid].Checked? && c.launches[pid].key == k && k in s.items && s.items[k].lifecycle == Ready)
  {
  }

  /** Nothing but pending items may wait for work that is not accepted. */
  ghost predicate DepSafe(s: State) {
    forall e | e in s.deps && e.0 in s.items && s.items[e.0].lifecycle != Pending ::
      e.1 in s.items && s.items[e.1].lifecycle == Accepted
  }

  /** Terminal rows keep what their wakeups refer to. */
  ghost predicate TerminalKept(s: State, t: State) {
    forall k | k in s.items && Terminal(s.items[k].lifecycle) ::
      k in t.items && t.items[k].lifecycle == s.items[k].lifecycle
      && t.items[k].run == s.items[k].run && t.items[k].cursor == s.items[k].cursor
  }

  lemma ApplyDepSafe(s: State, t: TurnId, d: Decision, admitted: bool)
    requires ForeignKeys(s) && DepSafe(s) && t in s.turns && Judge(d) == NoFault
    ensures DepSafe(ApplyTx(s, t, d, admitted)) && TerminalKept(s, ApplyTx(s, t, d, admitted))
  {
    if ApplyVerdict(s, s.turns[t], d, admitted) == AppliedNow {
      CommitDepSafe(s, t, d);
    }
  }

  lemma SameProposal(items: seq<Proposal>, p: Proposal, q: Proposal)
    requires DistinctKeys(items) && p in items && q in items
    ensures p.key == q.key ==> p == q
  {
    var i :| 0 <= i < |items| && items[i] == p;
    var j :| 0 <= j < |items| && items[j] == q;
    assert i != j ==> items[i].key != items[j].key;
  }

  lemma CommitRow(s: State, t: TurnId, d: Decision, k: Key)
    requires t in s.turns && k in Keys(d.items) && forall p | p in d.items :: Updatable(s.items, p)
    ensures k in Commit(s, t, d).items
    ensures k in s.items ==> s.items[k].lifecycle in {Pending, Ready}
    ensures Commit(s, t, d).items[k].lifecycle != Pending ==> forall e | e in Edges(d.items) :: e.0 != k || !DistinctKeys(d.items)
  {
    var p := Proposed(d.items, k);
    assert Updatable(s.items, p);
    if DistinctKeys(d.items) && p.dependencies == [] {
      forall e | e in Edges(d.items) ensures e.0 != k {
        var q, dep :| q in d.items && dep in q.dependencies && e == (q.key, dep);
        SameProposal(d.items, p, q);
      }
    }
  }

  lemma CommitDepSafe(s: State, t: TurnId, d: Decision)
    requires ForeignKeys(s) && DepSafe(s) && t in s.turns && Judge(d) == NoFault
    requires forall p | p in d.items :: Updatable(s.items, p)
    ensures DepSafe(Commit(s, t, d)) && TerminalKept(s, Commit(s, t, d))
  {
    var u := Commit(s, t, d);
    EdgesInside(d.items);
    forall k | k in Keys(d.items)
      ensures k in s.items ==> s.items[k].lifecycle in {Pending, Ready}
      ensures k in u.items
      ensures u.items[k].lifecycle != Pending ==> forall e | e in Edges(d.items) :: e.0 != k
    {
      CommitRow(s, t, d, k);
    }
    assert forall k | k in s.items && k !in Keys(d.items) :: k in u.items && u.items[k] == s.items[k];
    forall e | e in u.deps && e.0 in u.items && u.items[e.0].lifecycle != Pending
      ensures e.1 in u.items && u.items[e.1].lifecycle == Accepted
    {
      assert e !in Edges(d.items) && e in s.deps && e.0 !in Keys(d.items);
      assert s.items[e.1].lifecycle == Accepted;
    }
  }

  lemma StartedRowDepSafe(s: State, t: State, k: Key)
    requires DepSafe(s) && k in s.items && s.items[k].lifecycle in {Ready, Started}
    requires t.deps == s.deps && t.items.Keys == s.items.Keys && t.items[k].lifecycle == Started
    requires forall l | l in s.items && l != k :: t.items[l] == s.items[l]
    ensures DepSafe(t) && TerminalKept(s, t)
  {
    forall e | e in t.deps && e.0 in t.items && t.items[e.0].lifecycle != Pending
      ensures e.1 in t.items && t.items[e.1].lifecycle == Accepted
    {
      assert s.items[e.0].lifecycle != Pending;
    }
  }

  lemma FrameDepSafe(s: State, t: State, k: Key)
    requires DepSafe(s) && DispatchFrame(s, t, k)
    ensures DepSafe(t) && TerminalKept(s, t)
  {
    if t.items != s.items {
      StartedRowDepSafe(s, t, k);
    }
  }

  lemma DispatchDepSafe(s: State, k: Key, gate: DispatchGate, limit: nat)
    requires DepSafe(s)
    ensures DepSafe(DispatchTx(s, k, gate, limit)) && TerminalKept(s, DispatchTx(s, k, gate, limit))
  {
    DispatchIs(s, k, gate, limit);
    FrameDepSafe(s, DispatchTx(s, k, gate, limit), k);
  }

  lemma LaunchDepSafe(s: State, op: Op)
    requires DepSafe(s) && IsLaunch(op) && FinishesInTime(s, op)
    ensures DepSafe(LaunchTx(s, op)) && TerminalKept(s, LaunchTx(s, op))
  {
    if op.LaunchFinish? && MayFinish(s, op.pid) {
      StartedRowDepSafe(s, LaunchFinishTx(s, op.pid), s.launches[op.pid].key);
    }
  }

  /** A reconciliation leaves terminal rows alone and frees exactly what is no longer waiting. */
  lemma ReconcileDepSafe(s: State, order: seq<Key>)
    requires ForeignKeys(s) && DepSafe(s) && Lists(s, order)
    ensures DepSafe(ReconcileTx(s, order)) && TerminalKept(s, ReconcileTx(s, order))
  {
    var t := ReconcileTx(s, order);
    ReconcileFrame(s, order);
    forall k | k in s.items
      ensures s.items[k].lifecycle == Accepted || FinishItems(s)[k].lifecycle == Accepted ==> t.items[k].lifecycle == Accepted
      ensures t.items[k].lifecycle != Pending && s.items[k].lifecycle == Pending ==> DepsAccepted(FinishItems(s), s.deps, k)
      ensures Terminal(s.items[k].lifecycle) ==>
                t.items[k].lifecycle == s.items[k].lifecycle && t.items[k].run == s.items[k].run && t.items[k].cursor == s.items[k].cursor
    {
      assert ReconciledRow(s, t, k);
    }
    forall e | e in t.deps && e.0 in t.items && t.items[e.0].lifecycle != Pending
      ensures e.1 in t.items && t.items[e.1].lifecycle == Accepted
    {
      if s.items[e.0].lifecycle == Pending {
        assert DepsAccepted(FinishItems(s), s.deps, e.0);
      }
    }
  }

  lemma StepDepSafe(s: State, op: Op)
    requires ForeignKeys(s) && DepSafe(s) && Legal(op) && FinishesInTime(s, op)
    ensures DepSafe(Step(s, op))
  {
    match op
    case Apply(t, d, admitted) => if t in s.turns { ApplyDepSafe(s, t, d, admitted); }
    case Dispatch(k, gate, limit) => DispatchDepSafe(s, k, gate, limit);
    case Reconcile(order) => if Lists(s, order) { ReconcileDepSafe(s, order); }
    case _ => if IsLaunch(op) { LaunchDepSafe(s, op); } else { RestUntouched(s, op); }
  }

  lemma StepTerminalKept(s: State, op: Op)
    requires ForeignKeys(s) && DepSafe(s) && Legal(op) && FinishesInTime(s, op)
    ensures TerminalKept(s, Step(s, op))
  {
    match op
    case Apply(t, d, admitted) => if t in s.turns { ApplyDepSafe(s, t, d, admitted); }
    case Dispatch(k, gate, limit) => DispatchDepSafe(s, k, gate, limit);
    case Reconcile(order) => if Lists(s, order) { ReconcileDepSafe(s, order); }
    case _ => if IsLaunch(op) { LaunchDepSafe(s, op); } else { RestUntouched(s, op); }
  }

  lemma TimelyPrefix(s: State, ops: seq<Op>, i: nat)
    requires TimelyRun(s, ops) && i <= |ops|
    ensures TimelyRun(s, ops[..i])
  {
    forall j | 0 <= j < i ensures FinishesInTime(Run(s, ops[..i][..j]), ops[..i][j]) {
      assert ops[..i][..j] == ops[..j];
    }
  }

  /**
    Although dispatch never reads dependencies, in every state reached by launches
    that finish in time each item past pending has all its dependencies accepted.
   */
  lemma {:induction false} TimelyRunsAreDepSafe(s: State, ops: seq<Op>)
    requires Initial(s) && TimelyRun(s, ops)
    ensures DepSafe(Run(s, ops))
  {
    if ops != [] {
      var n := |ops| - 1;
      TimelyPrefix(s, ops, n);
      TimelyRunsAreDepSafe(s, ops[..n]);
      EveryRunKeepsInv(s, ops[..n]);
      StepDepSafe(Run(s, ops[..n]), ops[n]);
    }
  }

  lemma TerminalKeptTwice(a: State, b: State, c: State)
    requires TerminalKept(a, b) && TerminalKept(b, c)
    ensures TerminalKept(a, c)
  {
  }

  lemma LastStepKeepsTerminal(s: State, ops: seq<Op>)
    requires Initial(s) && TimelyRun(s, ops) && ops != []
    ensures TerminalKept(Run(s, ops[..|ops| - 1]), Run(s, ops))
  {
    var n := |ops| - 1;
    TimelyPrefix(s, ops, n);
    TimelyRunsAreDepSafe(s, ops[..n]);
    EveryRunKeepsInv(s, ops[..n]);
    StepTerminalKept(Run(s, ops[..n]), ops[n]);
  }

  /** Terminal states are absorbing along such runs, with their run and cursor. */
  lemma {:induction false} TerminalIsAbsorbing(s: State, ops: seq<Op>, i: nat)
    requires Initial(s) && TimelyRun(s, ops) && i <= |ops|
    ensures TerminalKept(Run(s, ops[..i]), Run(s, ops))
    decreases |ops|
  {
    if i == |ops| {
      assert ops[..i] == ops;
    } else {
      var n := |ops| - 1;
      assert ops[..n][..i] == ops[..i];
      TimelyPrefix(s, ops, n);
      TerminalIsAbsorbing(s, ops[..n], i);
      LastStepKeepsTerminal(s, ops);
      TerminalKeptTwice(Run(s, ops[..i]), Run(s, ops[..n]), Run(s, ops));
    }
  }
}
