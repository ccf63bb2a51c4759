/**
  Launches that do not finish in time. The last of the three transactions checks only the
  run id, so two guarantees fail; here is exactly when, with a reachable run for each.
 */
module BacklogLaunches {
  import opened Wrappers
  import opened Graphs
  import opened Decisions
  import opened Backlog
  import opened BacklogSafety
  import opened BacklogTheorems
  import opened BacklogWakeups

  lemma NoSelfEdge(s: State, k: Key)
    requires Acyclic(s.deps)
    ensures (k, k) !in s.deps
  {
    var p := [k, k];
    assert p[0] == p[|p| - 1];
    assert (k, k) in s.deps ==> IsPath(s.deps, p);
  }

  /** An item that cannot be marked started without breaking dependency safety. */
  ghost predicate TooEarly(s: State, k: Key)
    requires k in s.items
  {
    s.items[k].lifecycle == Pending && !DepsAccepted(s.items, s.deps, k)
  }

  /** An accepted item somebody already relies on. */
  ghost predicate ReliedOn(s: State, k: Key)
    requires k in s.items
  {
    s.items[k].lifecycle == Accepted
    && exists e :: e in s.deps && e.1 == k && e.0 in s.items && s.items[e.0].lifecycle != Pending
  }

  /** The third transaction keeps dependency safety unless the item was re-planned or already accepted. */
  lemma FinishDepSafeExactly(s: State, pid: nat)
    requires Inv(s) && DepSafe(s) && MayFinish(s, pid)
    ensures var k := s.launches[pid].key;
      DepSafe(LaunchFinishTx(s, pid)) <==> !TooEarly(s, k) && !ReliedOn(s, k)
  {
    var k, t := s.launches[pid].key, LaunchFinishTx(s, pid);
    NoSelfEdge(s, k);
    assert t.deps == s.deps && t.items == s.items[k := LaunchedItem(s.items[k], s.launches[pid].run)];
    if TooEarly(s, k) {
      var e :| e in s.deps && e.0 == k && !(e.1 in s.items && s.items[e.1].lifecycle == Accepted);
      assert e in t.deps && e.0 in t.items && t.items[e.0].lifecycle != Pending;
      assert !DepSafe(t);
    } else if ReliedOn(s, k) {
      var e :| e in s.deps && e.1 == k && e.0 in s.items && s.items[e.0].lifecycle != Pending;
      assert e in t.deps && e.0 in t.items && t.items[e.0].lifecycle != Pending;
      assert !DepSafe(t);
    } else {
      forall e | e in t.deps && e.0 in t.items && t.items[e.0].lifecycle != Pending
        ensures e.1 in t.items && t.items[e.1].lifecycle == Accepted
      {
        if e.0 == k {
          assert s.items[e.1].lifecycle == Accepted;
        } else {
          assert s.items[e.0].lifecycle != Pending;
        }
      }
    }
  }

  ghost predicate WokenAlready(s: State, k: Key) {
    exists wk :: wk in s.wakeups && wk.RunTerminal? && s.wakeups[wk].target == Some(k)
  }

  /** The third transaction invalidates a wakeup exactly when the item already has one. */
  lemma FinishWakeInvExactly(s: State, pid: nat)
    requires WakeInv(s) && MayFinish(s, pid)
    ensures WakeInv(LaunchFinishTx(s, pid)) <==> !WokenAlready(s, s.launches[pid].key)
  {
    var k, t := s.launches[pid].key, LaunchFinishTx(s, pid);
    assert t.wakeups == s.wakeups && t.items == s.items[k := LaunchedItem(s.items[k], s.launches[pid].run)];
    if WokenAlready(s, k) {
      var wk :| wk in s.wakeups && wk.RunTerminal? && s.wakeups[wk].target == Some(k);
      assert !Matches(t, wk);
    } else {
      forall wk | wk in t.wakeups && wk.RunTerminal? ensures Matches(t, wk) {
        assert Matches(s, wk);
      }
    }
  }

  // ------------------------------------------------------------------ reachable failures

  const A: Key := "A1"
  const B: Key := "B1"

  const ProposeA := Decision(Propose, Active, [Proposal(A, "", 0, [])], None)
  const ProposeAAfterB := Decision(Propose, Active, [Proposal(A, "", 0, [B]), Proposal(B, "", 0, [])], None)

  const Fresh := State(map[], {}, map[], map[], map[], map[], map[], Mission(Active, true, 1, 1, 1), 0, 0)

  lemma ProposalsValid()
    ensures Judge(ProposeA) == NoFault && Judge(ProposeAAfterB) == NoFault
  {
    var e0, e1 := Edges(ProposeA.items), Edges(ProposeAAfterB.items);
    assert e0 == {} by {
      forall p, d | p in ProposeA.items && d in p.dependencies ensures false {}
    }
    TopologicalIsAcyclic(e0, []);
    forall e | e in e1 ensures e == (A, B) {
      var p, d :| p in ProposeAAfterB.items && d in p.dependencies && e == (p.key, d);
    }
    assert Topological(e1, [B, A]) by {
      assert [B, A][..1] == [B];
    }
    TopologicalIsAcyclic(e1, [B, A]);
    assert ProposeAAfterB.items[0].key == A && ProposeAAfterB.items[1].key == B;
    assert Keys(ProposeAAfterB.items) == {A, B} by {
      assert ProposeAAfterB.items[0] in ProposeAAfterB.items && ProposeAAfterB.items[1] in ProposeAAfterB.items;
    }
  }

  const Request := JobRequest("", 0, 1)
  const TheRun := EnqueuedRun(1)
  const ReadyItem := Item("", 0, Ready, 1, 1, Some(UserDirection(0)), None, None, 0)

  /** The mission holds the one ready item; only launches, jobs and runs have moved. */
  ghost predicate At(s: State, launches: map<nat, Launch>, queued: bool) {
    && s.items == map[A := ReadyItem] && s.deps == {}
    && s.runs == (if queued then map[TheRun := Queued] else map[])
    && s.jobs == (if queued then map[A := StoredJob(Request, TheRun)] else map[])
    && s.launches == launches
    && s.mission.lifecycle == Active && s.mission.autonomous && s.mission.directive == 1 && s.mission.team == 1
    && s.serial == (if queued then 2 else 1)
    && (forall wk | wk in s.wakeups :: !wk.RunTerminal?)
  }

  lemma Opening()
    ensures At(Step(Step(Fresh, Message), Apply(ForMessage(0), ProposeA, true)), map[], false)
  {
    var m := MessageTx(Fresh);
    assert m == Step(Fresh, Message);
    var turn := m.turns[ForMessage(0)];
    assert turn == Turn(1, 1, Some(UserDirection(0)), 0, TurnOpen);
    var p := Proposal(A, "", 0, []);
    assert ProposeA.items == [p] && Keys([p]) == {A} by { assert p in [p]; }
    assert ApplyVerdict(m, turn, ProposeA, true) == AppliedNow;
    assert Edges([p]) == {};
    assert Proposed([p], A) == p;
    assert Replan(map[], [p], turn) == map[A := ReplanItem(None, p, turn)];
  }

  lemma Checks(s: State, launches: map<nat, Launch>, pid: nat)
    requires At(s, launches, false) && pid !in launches
    ensures At(Step(s, LaunchCheck(pid, A, true)), launches[pid := Checked(A, Request)], false)
  {
    assert DepsAccepted(s.items, s.deps, A);
    assert Step(s, LaunchCheck(pid, A, true)) == LaunchCheckTx(s, pid, A, true);
  }

  lemma Enqueues(s: State, launches: map<nat, Launch>, pid: nat, queued: bool)
    requires At(s, launches, queued) && pid in launches && launches[pid] == Checked(A, Request)
    ensures At(Step(s, LaunchEnqueue(pid, true)), launches[pid := Enqueued(A, TheRun)], true)
  {
    assert Step(s, LaunchEnqueue(pid, true)) == LaunchEnqueueTx(s, pid, true);
  }

  // Two callers pass the guards, and both enqueue: the second gets the stored run.

  const Propose1 := [Message, Apply(ForMessage(0), ProposeA, true)]
  const Check2 := Propose1 + [LaunchCheck(0, A, true)] + [LaunchCheck(1, A, true)]
  const Launch2 := Check2 + [LaunchEnqueue(0, true)] + [LaunchEnqueue(1, true)]
  const BothQueued: map<nat, Launch> := map[0 := Enqueued(A, TheRun), 1 := Enqueued(A, TheRun)]

  lemma RunAppend(s: State, ops: seq<Op>, op: Op)
    ensures Run(s, ops + [op]) == Step(Run(s, ops), op)
  {
    assert (ops + [op])[..|ops|] == ops;
  }

  lemma TwoMore(s: State, ops: seq<Op>, x: Op, y: Op)
    ensures Run(s, ops + [x] + [y]) == Step(Step(Run(s, ops), x), y)
  {
    RunAppend(s, ops, x);
    RunAppend(s, ops + [x], y);
  }

  lemma LaunchedTwice()
    ensures At(Run(Fresh, Launch2), BothQueued, true)
  {
    Opening();
    TwoMore(Fresh, [], Propose1[0], Propose1[1]);
    assert [] + [Propose1[0]] + [Propose1[1]] == Propose1;
    ChecksTwice(Run(Fresh, Propose1));
    TwoMore(Fresh, Propose1, LaunchCheck(0, A, true), LaunchCheck(1, A, true));
    EnqueuesTwice(Run(Fresh, Check2));
    TwoMore(Fresh, Check2, LaunchEnqueue(0, true), LaunchEnqueue(1, true));
  }

  lemma ChecksTwice(s: State)
    requires At(s, map[], false)
    ensures At(Step(Step(s, LaunchCheck(0, A, true)), LaunchCheck(1, A, true)),
               map[0 := Checked(A, Request), 1 := Checked(A, Request)], false)
  {
    Checks(s, map[], 0);
    Checks(Step(s, LaunchCheck(0, A, true)), map[0 := Checked(A, Request)], 1);
    assert map[0 := Checked(A, Request)][1 := Checked(A, Request)] == map[0 := Checked(A, Request), 1 := Checked(A, Request)];
  }

  lemma EnqueuesTwice(s: State)
    requires At(s, map[0 := Checked(A, Request), 1 := Checked(A, Request)], false)
    ensures At(Step(Step(s, LaunchEnqueue(0, true)), LaunchEnqueue(1, true)), BothQueued, true)
  {
    Enqueues(s, map[0 := Checked(A, Request), 1 := Checked(A, Request)], 0, false);
    var next := map[0 := Enqueued(A, TheRun), 1 := Checked(A, Request)];
    assert map[0 := Checked(A, Request), 1 := Checked(A, Request)][0 := Enqueued(A, TheRun)] == next;
    Enqueues(Step(s, LaunchEnqueue(0, true)), next, 1, true);
    assert next[1 := Enqueued(A, TheRun)] == BothQueued;
  }

  // The item is re-planned between enqueue and finish.

  const Replan2 := Apply(ForMessage(2), ProposeAAfterB, true)

  lemma Replans(s: State)
    requires At(s, BothQueued, true)
    ensures var u := Step(Step(s, Message), Replan2);
      && u.launches == BothQueued && (A, B) in u.deps && A in u.items && B in u.items
      && u.items[A].run.None? && u.items[B].lifecycle == Ready
  {
    var m := MessageTx(s);
    assert m == Step(s, Message);
    var turn := m.turns[ForMessage(2)];
    assert turn == Turn(1, 1, Some(UserDirection(2)), s.cursor, TurnOpen);
    ReplansFrom(m, turn);
  }

  lemma ReplansFrom(m: State, turn: Turn)
    requires m.items == map[A := ReadyItem] && m.launches == BothQueued && ForMessage(2) in m.turns
    requires m.turns[ForMessage(2)] == turn && Governs(m, turn) && turn.wakeup == Some(UserDirection(2))
    ensures var u := Step(m, Replan2);
      && u.launches == BothQueued && (A, B) in u.deps && A in u.items && B in u.items
      && u.items[A].run.None? && u.items[B].lifecycle == Ready
  {
    var pa, pb := Proposal(A, "", 0, [B]), Proposal(B, "", 0, []);
    var items := [pa, pb];
    assert ProposeAAfterB.items == items && items[0] in items && items[1] in items;
    assert Keys(items) == {A, B};
    assert Updatable(m.items, pa) && Updatable(m.items, pb) && NoRepeats(pa) && NoRepeats(pb);
    assert ApplyVerdict(m, turn, ProposeAAfterB, true) == AppliedNow;
    assert Proposed(items, B) == pb;
    assert B !in m.items;
    assert Step(m, Replan2) == Commit(m, ForMessage(2), ProposeAAfterB);
  }

  lemma FinishAfterReplan(u: State)
    requires u.launches == BothQueued && (A, B) in u.deps && A in u.items && B in u.items
    requires u.items[A].run.None? && u.items[B].lifecycle == Ready
    ensures !DepSafe(Step(u, LaunchFinish(0)))
  {
    var t := LaunchFinishTx(u, 0);
    assert t == Step(u, LaunchFinish(0));
    assert (A, B) in t.deps && t.items[A].lifecycle == Started && t.items[B].lifecycle == Ready;
  }

  const EarlyStart := Launch2 + [Message] + [Replan2] + [LaunchFinish(0)]

  lemma LegalAppend(ops: seq<Op>, op: Op)
    requires LegalRun(ops) && Legal(op)
    ensures LegalRun(ops + [op])
  {
  }

  lemma LaunchTwiceLegal()
    ensures LegalRun(Launch2)
  {
    ProposalsValid();
    LegalAppend([], Propose1[0]);
    LegalAppend([] + [Propose1[0]], Propose1[1]);
    assert [] + [Propose1[0]] + [Propose1[1]] == Propose1;
    LegalAppend(Propose1, LaunchCheck(0, A, true));
    LegalAppend(Propose1 + [LaunchCheck(0, A, true)], LaunchCheck(1, A, true));
    LegalAppend(Check2, LaunchEnqueue(0, true));
    LegalAppend(Check2 + [LaunchEnqueue(0, true)], LaunchEnqueue(1, true));
  }

  lemma EarlyStartLegal()
    ensures LegalRun(EarlyStart)
  {
    ProposalsValid();
    LaunchTwiceLegal();
    LegalAppend(Launch2, Message);
    LegalAppend(Launch2 + [Message], Replan2);
    LegalAppend(Launch2 + [Message] + [Replan2], LaunchFinish(0));
  }

  /** Re-planned between enqueue and finish, an item starts although its dependency is not accepted. */
  lemma EarlyStartIsReachable()
    ensures Initial(Fresh) && LegalRun(EarlyStart) && !DepSafe(Run(Fresh, EarlyStart))
  {
    EarlyStartLegal();
    var before := Launch2 + [Message] + [Replan2];
    LaunchedTwice();
    Replans(Run(Fresh, Launch2));
    TwoMore(Fresh, Launch2, Message, Replan2);
    FinishAfterReplan(Run(Fresh, before));
    RunAppend(Fresh, before, LaunchFinish(0));
  }

  // The second caller finishes only after the run completed and the item was accepted.

  const AcceptThenReopen := Launch2 + [LaunchFinish(0)] + [RunChange(TheRun, RunStatus.Completed)]
                          + [Reconcile([A])] + [LaunchFinish(1)]

  ghost predicate StartedAlone(s: State, status: RunStatus) {
    && s.items.Keys == {A} && s.deps == {} && s.items[A].run == Some(TheRun) && s.items[A].lifecycle == Started
    && s.runs == map[TheRun := status] && s.launches == map[1 := Enqueued(A, TheRun)]
    && s.mission.lifecycle == Active && s.mission.autonomous
    && (forall wk | wk in s.wakeups :: !wk.RunTerminal?)
  }

  lemma FinishesFirst(s: State)
    requires At(s, BothQueued, true)
    ensures StartedAlone(Step(Step(s, LaunchFinish(0)), RunChange(TheRun, RunStatus.Completed)), RunStatus.Completed)
  {
    var t := LaunchFinishTx(s, 0);
    assert t == Step(s, LaunchFinish(0));
    assert t.launches == map[1 := Enqueued(A, TheRun)];
    assert t.runs[TheRun := RunStatus.Completed] == map[TheRun := RunStatus.Completed];
  }

  lemma SettlesAlone(s: State)
    requires StartedAlone(s, RunStatus.Completed)
    ensures Lists(s, [A]) && Finishing(s, A) && FinishedOf(s, [A]) == [A]
    ensures Wakeable(Settled(s, [A]).mission)
  {
    assert Joined(s, A) && Finishing(s, A);
    assert Relabel(s, []) == Active && [A][..0] == [];
    assert Relabel(s, [A]) == Active;
    assert FinishedOf(s, []) == [];
  }

  lemma AcceptsAndWakes(s: State)
    requires StartedAlone(s, RunStatus.Completed)
    ensures var t := Step(s, Reconcile([A]));
      && t.launches == map[1 := Enqueued(A, TheRun)] && A in t.items
      && t.items[A].lifecycle == Accepted && t.items[A].run == Some(TheRun)
      && RunTerminal(TheRun, Accepted) in t.wakeups && t.wakeups[RunTerminal(TheRun, Accepted)].target == Some(A)
  {
    SettlesAlone(s);
    ReconcileFrame(s, [A]);
    assert ReconciledRow(s, ReconcileTx(s, [A]), A);
    WakesAlone(s);
  }

  lemma WakesAlone(s: State)
    requires StartedAlone(s, RunStatus.Completed) && Lists(s, [A]) && Finishing(s, A)
    requires FinishedOf(s, [A]) == [A] && Wakeable(Settled(s, [A]).mission)
    ensures var t := ReconcileTx(s, [A]);
      RunTerminal(TheRun, Accepted) in t.wakeups && t.wakeups[RunTerminal(TheRun, Accepted)].target == Some(A)
  {
    var m := Settled(s, [A]);
    SettledRow(s, [A], A);
    assert [A][..0] == [] && Announce(m, []) == m;
    assert Announce(m, [A]) == AnnounceOne(m, A);
    assert AnnounceOne(m, A).wakeups == WakeupsAfter(m, A);
  }

  lemma Reopens(t: State)
    requires t.launches == map[1 := Enqueued(A, TheRun)] && A in t.items
    requires t.items[A].lifecycle == Accepted && t.items[A].run == Some(TheRun)
    requires RunTerminal(TheRun, Accepted) in t.wakeups && t.wakeups[RunTerminal(TheRun, Accepted)].target == Some(A)
    ensures !TerminalKept(t, Step(t, LaunchFinish(1))) && !WakeInv(Step(t, LaunchFinish(1)))
  {
    var u := LaunchFinishTx(t, 1);
    assert u == Step(t, LaunchFinish(1));
    assert u.items[A].lifecycle == Started;
    assert !Matches(u, RunTerminal(TheRun, Accepted));
  }

  lemma AcceptThenReopenLegal()
    ensures LegalRun(AcceptThenReopen)
  {
    LaunchTwiceLegal();
    LegalAppend(Launch2, LaunchFinish(0));
    LegalAppend(Launch2 + [LaunchFinish(0)], RunChange(TheRun, RunStatus.Completed));
    LegalAppend(Launch2 + [LaunchFinish(0)] + [RunChange(TheRun, RunStatus.Completed)], Reconcile([A]));
    LegalAppend(Launch2 + [LaunchFinish(0)] + [RunChange(TheRun, RunStatus.Completed)] + [Reconcile([A])], LaunchFinish(1));
  }

  /** Finished by a second caller, an accepted item is started again and its wakeup no longer holds. */
  lemma ReopeningIsReachable()
    ensures LegalRun(AcceptThenReopen) && !WakeInv(Run(Fresh, AcceptThenReopen))
    ensures !TerminalKept(Run(Fresh, AcceptThenReopen[..|AcceptThenReopen| - 1]), Run(Fresh, AcceptThenReopen))
  {
    AcceptThenReopenLegal();
    LaunchedTwice();
    var one := Launch2 + [LaunchFinish(0)] + [RunChange(TheRun, RunStatus.Completed)];
    FinishesFirst(Run(Fresh, Launch2));
    TwoMore(Fresh, Launch2, LaunchFinish(0), RunChange(TheRun, RunStatus.Completed));
    AcceptsAndWakes(Run(Fresh, one));
    RunAppend(Fresh, one, Reconcile([A]));
    Reopens(Run(Fresh, one + [Reconcile([A])]));
    RunAppend(Fresh, one + [Reconcile([A])], LaunchFinish(1));
    assert AcceptThenReopen[..|AcceptThenReopen| - 1] == one + [Reconcile([A])];
  }
}
