/** A cancelled mission is not cancelled for good. */
module BacklogCancellation {
  import opened Wrappers
  import opened Graphs
  import opened Decisions
  import opened Backlog
  import opened BacklogSafety
  import opened BacklogProgress
  import opened BacklogLaunches

  /** Some started item's run is waiting for approval. */
  predicate AwaitsApproval(s: State) {
    exists k | k in s.items :: Joined(s, k) && s.runs[s.items[k].run.value] == ApprovalRequired
  }

  /** What takes a mission out of `cancelled`: each case is a guard of the step itself. */
  predicate Revives(s: State, op: Op) {
    match op
    case Apply(t, d, admitted) =>
      t in s.turns && ApplyVerdict(s, s.turns[t], d, admitted) == AppliedNow && d.lifecycle != MissionLifecycle.Cancelled
    case FailTurn(t, block) => t in s.turns && s.turns[t].status !in {TurnApplied, TurnStale} && block
    case Control(lifecycle, _) => lifecycle != MissionLifecycle.Cancelled
    case Reconcile(order) => Lists(s, order) && AwaitsApproval(s)
    case AwaitSlot(k, stopped) => Executing(s, k) && !stopped
    case _ => false
  }

  lemma {:induction false} RelabelFromCancelled(s: State, order: seq<Key>)
    requires s.mission.lifecycle == MissionLifecycle.Cancelled && forall k | k in order :: Joined(s, k)
    ensures Relabel(s, order) in {MissionLifecycle.Cancelled, WaitingForApproval, Active}
    ensures Relabel(s, order) != MissionLifecycle.Cancelled
            <==> exists k | k in order :: Joined(s, k) && s.runs[s.items[k].run.value] == ApprovalRequired
  {
    if order != [] {
      var rest, k := order[..|order| - 1], order[|order| - 1];
      assert order == rest + [k] && k in order;
      assert forall l | l in rest :: l in order;
      RelabelFromCancelled(s, rest);
    }
  }

  lemma ReconcileFromCancelled(s: State, order: seq<Key>)
    requires s.mission.lifecycle == MissionLifecycle.Cancelled && Lists(s, order)
    ensures ReconcileTx(s, order).mission.lifecycle != MissionLifecycle.Cancelled <==> AwaitsApproval(s)
  {
    RelabelFromCancelled(s, order);
    FinishedOfIs(s, order);
    AnnounceMission(Settled(s, order), FinishedOf(s, order));
  }

  lemma ApplyFromCancelled(s: State, t: TurnId, d: Decision, admitted: bool)
    requires s.mission.lifecycle == MissionLifecycle.Cancelled && t in s.turns
    ensures ApplyTx(s, t, d, admitted).mission.lifecycle != MissionLifecycle.Cancelled <==> Revives(s, Apply(t, d, admitted))
  {
  }

  lemma LaunchFromCancelled(s: State, op: Op)
    requires s.mission.lifecycle == MissionLifecycle.Cancelled && IsLaunch(op)
    ensures LaunchTx(s, op).mission.lifecycle == MissionLifecycle.Cancelled
  {
  }

  lemma RestFromCancelled(s: State, op: Op)
    requires s.mission.lifecycle == MissionLifecycle.Cancelled
    requires !op.Apply? && !op.Dispatch? && !op.Reconcile? && !IsLaunch(op) && !IsTurn(op)
    ensures OwnerTx(s, op).mission.lifecycle != MissionLifecycle.Cancelled <==> Revives(s, op)
  {
  }

  lemma TurnFromCancelled(s: State, op: Op)
    requires s.mission.lifecycle == MissionLifecycle.Cancelled && IsTurn(op)
    ensures TurnTx(s, op).mission.lifecycle != MissionLifecycle.Cancelled <==> Revives(s, op)
  {
  }

  /** A step takes the mission out of `cancelled` exactly when one of those guards is open. */
  lemma CancelledIsLeftExactly(s: State, op: Op)
    requires s.mission.lifecycle == MissionLifecycle.Cancelled
    ensures Step(s, op).mission.lifecycle != MissionLifecycle.Cancelled <==> Revives(s, op)
  {
    match op
    case Apply(t, d, admitted) => if t in s.turns { ApplyFromCancelled(s, t, d, admitted); }
    case Reconcile(order) => if Lists(s, order) { ReconcileFromCancelled(s, order); }
    case Dispatch(_, _, _) =>
    case _ =>
      if IsLaunch(op) {
        LaunchFromCancelled(s, op);
      } else if IsTurn(op) {
        TurnFromCancelled(s, op);
      } else {
        RestFromCancelled(s, op);
      }
  }

  lemma MessageOpens(s: State)
    requires Initial(s) && s.mission.lifecycle == Active
    ensures var t := Step(s, Message);
      && ForMessage(s.serial) in t.turns && t.items == s.items
      && t.mission.directive == s.mission.directive && t.mission.team == s.mission.team
      && t.turns[ForMessage(s.serial)] == Turn(s.mission.directive, s.mission.team, Some(UserDirection(s.serial)), s.cursor, TurnOpen)
  {
  }

  lemma AnswerApplies(s: State, t: TurnId, d: Decision)
    requires t in s.turns && Governs(s, s.turns[t]) && d.items == []
    requires s.turns[t].wakeup.Some? && s.turns[t].wakeup.value.UserDirection?
    ensures Step(s, Apply(t, d, true)).mission.lifecycle == d.lifecycle
  {
  }

  /**
    It is reachable: the owner sends a message and cancels the mission, and the answer to
    the message, whatever validated response without work it is, takes effect after that.
   */
  lemma CancelledIsRevived(s: State, autonomous: bool, d: Decision)
    requires Initial(s) && s.mission.lifecycle == Active && Judge(d) == NoFault && d.items == []
    ensures var cancel := [Message, Control(MissionLifecycle.Cancelled, autonomous)];
      var answer := Apply(ForMessage(s.serial), d, true);
      && LegalRun(cancel + [answer])
      && Run(s, cancel).mission.lifecycle == MissionLifecycle.Cancelled
      && Run(s, cancel + [answer]).mission.lifecycle == d.lifecycle != MissionLifecycle.Cancelled
  {
    var x, y := Message, Control(MissionLifecycle.Cancelled, autonomous);
    MessageOpens(s);
    RunAppend(s, [x], y);
    RunAppend(s, [x, y], Apply(ForMessage(s.serial), d, true));
    assert [x] + [y] == [x, y];
    OneStep(s, x);
    AnswerApplies(Run(s, [x, y]), ForMessage(s.serial), d);
  }

  lemma OneStep(s: State, op: Op)
    ensures Run(s, [op]) == Step(s, op)
  {
    assert [op][..0] == [];
  }

  // ------------------------------------------------------------------ a worker labels a cancelled mission

  const ProposeBoth := Decision(Propose, Active, [Proposal(A, "", 0, []), Proposal(B, "", 0, [])], None)

  lemma BothValid()
    ensures Judge(ProposeBoth) == NoFault
  {
    var e := Edges(ProposeBoth.items);
    assert e == {} by {
      forall p, d | p in ProposeBoth.items && d in p.dependencies ensures false {}
    }
    TopologicalIsAcyclic(e, []);
  }

  /** Two ready items, nothing started. */
  ghost predicate TwoReady(s: State) {
    && s.items == map[A := ReadyItem, B := ReadyItem] && s.deps == {} && s.runs == map[]
    && s.mission.lifecycle == Active && s.mission.autonomous && s.mission.directive == 1
  }

  /** Both are started, each on its own run. */
  ghost predicate TwoStarted(s: State, first: RunStatus, lifecycle: MissionLifecycle) {
    && s.items == map[A := LaunchedItem(ReadyItem, AutoRun(A)), B := LaunchedItem(ReadyItem, AutoRun(B))]
    && s.runs == map[AutoRun(A) := first, AutoRun(B) := Queued]
    && s.mission.lifecycle == lifecycle && s.mission.autonomous
  }

  lemma OpensTwo()
    ensures TwoReady(Step(Step(Fresh, Message), Apply(ForMessage(0), ProposeBoth, true)))
  {
    var m := MessageTx(Fresh);
    assert m == Step(Fresh, Message);
    var turn := m.turns[ForMessage(0)];
    assert turn == Turn(1, 1, Some(UserDirection(0)), 0, TurnOpen);
    var items := ProposeBoth.items;
    assert items == [Proposal(A, "", 0, []), Proposal(B, "", 0, [])];
    assert items[0] in items && items[1] in items && Keys(items) == {A, B};
    assert ApplyVerdict(m, turn, ProposeBoth, true) == AppliedNow;
    assert Edges(items) == {};
    assert Proposed(items, A) == items[0] && Proposed(items, B) == items[1];
    assert Replan(map[], items, turn) == map[A := ReadyItem, B := ReadyItem];
  }

  lemma DispatchesBoth(s: State)
    requires TwoReady(s)
    ensures TwoStarted(Step(Step(s, Dispatch(A, Open, 8)), Dispatch(B, Open, 8)), Queued, Active)
  {
    assert ActiveKeys(s) == {};
    DispatchesOne(s, A);
    var t := Step(s, Dispatch(A, Open, 8));
    assert ActiveKeys(t) == {A};
    DispatchesOne(t, B);
  }

  lemma DispatchesOne(s: State, k: Key)
    requires Dispatchable(s, k) && MayDispatch(s.mission) && AutoRun(k) !in s.runs && |ActiveKeys(s)| < 8
    ensures var t := Step(s, Dispatch(k, Open, 8));
      && t.items == s.items[k := LaunchedItem(s.items[k], AutoRun(k))] && t.runs == s.runs[AutoRun(k) := Queued]
      && t.mission == s.mission.(lifecycle := Active, version := s.mission.version + 1)
  {
    assert Step(s, Dispatch(k, Open, 8)) == DispatchTx(s, k, Open, 8) == StartTx(s, k);
  }

  lemma StopsOne(s: State)
    requires TwoStarted(s, Queued, Active)
    ensures TwoStarted(Step(Step(s, Control(Cancelling, true)), RunChange(AutoRun(A), RunCancelled)), RunCancelled, Cancelling)
  {
  }

  lemma JoinedBoth(s: State)
    requires TwoStarted(s, RunCancelled, Cancelling)
    ensures Joined(s, A) && Joined(s, B) && Finishing(s, A) && !Finishing(s, B)
    ensures s.items.Keys == {A, B} && s.runs[s.items[B].run.value] == Queued
  {
  }

  lemma ListsBoth(s: State)
    requires TwoStarted(s, RunCancelled, Cancelling)
    ensures Lists(s, [A, B]) && FinishedOf(s, [A, B]) == [A]
  {
    JoinedBoth(s);
    var both := [A, B];
    assert both[..1] == [A] && [A][..0] == [] && FinishedOf(s, []) == [];
    assert FinishedOf(s, [A]) == [A];
  }

  lemma NoApproval(s: State)
    requires TwoStarted(s, RunCancelled, Cancelling) && Lists(s, [A, B])
    ensures Relabel(s, [A, B]) == Cancelling
  {
    JoinedBoth(s);
    var both := [A, B];
    assert both[..1] == [A] && [A][..0] == [] && Relabel(s, []) == Cancelling;
    assert Relabel(s, [A]) == Cancelling;
  }

  lemma StillExecuting(s: State)
    requires TwoStarted(s, RunCancelled, Cancelling) && Lists(s, [A, B])
    ensures Executing(ReconcileTx(s, [A, B]), B)
  {
    JoinedBoth(s);
    ReconcileFrame(s, [A, B]);
    assert ReconciledRow(s, ReconcileTx(s, [A, B]), B);
  }

  lemma EndsCancelled(s: State)
    requires TwoStarted(s, RunCancelled, Cancelling)
    ensures var t := Step(s, Reconcile([A, B]));
      t.mission.lifecycle == MissionLifecycle.Cancelled && t.mission.autonomous && Executing(t, B)
  {
    ListsBoth(s);
    JoinedBoth(s);
    StillExecuting(s);
    FinishedOfIs(s, [A, B]);
    NoApproval(s);
    AnnouncesCancelled(Settled(s, [A, B]));
  }

  lemma AnnouncesCancelled(m: State)
    requires A in m.items && m.items[A].run.Some? && m.mission.lifecycle == Cancelling
    ensures Announce(m, [A]).mission == m.mission.(lifecycle := MissionLifecycle.Cancelled)
  {
    assert [A][..0] == [] && Announce(m, []) == m;
    assert Announce(m, [A]) == AnnounceOne(m, A);
  }

  const TwoAtWork := [Message, Apply(ForMessage(0), ProposeBoth, true)] + [Dispatch(A, Open, 8)] + [Dispatch(B, Open, 8)]
  const CancelOfTwo := TwoAtWork + [Control(Cancelling, true)] + [RunChange(AutoRun(A), RunCancelled)] + [Reconcile([A, B])]

  lemma CancelOfTwoLegal()
    ensures LegalRun(CancelOfTwo + [AwaitSlot(B, false)])
  {
    BothValid();
  }

  lemma ReachesTwo()
    ensures TwoStarted(Run(Fresh, TwoAtWork), Queued, Active)
  {
    var x, y := Message, Apply(ForMessage(0), ProposeBoth, true);
    OpensTwo();
    TwoMore(Fresh, [], x, y);
    assert [] + [x] + [y] == [x, y];
    DispatchesBoth(Run(Fresh, [x, y]));
    TwoMore(Fresh, [x, y], Dispatch(A, Open, 8), Dispatch(B, Open, 8));
  }

  lemma WorkerRevives(ops: seq<Op>)
    requires TwoStarted(Run(Fresh, ops), Queued, Active)
    ensures var cancelled := ops + [Control(Cancelling, true)] + [RunChange(AutoRun(A), RunCancelled)] + [Reconcile([A, B])];
      && Run(Fresh, cancelled).mission.lifecycle == MissionLifecycle.Cancelled
      && Run(Fresh, cancelled + [AwaitSlot(B, false)]).mission.lifecycle == WaitingForCapacity
      && Run(Fresh, cancelled + [AwaitSlot(B, false)]).mission.autonomous
  {
    var x, y := Control(Cancelling, true), RunChange(AutoRun(A), RunCancelled);
    var stopped := ops + [x] + [y];
    StopsOne(Run(Fresh, ops));
    TwoMore(Fresh, ops, x, y);
    EndsCancelled(Run(Fresh, stopped));
    LastTwo(stopped, Reconcile([A, B]));
  }

  lemma LastTwo(ops: seq<Op>, op: Op)
    requires Executing(Step(Run(Fresh, ops), op), B)
    ensures Run(Fresh, ops + [op]) == Step(Run(Fresh, ops), op)
    ensures Run(Fresh, ops + [op] + [AwaitSlot(B, false)]).mission
            == Step(Run(Fresh, ops), op).mission.(lifecycle := WaitingForCapacity)
  {
    TwoMore(Fresh, ops, op, AwaitSlot(B, false));
    RunAppend(Fresh, ops, op);
    Overwrites(Step(Run(Fresh, ops), op), B);
  }

  lemma Overwrites(s: State, k: Key)
    requires Executing(s, k)
    ensures Step(s, AwaitSlot(k, false)).mission == s.mission.(lifecycle := WaitingForCapacity)
  {
  }

  /**
    It is reachable without any answer in flight: of two runs at work one receives the
    owner's cancellation and ends, which completes it, and the other run's worker, still
    waiting for a slot, makes the mission one that dispatch serves again.
   */
  lemma WorkerRevivesCancelled()
    ensures LegalRun(CancelOfTwo + [AwaitSlot(B, false)])
    ensures Run(Fresh, CancelOfTwo).mission.lifecycle == MissionLifecycle.Cancelled
    ensures var t := Run(Fresh, CancelOfTwo + [AwaitSlot(B, false)]);
      t.mission.lifecycle == WaitingForCapacity && MayDispatch(t.mission)
  {
    CancelOfTwoLegal();
    ReachesTwo();
    WorkerRevives(TwoAtWork);
  }
}
