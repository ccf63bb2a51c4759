/**
  The backlog and the ledger together. Starting an item reserves its job in the same
  transaction, a refused enqueue releases it in another, and reconciliation settles it.
  This module says exactly when the job of a started item is charged in full.
 */
module JobCharges {
  import opened Wrappers
  import opened Decisions
  import Backlog
  import BacklogSafety
  import BacklogTheorems
  import BacklogLaunches
  import DispatchEffects
  import LaunchEffects
  import Ledger
  import LedgerLaws
  import LedgerReplays

  /** `refused` holds the launches whose enqueue failed and whose release is still due. */
  datatype State = State(mission: nat, backlog: Backlog.State, ledger: Ledger.State, refused: map<nat, Key>)

  datatype Op =
    | Dispatch(key: Key, gate: Backlog.DispatchGate, activeLimit: nat, teamSeconds: nat, now: int)
    | Check(pid: nat, key: Key, admitted: bool, now: int)
    | Enqueue(pid: nat, available: bool)
    | ReleaseRefused(pid: nat)
    | Reconcile(order: seq<Key>, wall: map<Key, nat>)
    | OnBacklog(backlogOp: Backlog.Op)
    | OnLedger(ledgerOp: Ledger.Op)

  // ------------------------------------------------------------------ what a job asks for

  function Action(k: Key): (a: string)
    ensures |a| >= 4 && a[4..] == k
  {
    "job:" + k
  }

  predicate IsJob(a: string) { |a| >= 4 && a == Action(a[4..]) }

  function Min(x: nat, y: nat): nat { if x <= y then x else y }

  /** At most two hours, the mission's wall time and, if given, what the team may execute. */
  function JobRequest(m: Ledger.MissionRow, k: Key, teamSeconds: Option<nat>, now: int): Ledger.Request
    requires Ledger.ValidLimits(m.limits)
  {
    var seconds := Min(7_200, m.limits.maximum[Ledger.WallSeconds]);
    var wall := if teamSeconds.Some? then Min(seconds, teamSeconds.value) else seconds;
    Ledger.Request(Action(k), map[Ledger.ActiveJobs := 1, Ledger.WallSeconds := wall], m.limits.currency, "currency", now)
  }

  function Spent(wall: map<Key, nat>, k: Key): Ledger.Amounts {
    map[Ledger.ActiveJobs := 0, Ledger.WallSeconds := if k in wall then wall[k] else 0]
  }

  /** One job, for the least of two hours, the mission's wall time and, if given, the team's. */
  lemma JobAsksFor(m: Ledger.MissionRow, k: Key, teamSeconds: Option<nat>, now: int)
    requires Ledger.ValidLimits(m.limits)
    ensures var req := JobRequest(m, k, teamSeconds, now);
      var wall := Ledger.Value(req.liability, Ledger.WallSeconds);
      && req.action == "job:" + k && req.currency == m.limits.currency && req.now == now
      && Ledger.Value(req.liability, Ledger.ActiveJobs) == 1
      && (forall f: Ledger.Field :: f !in {Ledger.ActiveJobs, Ledger.WallSeconds} ==> Ledger.Value(req.liability, f) == 0)
      && wall <= 2 * 3_600 && wall <= m.limits.maximum[Ledger.WallSeconds] && (teamSeconds.Some? ==> wall <= teamSeconds.value)
      && (wall == 2 * 3_600 || wall == m.limits.maximum[Ledger.WallSeconds] || teamSeconds == Some(wall))
  {
  }

  predicate Valid(s: State) {
    Ledger.Valid(s.ledger) && s.mission in s.ledger.missions
  }

  // ------------------------------------------------------------------ the joint transactions

  /** The transaction comes as far as its reservation. */
  predicate Asks(s: State, op: Op) {
    match op
    case Dispatch(k, gate, limit, _, _) =>
      && Backlog.MayDispatch(s.backlog.mission) && Backlog.Dispatchable(s.backlog, k)
      && gate in {Backlog.Open, Backlog.WorkflowMissing} && |Backlog.ActiveKeys(s.backlog)| < limit
    case Check(pid, k, admitted, _) =>
      && pid !in s.backlog.launches && k in s.backlog.items && s.backlog.items[k].run.None?
      && Backlog.Dispatchable(s.backlog, k) && Backlog.DepsAccepted(s.backlog.items, s.backlog.deps, k) && admitted
    case _ => false
  }

  function Asked(s: State, op: Op): Ledger.Request
    requires Valid(s) && Asks(s, op)
  {
    JobRequest(s.ledger.missions[s.mission], op.key, if op.Dispatch? then Some(op.teamSeconds) else None, op.now)
  }

  predicate Denied(s: State, op: Op)
    requires Valid(s)
  {
    Asks(s, op) && Ledger.Attempted(s.ledger, s.mission, Asked(s, op)).denial.Some?
  }

  /** Not the steps that the joint ones replace, and no other use of this mission's jobs. */
  predicate Enabled(s: State, op: Op) {
    match op
    case Dispatch(_, gate, _, _, _) => gate != Backlog.DispatchBudgetDenied
    case Check(pid, _, _, _) => pid !in s.refused
    case OnBacklog(o) => !o.Dispatch? && !o.LaunchCheck? && !o.LaunchEnqueue? && !o.Reconcile?
    case OnLedger(o) =>
      (match o
       case CreateMission(_, _) => true
       case SetLimits(_, _, _) => true
       case ReviseTeam(id, _) => id != s.mission
       case Reserve(_, req, _) => !IsJob(req.action)
       case _ => !IsJob(o.action))
    case _ => true
  }

  /** The backlog's part: a denial blocks the dispatch and turns the launch away. */
  function BacklogStep(s: State, op: Op): Backlog.State
    requires Valid(s)
  {
    match op
    case Dispatch(k, gate, limit, _, _) =>
      Backlog.Step(s.backlog, Backlog.Dispatch(k, if Denied(s, op) then Backlog.DispatchBudgetDenied else gate, limit))
    case Check(pid, k, admitted, _) => Backlog.Step(s.backlog, Backlog.LaunchCheck(pid, k, admitted && !Denied(s, op)))
    case Enqueue(pid, available) => Backlog.Step(s.backlog, Backlog.LaunchEnqueue(pid, available))
    case Reconcile(order, _) => Backlog.Step(s.backlog, Backlog.Reconcile(order))
    case OnBacklog(o) => Backlog.Step(s.backlog, o)
    case _ => s.backlog
  }

  function Settlements(s: State, done: seq<Key>, wall: map<Key, nat>): seq<Ledger.Op> {
    seq(|done|, i requires 0 <= i < |done| => Ledger.Reconcile(s.mission, Action(done[i]), Some(Spent(wall, done[i])), false))
  }

  /** The ledger's part, as operations of the ledger. A dispatch catches its denial, a launch rolls back. */
  function LedgerOps(s: State, op: Op): seq<Ledger.Op>
    requires Valid(s)
  {
    match op
    case Dispatch(_, _, _, _, _) => if Asks(s, op) then [Ledger.Reserve(s.mission, Asked(s, op), true)] else []
    case Check(_, _, _, _) => if Asks(s, op) then [Ledger.Reserve(s.mission, Asked(s, op), false)] else []
    case ReleaseRefused(pid) => if pid in s.refused then [Ledger.Release(s.mission, Action(s.refused[pid]))] else []
    case Reconcile(order, wall) =>
      if Backlog.Lists(s.backlog, order) then Settlements(s, Backlog.FinishedOf(s.backlog, order), wall) else []
    case OnBacklog(o) => if o.ReviseTeam? then [Ledger.ReviseTeam(s.mission, o.team)] else []
    case OnLedger(o) => [o]
    case _ => []
  }

  function Refusals(s: State, op: Op): map<nat, Key> {
    match op
    case Enqueue(pid, available) =>
      if pid in s.backlog.launches && pid !in Backlog.Step(s.backlog, Backlog.LaunchEnqueue(pid, available)).launches
      then s.refused[pid := s.backlog.launches[pid].key] else s.refused
    case ReleaseRefused(pid) => s.refused - {pid}
    case _ => s.refused
  }

  lemma {:induction false} MissionStays(l: Ledger.State, ops: seq<Ledger.Op>, id: nat)
    requires Ledger.Valid(l) && id in l.missions
    ensures id in Ledger.Run(l, ops).missions
  {
    if ops != [] {
      MissionStays(l, ops[..|ops| - 1], id);
    }
  }

  function Step(s: State, op: Op): (t: State)
    requires Valid(s)
    ensures Valid(t) && t.mission == s.mission
  {
    if !Enabled(s, op) then s
    else
      MissionStays(s.ledger, LedgerOps(s, op), s.mission);
      State(s.mission, BacklogStep(s, op), Ledger.Run(s.ledger, LedgerOps(s, op)), Refusals(s, op))
  }

  function Run(s: State, ops: seq<Op>): (t: State)
    requires Valid(s)
    ensures Valid(t) && t.mission == s.mission
  {
    if ops == [] then s else Step(Run(s, ops[..|ops| - 1]), ops[|ops| - 1])
  }

  /** A new mission in any ledger that holds no job of its items yet. */
  predicate Initial(s: State) {
    && Valid(s) && Backlog.Initial(s.backlog) && s.refused == map[]
    && LedgerLaws.Unique(s.ledger.rows) && forall r | r in s.ledger.rows :: !IsJob(r.action)
  }

  // ------------------------------------------------------------------ money and work together

  predicate Affords(s: State, op: Op)
    requires Valid(s) && (op.Dispatch? || op.Check?)
  {
    var req := JobRequest(s.ledger.missions[s.mission], op.key, if op.Dispatch? then Some(op.teamSeconds) else None, op.now);
    Ledger.Attempted(s.ledger, s.mission, req).denial.None?
  }

  /**
    An item that is selected while there is room is started exactly if the ledger admits its
    job; if not, the mission is blocked, and what the attempt reserved before it was denied
    is committed all the same.
   */
  lemma DispatchIsPaidFor(s: State, k: Key, limit: nat, seconds: nat, now: int)
    requires Valid(s) && DispatchEffects.Selected(s.backlog, k) && |DispatchEffects.AtWork(s.backlog)| < limit
    ensures var op := Dispatch(k, Backlog.Open, limit, seconds, now);
      var t := Step(s, op);
      && (Affords(s, op) ==> DispatchEffects.Starts(s.backlog, k, t.backlog))
      && (!Affords(s, op) ==> DispatchEffects.Labelled(s.backlog, Blocked, t.backlog))
      && t.ledger.rows == Ledger.Attempted(s.ledger, s.mission, JobRequest(s.ledger.missions[s.mission], k, Some(seconds), now)).rows
      && t.refused == s.refused
  {
    var op := Dispatch(k, Backlog.Open, limit, seconds, now);
    DispatchEffects.AtWorkIs(s.backlog);
    assert Asks(s, op);
    OneOp(s.ledger, Ledger.Reserve(s.mission, Asked(s, op), true));
    var gate := if Denied(s, op) then Backlog.DispatchBudgetDenied else Backlog.Open;
    DispatchEffects.StartsExactly(s.backlog, k, gate, limit);
    DispatchEffects.RefusalsAreLabelled(s.backlog, k, gate, limit);
  }

  /** A launch passes its guards only with its reservation; if the ledger denies it nothing is left. */
  lemma LaunchIsPaidFor(s: State, pid: nat, k: Key, now: int)
    requires Valid(s) && pid !in s.backlog.launches && pid !in s.refused && LaunchEffects.Launchable(s.backlog, k)
    ensures var op := Check(pid, k, true, now);
      var t := Step(s, op);
      && (pid in t.backlog.launches <==> Affords(s, op))
      && (!Affords(s, op) ==> t == s)
      && (Affords(s, op) ==>
            t.ledger.rows == Ledger.Attempted(s.ledger, s.mission, JobRequest(s.ledger.missions[s.mission], k, None, now)).rows)
  {
    var op := Check(pid, k, true, now);
    assert Asks(s, op);
    OneOp(s.ledger, Ledger.Reserve(s.mission, Asked(s, op), false));
    LaunchEffects.CheckPassesExactly(s.backlog, pid, k, !Denied(s, op));
  }

  /** A refused enqueue owes a release, which is paid once; an ended run settles its wall time and no job. */
  lemma RefusalIsReleased(s: State, pid: nat, available: bool)
    requires Valid(s) && pid in s.backlog.launches && s.backlog.launches[pid].Checked?
    ensures var t := Step(s, Enqueue(pid, available));
      && t.ledger == s.ledger
      && (pid in t.backlog.launches ==> t.refused == s.refused)
      && (pid !in t.backlog.launches ==> t.refused == s.refused[pid := s.backlog.launches[pid].key])
      && var u := Step(t, ReleaseRefused(pid));
         && u.backlog == t.backlog && u.refused == t.refused - {pid}
         && (pid in t.refused ==> u.ledger == Ledger.Step(t.ledger, Ledger.Release(s.mission, "job:" + t.refused[pid])))
  {
    var t := Step(s, Enqueue(pid, available));
    assert Ledger.Run(s.ledger, []) == s.ledger;
    if pid in t.refused {
      OneOp(t.ledger, Ledger.Release(s.mission, Action(t.refused[pid])));
    }
  }

  // ------------------------------------------------------------------ a joint run is a run of each part

  lemma {:induction false} LedgerRunConcat(l: Ledger.State, a: seq<Ledger.Op>, b: seq<Ledger.Op>)
    requires Ledger.Valid(l)
    ensures Ledger.Run(l, a + b) == Ledger.Run(Ledger.Run(l, a), b)
    decreases |b|
  {
    if b == [] {
      assert a + b == a;
    } else {
      var n := |b| - 1;
      assert (a + b)[..|a + b| - 1] == a + b[..n] && (a + b)[|a + b| - 1] == b[n];
      LedgerRunConcat(l, a, b[..n]);
    }
  }

  /** What the step does to the backlog, if anything, is a step of the backlog. */
  lemma BacklogPart(s: State, op: Op) returns (o: Option<Backlog.Op>)
    requires Valid(s) && (op.OnBacklog? ==> Backlog.Legal(op.backlogOp))
    ensures o.None? ==> Step(s, op).backlog == s.backlog
    ensures o.Some? ==> Backlog.Legal(o.value) && Step(s, op).backlog == Backlog.Step(s.backlog, o.value)
  {
    o := None;
    if Enabled(s, op) {
      match op
      case Dispatch(k, gate, limit, _, _) =>
        o := Some(Backlog.Dispatch(k, if Denied(s, op) then Backlog.DispatchBudgetDenied else gate, limit));
      case Check(pid, k, admitted, _) => o := Some(Backlog.LaunchCheck(pid, k, admitted && !Denied(s, op)));
      case Enqueue(pid, available) => o := Some(Backlog.LaunchEnqueue(pid, available));
      case Reconcile(order, _) => o := Some(Backlog.Reconcile(order));
      case OnBacklog(b) => o := Some(b);
      case _ =>
    }
  }

  /**
    The parts of a joint run are runs of the backlog and of the ledger alone, so every law
    about those holds of it.
   */
  lemma {:induction false} PartsAreRuns(s: State, ops: seq<Op>) returns (b: seq<Backlog.Op>, l: seq<Ledger.Op>)
    requires Valid(s) && forall op | op in ops && op.OnBacklog? :: Backlog.Legal(op.backlogOp)
    ensures Backlog.LegalRun(b) && Run(s, ops).backlog == Backlog.Run(s.backlog, b)
    ensures Run(s, ops).ledger == Ledger.Run(s.ledger, l)
  {
    b, l := [], [];
    if ops != [] {
      var before, op := Run(s, ops[..|ops| - 1]), ops[|ops| - 1];
      b, l := PartsAreRuns(s, ops[..|ops| - 1]);
      var o := BacklogPart(before, op);
      if o.Some? {
        BacklogLaunches.RunAppend(s.backlog, b, o.value);
        b := b + [o.value];
      }
      if Enabled(before, op) {
        LedgerRunConcat(s.ledger, l, LedgerOps(before, op));
        l := l + LedgerOps(before, op);
      }
    }
  }

  // ------------------------------------------------------------------ what a step does to a job's row

  /** The step releases or settles the job of this item. */
  predicate Undoes(s: State, op: Op, k: Key) {
    match op
    case ReleaseRefused(pid) => pid in s.refused && s.refused[pid] == k
    case Reconcile(order, _) => Backlog.Lists(s.backlog, order) && Backlog.Finishing(s.backlog, k)
    case _ => false
  }

  /** Only rows at the mission's present scopes are reached. */
  predicate Reaches(s: State, op: Op, sc: Ledger.Scope, k: Key)
    requires Valid(s)
  {
    Undoes(s, op, k) && sc in Ledger.ScopeKeys(s.mission, s.ledger.missions[s.mission])
  }

  function RowAfter(s: State, op: Op, r: Ledger.Row, k: Key): Ledger.Row
    requires Valid(s)
  {
    if !Reaches(s, op, r.scope, k) then r
    else if op.Reconcile? then Ledger.Settle(r, Some(Spent(op.wall, k)), false)
    else if r.status == Ledger.Reserved then r.(status := Ledger.Released)
    else r
  }

  lemma OneOp(l: Ledger.State, o: Ledger.Op)
    requires Ledger.Valid(l)
    ensures Ledger.Run(l, [o]) == Ledger.Step(l, o) && Ledger.Run(l, []) == l
  {
    assert [o][..0] == [];
  }

  lemma {:induction false} SettledRow(s: State, done: seq<Key>, wall: map<Key, nat>, i: nat, k: Key)
    requires Valid(s) && i < |s.ledger.rows| && s.ledger.rows[i].action == Action(k)
    ensures var t := Ledger.Run(s.ledger, Settlements(s, done, wall));
      && t.missions == s.ledger.missions && |t.rows| == |s.ledger.rows|
      && t.rows[i] == if k in done && s.ledger.rows[i].scope in Ledger.ScopeKeys(s.mission, s.ledger.missions[s.mission])
                      then Ledger.Settle(s.ledger.rows[i], Some(Spent(wall, k)), false) else s.ledger.rows[i]
  {
    if done == [] {
      assert Settlements(s, done, wall) == [];
    } else {
      var n := |done| - 1;
      var all := Settlements(s, done, wall);
      assert all[..n] == Settlements(s, done[..n], wall) && done == done[..n] + [done[n]];
      SettledRow(s, done[..n], wall, i, k);
    }
  }

  lemma RowUntouched(l: Ledger.State, o: Ledger.Op, i: nat)
    requires Ledger.Valid(l) && i < |l.rows| && !(o.Reconcile? && o.action == l.rows[i].action)
    requires !(o.Release? && o.action == l.rows[i].action)
    ensures i < |Ledger.Step(l, o).rows| && Ledger.Step(l, o).rows[i] == l.rows[i]
  {
    if Ledger.Enabled(l, o) && o.Reserve? {
      LedgerLaws.AttemptAppends(l, o.id, o.request);
    }
  }

  lemma RowStep(s: State, op: Op, i: nat, k: Key)
    requires Valid(s) && Enabled(s, op) && i < |s.ledger.rows| && s.ledger.rows[i].action == Action(k)
    ensures var t := Ledger.Run(s.ledger, LedgerOps(s, op));
      i < |t.rows| && t.rows[i] == RowAfter(s, op, s.ledger.rows[i], k)
  {
    if op.Reconcile? {
      if Backlog.Lists(s.backlog, op.order) {
        Backlog.FinishedOfIs(s.backlog, op.order);
        SettledRow(s, Backlog.FinishedOf(s.backlog, op.order), op.wall, i, k);
      }
    } else if LedgerOps(s, op) != [] {
      var o := LedgerOps(s, op)[0];
      assert LedgerOps(s, op) == [o];
      OneOp(s.ledger, o);
      if !op.ReleaseRefused? {
        RowUntouched(s.ledger, o, i);
      }
    }
  }

  /** Settled for no job any more and the time it took, if it was not settled before. */
  predicate SettledFor(r: Ledger.Row, after: Ledger.Row, seconds: nat) {
    after == if r.status == Ledger.Reserved || r.status == Ledger.Released
             then r.(status := Ledger.Reconciled, actual := Some(map[Ledger.ActiveJobs := 0, Ledger.WallSeconds := seconds])) else r
  }

  lemma EndedRow(s: State, order: seq<Key>, wall: map<Key, nat>, r: Ledger.Row, k: Key)
    requires Valid(s) && k in wall && Reaches(s, Reconcile(order, wall), r.scope, k)
    ensures SettledFor(r, RowAfter(s, Reconcile(order, wall), r, k), wall[k])
  {
  }

  /** The end of a run settles its job at every scope the mission has now. */
  lemma EndedRunSettlesJob(s: State, order: seq<Key>, wall: map<Key, nat>, k: Key, i: nat)
    requires Valid(s) && k in wall && i < |s.ledger.rows| && s.ledger.rows[i].action == Action(k)
    requires Reaches(s, Reconcile(order, wall), s.ledger.rows[i].scope, k)
    ensures i < |Step(s, Reconcile(order, wall)).ledger.rows|
    ensures SettledFor(s.ledger.rows[i], Step(s, Reconcile(order, wall)).ledger.rows[i], wall[k])
  {
    RowStep(s, Reconcile(order, wall), i, k);
    EndedRow(s, order, wall, s.ledger.rows[i], k);
  }

  lemma ReservedRow(l: Ledger.State, o: Ledger.Op, i: nat)
    requires Ledger.Valid(l) && |l.rows| <= i < |Ledger.Step(l, o).rows|
    ensures o.Reserve?
    ensures var r := Ledger.Step(l, o).rows[i];
      r.status == Ledger.Reserved && r.action == o.request.action && r.liability == o.request.liability
  {
    if Ledger.Enabled(l, o) && o.Reserve? {
      LedgerLaws.AttemptAppends(l, o.id, o.request);
    }
  }

  /** A new row of a job is reserved, with one active job in its liability. */
  lemma NewRow(s: State, op: Op, i: nat)
    requires Valid(s) && Enabled(s, op) && |s.ledger.rows| <= i < |Ledger.Run(s.ledger, LedgerOps(s, op)).rows|
    ensures var r := Ledger.Run(s.ledger, LedgerOps(s, op)).rows[i];
      r.status == Ledger.Reserved && (IsJob(r.action) ==> Ledger.Value(r.liability, Ledger.ActiveJobs) == 1)
  {
    if op.Reconcile? {
      SameLength(s, if Backlog.Lists(s.backlog, op.order) then Backlog.FinishedOf(s.backlog, op.order) else [], op.wall);
    } else if LedgerOps(s, op) != [] {
      var o := LedgerOps(s, op)[0];
      assert LedgerOps(s, op) == [o];
      OneOp(s.ledger, o);
      ReservedRow(s.ledger, o, i);
    }
  }

  lemma {:induction false} SameLength(s: State, done: seq<Key>, wall: map<Key, nat>)
    requires Valid(s)
    ensures |Ledger.Run(s.ledger, Settlements(s, done, wall)).rows| == |s.ledger.rows|
  {
    if done == [] {
      assert Settlements(s, done, wall) == [];
    } else {
      assert Settlements(s, done, wall)[..|done| - 1] == Settlements(s, done[..|done| - 1], wall);
      SameLength(s, done[..|done| - 1], wall);
    }
  }

  // ------------------------------------------------------------------ when a job's row is charged in full

  predicate InFull(r: Ledger.Row) {
    forall f: Ledger.Field :: Ledger.Value(Ledger.Charge(r), f) == Ledger.Value(r.liability, f)
  }

  /** One active job while it lasts, none once it is settled, and no job is left unknown. */
  predicate JobRow(r: Ledger.Row) {
    && Ledger.Value(r.liability, Ledger.ActiveJobs) == 1 && r.status != Ledger.Unknown
    && (r.status == Ledger.Reconciled ==> r.actual.Some? && Ledger.Value(r.actual.value, Ledger.ActiveJobs) == 0)
  }

  predicate JobRows(s: State) {
    forall i | 0 <= i < |s.ledger.rows| && IsJob(s.ledger.rows[i].action) :: JobRow(s.ledger.rows[i])
  }

  lemma FullIsReserved(r: Ledger.Row)
    requires JobRow(r)
    ensures InFull(r) <==> r.status == Ledger.Reserved
  {
    if r.status != Ledger.Reserved {
      assert Ledger.Value(Ledger.Charge(r), Ledger.ActiveJobs) == 0;
    }
  }

  lemma JobRowAfter(s: State, op: Op, r: Ledger.Row, k: Key)
    requires Valid(s) && JobRow(r)
    ensures JobRow(RowAfter(s, op, r, k))
  {
  }

  lemma StepJobRows(s: State, op: Op)
    requires Valid(s) && Enabled(s, op) && JobRows(s)
    ensures JobRows(Step(s, op))
  {
    var t := Step(s, op);
    LedgerLaws.RowsAreForever(s.ledger, LedgerOps(s, op));
    forall i | 0 <= i < |t.ledger.rows| && IsJob(t.ledger.rows[i].action) ensures JobRow(t.ledger.rows[i]) {
      if i < |s.ledger.rows| {
        assert LedgerLaws.Becomes(s.ledger.rows[i], t.ledger.rows[i]);
        var k := s.ledger.rows[i].action[4..];
        RowStep(s, op, i, k);
        JobRowAfter(s, op, s.ledger.rows[i], k);
      } else {
        NewRow(s, op, i);
      }
    }
  }

  lemma {:induction false} RunJobRows(s: State, ops: seq<Op>)
    requires Initial(s)
    ensures JobRows(Run(s, ops))
  {
    if ops == [] {
      assert forall i | 0 <= i < |s.ledger.rows| :: s.ledger.rows[i] in s.ledger.rows;
    } else {
      var before, op := Run(s, ops[..|ops| - 1]), ops[|ops| - 1];
      RunJobRows(s, ops[..|ops| - 1]);
      if Enabled(before, op) {
        StepJobRows(before, op);
      }
    }
  }

  lemma StepExtends(s: State, op: Op)
    requires Valid(s)
    ensures LedgerLaws.Extends(s.ledger.rows, Step(s, op).ledger.rows)
  {
    if Enabled(s, op) {
      LedgerLaws.RowsAreForever(s.ledger, LedgerOps(s, op));
    }
  }

  lemma {:induction false} PrefixExtends(s: State, ops: seq<Op>, j: nat)
    requires Valid(s) && j <= |ops|
    ensures LedgerLaws.Extends(Run(s, ops[..j]).ledger.rows, Run(s, ops).ledger.rows)
    decreases |ops|
  {
    if j == |ops| {
      assert ops[..j] == ops;
    } else {
      var before := ops[..|ops| - 1];
      assert before[..j] == ops[..j];
      PrefixExtends(s, before, j);
      StepExtends(Run(s, before), ops[|ops| - 1]);
      LedgerLaws.ExtendsTransitive(Run(s, ops[..j]).ledger.rows, Run(s, before).ledger.rows, Run(s, ops).ledger.rows);
    }
  }

  /** The j-th step finds the row there and reaches it. */
  predicate ReachedAt(s: State, ops: seq<Op>, j: nat, i: nat, sc: Ledger.Scope, k: Key)
    requires Valid(s) && j < |ops|
  {
    i < |Run(s, ops[..j]).ledger.rows| && Reaches(Run(s, ops[..j]), ops[j], sc, k)
  }

  /** Since this row was there, no step has reached it. */
  predicate Unreached(s: State, ops: seq<Op>, i: nat, sc: Ledger.Scope, k: Key)
    requires Valid(s)
  {
    forall j | 0 <= j < |ops| :: !ReachedAt(s, ops, j, i, sc, k)
  }

  lemma ReachedBefore(s: State, ops: seq<Op>, op: Op, j: nat, i: nat, sc: Ledger.Scope, k: Key)
    requires Valid(s) && j < |ops|
    ensures ReachedAt(s, ops + [op], j, i, sc, k) <==> ReachedAt(s, ops, j, i, sc, k)
  {
    assert (ops + [op])[..j] == ops[..j];
  }

  lemma ReachedLast(s: State, ops: seq<Op>, op: Op, i: nat, sc: Ledger.Scope, k: Key)
    requires Valid(s)
    ensures ReachedAt(s, ops + [op], |ops|, i, sc, k) <==> i < |Run(s, ops).ledger.rows| && Reaches(Run(s, ops), op, sc, k)
  {
    assert (ops + [op])[..|ops|] == ops;
  }

  lemma UnreachedNext(s: State, ops: seq<Op>, op: Op, i: nat, sc: Ledger.Scope, k: Key)
    requires Valid(s)
    ensures Unreached(s, ops + [op], i, sc, k)
            <==> Unreached(s, ops, i, sc, k) && (i < |Run(s, ops).ledger.rows| ==> !Reaches(Run(s, ops), op, sc, k))
  {
    ReachedLast(s, ops, op, i, sc, k);
    forall j | 0 <= j < |ops| ensures ReachedAt(s, ops + [op], j, i, sc, k) <==> ReachedAt(s, ops, j, i, sc, k) {
      ReachedBefore(s, ops, op, j, i, sc, k);
    }
  }

  lemma NotYetThere(s: State, ops: seq<Op>, i: nat, sc: Ledger.Scope, k: Key)
    requires Valid(s) && i >= |Run(s, ops).ledger.rows|
    ensures Unreached(s, ops, i, sc, k)
  {
    forall j | 0 <= j < |ops| ensures i >= |Run(s, ops[..j]).ledger.rows| {
      PrefixExtends(s, ops, j);
    }
  }

  lemma ReservedAfter(s: State, op: Op, i: nat, k: Key)
    requires Valid(s) && i < |s.ledger.rows| && s.ledger.rows[i].action == Action(k) && JobRow(s.ledger.rows[i])
    ensures i < |Step(s, op).ledger.rows|
    ensures Step(s, op).ledger.rows[i].status == Ledger.Reserved
            <==> s.ledger.rows[i].status == Ledger.Reserved && !Reaches(s, op, s.ledger.rows[i].scope, k)
  {
    if Enabled(s, op) {
      RowStep(s, op, i, k);
    }
  }

  lemma RowIsJob(s: State, i: nat, k: Key)
    requires JobRows(s) && i < |s.ledger.rows| && s.ledger.rows[i].action == Action(k)
    ensures JobRow(s.ledger.rows[i])
  {
  }

  lemma NewIsReserved(s: State, op: Op, i: nat)
    requires Valid(s) && |s.ledger.rows| <= i < |Step(s, op).ledger.rows|
    ensures Step(s, op).ledger.rows[i].status == Ledger.Reserved
  {
    if Enabled(s, op) {
      NewRow(s, op, i);
    }
  }

  lemma NoJobYet(s: State)
    requires Initial(s)
    ensures forall i, k | 0 <= i < |s.ledger.rows| :: s.ledger.rows[i].action != Action(k)
  {
    forall i, k | 0 <= i < |s.ledger.rows| ensures s.ledger.rows[i].action != Action(k) {
      assert s.ledger.rows[i] in s.ledger.rows && IsJob(Action(k));
    }
  }

  lemma {:induction false} ReservedExactly(s: State, ops: seq<Op>, i: nat, k: Key)
    requires Initial(s) && i < |Run(s, ops).ledger.rows| && Run(s, ops).ledger.rows[i].action == Action(k)
    ensures Run(s, ops).ledger.rows[i].status == Ledger.Reserved
            <==> Unreached(s, ops, i, Run(s, ops).ledger.rows[i].scope, k)
  {
    NoJobYet(s);
    if ops != [] {
      var before, op := ops[..|ops| - 1], ops[|ops| - 1];
      var b, sc := Run(s, before), Run(s, ops).ledger.rows[i].scope;
      assert ops == before + [op];
      UnreachedNext(s, before, op, i, sc, k);
      if i < |b.ledger.rows| {
        StepExtends(b, op);
        assert LedgerLaws.Becomes(b.ledger.rows[i], Step(b, op).ledger.rows[i]);
        ReservedExactly(s, before, i, k);
        RunJobRows(s, before);
        RowIsJob(b, i, k);
        ReservedAfter(b, op, i, k);
      } else {
        NotYetThere(s, before, i, sc, k);
        NewIsReserved(b, op, i);
      }
    }
  }

  /**
    Over every run, the row that holds a job at any scope is charged its whole liability
    exactly while no release of a refused launch and no settlement has reached its scope.
   */
  lemma JobIsChargedExactly(s: State, ops: seq<Op>, i: nat, k: Key)
    requires Initial(s) && i < |Run(s, ops).ledger.rows| && Run(s, ops).ledger.rows[i].action == Action(k)
    ensures InFull(Run(s, ops).ledger.rows[i]) <==> Unreached(s, ops, i, Run(s, ops).ledger.rows[i].scope, k)
  {
    ReservedExactly(s, ops, i, k);
    RunJobRows(s, ops);
    RowIsJob(Run(s, ops), i, k);
    FullIsReserved(Run(s, ops).ledger.rows[i]);
  }

  // ------------------------------------------------------------------ every started item has its rows

  predicate HasRow(l: Ledger.State, sc: Ledger.Scope, k: Key) {
    Ledger.Find(l.rows, sc, Action(k)).Some?
  }

  /** The job has its row at the shared scope, at the mission's and at that of some team. */
  ghost predicate Backed(s: State, k: Key) {
    && HasRow(s.ledger, Ledger.Global, k) && HasRow(s.ledger, Ledger.MissionScope(s.mission), k)
    && exists team: nat :: HasRow(s.ledger, Ledger.TeamScope(team), k)
  }

  predicate Started(s: State, k: Key) {
    k in s.backlog.items && s.backlog.items[k].lifecycle == Backlog.Started
  }

  /** The item is started, or a launch of it is under way or waits for its release. */
  ghost predicate Engaged(s: State, k: Key) {
    || Started(s, k)
    || (exists pid :: pid in s.backlog.launches && s.backlog.launches[pid].key == k)
    || (exists pid :: pid in s.refused && s.refused[pid] == k)
  }

  lemma RowStays(l: Ledger.State, t: Ledger.State, sc: Ledger.Scope, k: Key)
    requires LedgerLaws.Extends(l.rows, t.rows) && HasRow(l, sc, k)
    ensures HasRow(t, sc, k)
  {
    var i := Ledger.Find(l.rows, sc, Action(k)).value;
    assert LedgerLaws.Becomes(l.rows[i], t.rows[i]);
    assert t.rows[i] in t.rows;
  }

  lemma BackedStays(s: State, op: Op, k: Key)
    requires Valid(s) && Backed(s, k)
    ensures Backed(Step(s, op), k)
  {
    StepExtends(s, op);
    forall sc | HasRow(s.ledger, sc, k) ensures HasRow(Step(s, op).ledger, sc, k) {
      RowStays(s.ledger, Step(s, op).ledger, sc, k);
    }
  }

  lemma ReservesThree(l: Ledger.State, id: nat, req: Ledger.Request, k: Key, caught: bool)
    requires Ledger.Valid(l) && LedgerLaws.Unique(l.rows) && id in l.missions && req.action == Action(k)
    requires Ledger.Attempted(l, id, req).denial.None?
    ensures var t := Ledger.Step(l, Ledger.Reserve(id, req, caught));
      && HasRow(t, Ledger.Global, k) && HasRow(t, Ledger.MissionScope(id), k)
      && HasRow(t, Ledger.TeamScope(l.missions[id].team), k)
  {
    var scopes := Ledger.ScopeKeys(id, l.missions[id]);
    assert Ledger.Step(l, Ledger.Reserve(id, req, caught)) == Ledger.ReserveTx(l, id, req, false);
    assert scopes[0] in scopes && scopes[1] in scopes && scopes[2] in scopes;
    LedgerReplays.AdmittedIsHeld(l, id, req, scopes[0]);
    LedgerReplays.AdmittedIsHeld(l, id, req, scopes[1]);
    LedgerReplays.AdmittedIsHeld(l, id, req, scopes[2]);
  }

  /** An admitted reservation gives the job its rows. */
  lemma AdmittedIsBacked(s: State, op: Op)
    requires Valid(s) && LedgerLaws.Unique(s.ledger.rows) && Enabled(s, op) && Asks(s, op) && !Denied(s, op)
    ensures Backed(Step(s, op), op.key)
  {
    var req, caught := Asked(s, op), op.Dispatch?;
    assert LedgerOps(s, op) == [Ledger.Reserve(s.mission, req, caught)];
    OneOp(s.ledger, Ledger.Reserve(s.mission, req, caught));
    ReservesThree(s.ledger, s.mission, req, op.key, caught);
  }

  // Who gets engaged by a step of the backlog.

  ghost predicate NoneStarted(b: Backlog.State, t: Backlog.State) {
    forall k | k in t.items && t.items[k].lifecycle == Backlog.Started ::
      k in b.items && (b.items[k].lifecycle == Backlog.Started
                       || exists pid :: pid in b.launches && b.launches[pid].key == k)
  }

  ghost predicate NoLaunches(b: Backlog.State, t: Backlog.State) {
    forall pid | pid in t.launches :: pid in b.launches && t.launches[pid].key == b.launches[pid].key
  }

  lemma LaunchEngages(b: Backlog.State, o: Backlog.Op)
    requires o.LaunchEnqueue? || o.LaunchFinish?
    ensures NoneStarted(b, Backlog.LaunchTx(b, o)) && NoLaunches(b, Backlog.LaunchTx(b, o))
  {
  }

  lemma ApplyEngages(b: Backlog.State, t: Backlog.TurnId, d: Decision, admitted: bool)
    requires t in b.turns
    ensures NoneStarted(b, Backlog.ApplyTx(b, t, d, admitted)) && NoLaunches(b, Backlog.ApplyTx(b, t, d, admitted))
  {
  }

  lemma ReconcileEngages(b: Backlog.State, order: seq<Key>)
    requires Backlog.Lists(b, order)
    ensures NoneStarted(b, Backlog.ReconcileTx(b, order)) && NoLaunches(b, Backlog.ReconcileTx(b, order))
  {
    BacklogSafety.ReconcileFrame(b, order);
    assert forall k | k in b.items :: BacklogSafety.ReconciledRow(b, Backlog.ReconcileTx(b, order), k);
  }

  lemma RestEngages(b: Backlog.State, o: Backlog.Op)
    requires !o.Apply? && !o.Dispatch? && !o.Reconcile? && !Backlog.IsLaunch(o)
    ensures NoneStarted(b, Backlog.Step(b, o)) && NoLaunches(b, Backlog.Step(b, o))
  {
    BacklogTheorems.RestUntouched(b, o);
    RestLaunches(b, o);
  }

  lemma RestLaunches(b: Backlog.State, o: Backlog.Op)
    requires !o.Apply? && !o.Dispatch? && !o.Reconcile? && !Backlog.IsLaunch(o)
    ensures NoLaunches(b, if Backlog.IsTurn(o) then Backlog.TurnTx(b, o) else Backlog.OwnerTx(b, o))
  {
  }

  lemma StepEngages(b: Backlog.State, o: Backlog.Op)
    requires !o.Dispatch? && !o.LaunchCheck?
    ensures NoneStarted(b, Backlog.Step(b, o)) && NoLaunches(b, Backlog.Step(b, o))
  {
    match o
    case Apply(t, d, admitted) => if t in b.turns { ApplyEngages(b, t, d, admitted); }
    case Reconcile(order) => if Backlog.Lists(b, order) { ReconcileEngages(b, order); }
    case _ => if Backlog.IsLaunch(o) { LaunchEngages(b, o); } else { RestEngages(b, o); }
  }

  lemma DispatchEngages(s: State, op: Op)
    requires Valid(s) && Enabled(s, op) && op.Dispatch?
    ensures NoLaunches(s.backlog, BacklogStep(s, op))
    ensures forall k | k in BacklogStep(s, op).items && BacklogStep(s, op).items[k].lifecycle == Backlog.Started ::
              Started(s, k) || (k == op.key && Asks(s, op) && !Denied(s, op))
  {
    var gate := if Denied(s, op) then Backlog.DispatchBudgetDenied else op.gate;
    BacklogSafety.DispatchIs(s.backlog, op.key, gate, op.activeLimit);
  }

  lemma CheckEngages(s: State, op: Op)
    requires Valid(s) && Enabled(s, op) && op.Check?
    ensures BacklogStep(s, op).items == s.backlog.items
    ensures forall pid | pid in BacklogStep(s, op).launches ::
              (pid in s.backlog.launches && BacklogStep(s, op).launches[pid] == s.backlog.launches[pid])
              || (BacklogStep(s, op).launches[pid].key == op.key && Asks(s, op) && !Denied(s, op))
  {
  }

  lemma EngagedBy(s: State, op: Op, k: Key)
    requires Valid(s) && Enabled(s, op) && Engaged(Step(s, op), k)
    ensures Engaged(s, k) || (Asks(s, op) && !Denied(s, op) && op.key == k)
  {
    match op
    case Dispatch(_, _, _, _, _) => DispatchEngages(s, op);
    case Check(_, _, _, _) => CheckEngages(s, op);
    case Enqueue(pid, available) => StepEngages(s.backlog, Backlog.LaunchEnqueue(pid, available));
    case Reconcile(order, _) => StepEngages(s.backlog, Backlog.Reconcile(order));
    case OnBacklog(o) => StepEngages(s.backlog, o);
    case _ =>
  }

  ghost predicate Inv(s: State) {
    Valid(s) && LedgerLaws.Unique(s.ledger.rows) && forall k | Engaged(s, k) :: Backed(s, k)
  }

  lemma {:induction false} StaysUnique(l: Ledger.State, ops: seq<Ledger.Op>)
    requires Ledger.Valid(l) && LedgerLaws.Unique(l.rows)
    ensures LedgerLaws.Unique(Ledger.Run(l, ops).rows)
  {
    if ops != [] {
      StaysUnique(l, ops[..|ops| - 1]);
      LedgerLaws.StepUnique(Ledger.Run(l, ops[..|ops| - 1]), ops[|ops| - 1]);
    }
  }

  lemma StepInv(s: State, op: Op)
    requires Inv(s) && Enabled(s, op)
    ensures LedgerLaws.Unique(Step(s, op).ledger.rows)
    ensures forall k | Engaged(Step(s, op), k) :: Backed(Step(s, op), k)
  {
    StaysUnique(s.ledger, LedgerOps(s, op));
    forall k | Engaged(Step(s, op), k) ensures Backed(Step(s, op), k) {
      EngagedBy(s, op, k);
      if Engaged(s, k) {
        BackedStays(s, op, k);
      } else {
        AdmittedIsBacked(s, op);
      }
    }
  }

  lemma {:induction false} RunInv(s: State, ops: seq<Op>)
    requires Initial(s)
    ensures Inv(Run(s, ops))
  {
    if ops != [] {
      RunInv(s, ops[..|ops| - 1]);
      if Enabled(Run(s, ops[..|ops| - 1]), ops[|ops| - 1]) {
        StepInv(Run(s, ops[..|ops| - 1]), ops[|ops| - 1]);
      }
    }
  }

  /** No release of a refused launch and no settlement of the job has happened on this run. */
  predicate NeverUndone(s: State, ops: seq<Op>, k: Key)
    requires Valid(s)
  {
    forall j | 0 <= j < |ops| :: !Undoes(Run(s, ops[..j]), ops[j], k)
  }

  /** Whatever undoes a job finds its row there already. */
  lemma UndoneHadRow(s: State, ops: seq<Op>, j: nat, sc: Ledger.Scope, k: Key, i: nat)
    requires Initial(s) && j < |ops| && Undoes(Run(s, ops[..j]), ops[j], k)
    requires sc in {Ledger.Global, Ledger.MissionScope(s.mission)}
    requires Ledger.Find(Run(s, ops).ledger.rows, sc, Action(k)) == Some(i)
    ensures i < |Run(s, ops[..j]).ledger.rows| && Reaches(Run(s, ops[..j]), ops[j], sc, k)
  {
    var b, t := Run(s, ops[..j]), Run(s, ops);
    RunInv(s, ops[..j]);
    RunInv(s, ops);
    assert Engaged(b, k);
    var before := Ledger.Find(b.ledger.rows, sc, Action(k)).value;
    PrefixExtends(s, ops, j);
    assert LedgerLaws.Becomes(b.ledger.rows[before], t.ledger.rows[before]);
    LedgerLaws.UniqueFind(t.ledger.rows, before);
  }

  /**
    Over every run, a started item has its job's rows, and at the shared scope and the
    mission's it is charged in full exactly if no refused launch of it was ever released
    and it was never settled before.
   */
  lemma StartedIsChargedExactly(s: State, ops: seq<Op>, k: Key, sc: Ledger.Scope)
    requires Initial(s) && Started(Run(s, ops), k)
    requires sc in {Ledger.Global, Ledger.MissionScope(s.mission)}
    ensures Backed(Run(s, ops), k)
    ensures var rows := Run(s, ops).ledger.rows;
      var found := Ledger.Find(rows, sc, Action(k));
      found.Some? && (InFull(rows[found.value]) <==> NeverUndone(s, ops, k))
  {
    RunInv(s, ops);
    assert Engaged(Run(s, ops), k);
    var i := Ledger.Find(Run(s, ops).ledger.rows, sc, Action(k)).value;
    JobIsChargedExactly(s, ops, i, k);
    if j :| 0 <= j < |ops| && Undoes(Run(s, ops[..j]), ops[j], k) {
      UndoneHadRow(s, ops, j, sc, k, i);
      assert ReachedAt(s, ops, j, i, sc, k);
    }
  }
}
