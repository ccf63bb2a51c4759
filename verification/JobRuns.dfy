/** Runs in which a started item's job is charged nothing, from a new mission and an empty ledger. */
module JobRuns {
  import opened Wrappers
  import opened JobCharges
  import Backlog
  import BacklogLaunches
  import BacklogCancellation
  import Ledger
  import LedgerLaws
  import LedgerReplays
  import LedgerRuns

  const A := BacklogLaunches.A

  /** The mission exists in the ledger, with the shared limits for its own; nothing is reserved. */
  predicate OpenLedger(l: Ledger.State, id: nat, m: Ledger.MissionRow) {
    Ledger.Valid(l) && LedgerRuns.Opened(l, id, m) && m.limits == Ledger.SharedLimits
  }

  function Request(now: int): Ledger.Request {
    LedgerRuns.Job(Action(A), now)
  }

  /** The one job of the mission is reserved at its three scopes. */
  predicate Reserved(l: Ledger.State, id: nat, m: Ledger.MissionRow, now: int) {
    && Ledger.Valid(l) && id in l.missions && l.missions[id] == m && m.limits == Ledger.SharedLimits
    && LedgerLaws.Known(Ledger.ScopeKeys(id, m), l.controls)
    && l.rows == LedgerRuns.ThreeRows(id, m, l.controls, Request(now))
  }

  lemma Reserves(l: Ledger.State, id: nat, m: Ledger.MissionRow, now: int)
    requires OpenLedger(l, id, m)
    ensures Ledger.Attempted(l, id, Request(now)).denial.None?
    ensures Reserved(Ledger.ReserveTx(l, id, Request(now), false), id, m, now)
  {
    LedgerRuns.JobFits(Action(A), now);
    LedgerRuns.ReserveFirst(l, id, m, Request(now));
    assert Ledger.Step(l, Ledger.Reserve(id, Request(now), false)) == Ledger.ReserveTx(l, id, Request(now), false);
    Ledger.StepValid(l, Ledger.Reserve(id, Request(now), false));
  }

  /** Asked for again after whatever releases, it is admitted and no row changes. */
  lemma ReservesAgain(l: Ledger.State, id: nat, m: Ledger.MissionRow, now: int, ops: seq<Ledger.Op>, later: int, caught: bool)
    requires OpenLedger(l, id, m) && Ledger.Attempted(l, id, Request(now)).denial.None?
    requires forall op | op in ops :: op.Release?
    ensures Ledger.Valid(Ledger.ReserveTx(l, id, Request(now), false))
    ensures var t := Ledger.Run(Ledger.ReserveTx(l, id, Request(now), false), ops);
      && id in t.missions && Ledger.Attempted(t, id, Request(later)).denial.None?
      && Ledger.ReserveTx(t, id, Request(later), caught).rows == t.rows
  {
    LedgerReplays.RepeatIsFree(l, id, Request(now), false, ops, Request(later), caught);
  }

  lemma NoNewControl(l: Ledger.State, id: nat, m: Ledger.MissionRow, now: int, later: int)
    requires Reserved(l, id, m, now) && Ledger.Attempted(l, id, Request(later)).denial.None?
    requires Ledger.ReserveTx(l, id, Request(later), false).rows == l.rows
    ensures Ledger.ReserveTx(l, id, Request(later), false) == l
  {
    LedgerLaws.NothingInserted(l.controls, id, m);
  }

  // ------------------------------------------------------------------ the joint steps

  lemma SameAsk(m: Ledger.MissionRow, now: int)
    requires m.limits == Ledger.SharedLimits
    ensures JobRequest(m, A, None, now) == Request(now) == JobRequest(m, A, Some(7_200), now)
  {
  }

  /** The backlog is as the launches of one ready item leave it. */
  ghost predicate Joint(s: State, m: Ledger.MissionRow, launches: map<nat, Backlog.Launch>, queued: bool) {
    && Valid(s) && s.ledger.missions[s.mission] == m && m.limits == Ledger.SharedLimits
    && BacklogLaunches.At(s.backlog, launches, queued)
  }

  lemma Checks(s: State, m: Ledger.MissionRow, launches: map<nat, Backlog.Launch>, pid: nat, now: int)
    requires Joint(s, m, launches, false) && pid !in launches && pid !in s.refused
    requires Ledger.Attempted(s.ledger, s.mission, Request(now)).denial.None?
    ensures var t := Step(s, Check(pid, A, true, now));
      && BacklogLaunches.At(t.backlog, launches[pid := Backlog.Checked(A, BacklogLaunches.Request)], false)
      && t.ledger == Ledger.ReserveTx(s.ledger, s.mission, Request(now), false) && t.refused == s.refused
  {
    SameAsk(m, now);
    var op := Check(pid, A, true, now);
    assert Backlog.DepsAccepted(s.backlog.items, s.backlog.deps, A);
    assert Asks(s, op) && !Denied(s, op);
    BacklogLaunches.Checks(s.backlog, launches, pid);
    OneOp(s.ledger, Ledger.Reserve(s.mission, Request(now), false));
  }

  lemma Refuses(s: State, m: Ledger.MissionRow, launches: map<nat, Backlog.Launch>, pid: nat)
    requires Joint(s, m, launches, false) && pid in launches && launches[pid] == Backlog.Checked(A, BacklogLaunches.Request)
    ensures var t := Step(s, Enqueue(pid, false));
      && BacklogLaunches.At(t.backlog, launches - {pid}, false) && t.ledger == s.ledger && t.refused == s.refused[pid := A]
  {
    var t := Backlog.LaunchEnqueueTx(s.backlog, pid, false);
    assert t == Backlog.Step(s.backlog, Backlog.LaunchEnqueue(pid, false)) == Backlog.EndLaunch(s.backlog, pid);
  }

  lemma Enqueues(s: State, m: Ledger.MissionRow, launches: map<nat, Backlog.Launch>, pid: nat)
    requires Joint(s, m, launches, false) && pid in launches && launches[pid] == Backlog.Checked(A, BacklogLaunches.Request)
    ensures var t := Step(s, Enqueue(pid, true));
      && BacklogLaunches.At(t.backlog, launches[pid := Backlog.Enqueued(A, BacklogLaunches.TheRun)], true)
      && t.ledger == s.ledger && t.refused == s.refused
  {
    BacklogLaunches.Enqueues(s.backlog, launches, pid, false);
  }

  lemma Finishes(s: State, m: Ledger.MissionRow, launches: map<nat, Backlog.Launch>, pid: nat)
    requires Joint(s, m, launches, true) && pid in launches && launches[pid] == Backlog.Enqueued(A, BacklogLaunches.TheRun)
    ensures var t := Step(s, OnBacklog(Backlog.LaunchFinish(pid)));
      Started(t, A) && t.ledger == s.ledger && t.refused == s.refused
  {
    assert Backlog.Step(s.backlog, Backlog.LaunchFinish(pid)) == Backlog.LaunchFinishTx(s.backlog, pid);
  }

  lemma Releases(s: State, m: Ledger.MissionRow, pid: nat, now: int)
    requires Valid(s) && Reserved(s.ledger, s.mission, m, now) && pid in s.refused && s.refused[pid] == A
    ensures var t := Step(s, ReleaseRefused(pid));
      && t.backlog == s.backlog && t.refused == s.refused - {pid}
      && t.ledger == Ledger.Step(s.ledger, Ledger.Release(s.mission, Action(A)))
      && LedgerRuns.AllReleased(t.ledger.rows)
  {
    OneOp(s.ledger, Ledger.Release(s.mission, Action(A)));
    LedgerRuns.ReleaseThenSettle(s.ledger, s.mission, m, Request(now), map[]);
  }

  // ------------------------------------------------------------------ released under another caller

  const Waiting: map<nat, Backlog.Launch> :=
    map[0 := Backlog.Checked(A, BacklogLaunches.Request), 1 := Backlog.Checked(A, BacklogLaunches.Request)]

  /** Two callers pass the guards, and one reservation serves both. */
  lemma BothCheck(s: State, m: Ledger.MissionRow, now: int, later: int)
    requires Joint(s, m, map[], false) && OpenLedger(s.ledger, s.mission, m) && s.refused == map[]
    ensures var t := Step(Step(s, Check(0, A, true, now)), Check(1, A, true, later));
      Joint(t, m, Waiting, false) && Reserved(t.ledger, t.mission, m, now) && t.refused == map[]
  {
    Reserves(s.ledger, s.mission, m, now);
    Checks(s, m, map[], 0, now);
    var t := Step(s, Check(0, A, true, now));
    ReservesAgain(s.ledger, s.mission, m, now, [], later, false);
    NoNewControl(t.ledger, s.mission, m, now, later);
    Checks(t, m, map[0 := Backlog.Checked(A, BacklogLaunches.Request)], 1, later);
    assert map[0 := Backlog.Checked(A, BacklogLaunches.Request)][1 := Backlog.Checked(A, BacklogLaunches.Request)] == Waiting;
  }

  /** The first is refused, the second enqueues and starts the item. */
  lemma OneStarts(s: State, m: Ledger.MissionRow)
    requires Joint(s, m, Waiting, false) && s.refused == map[]
    ensures var t := Step(Step(Step(s, Enqueue(0, false)), Enqueue(1, true)), OnBacklog(Backlog.LaunchFinish(1)));
      Started(t, A) && t.ledger == s.ledger && t.refused == map[0 := A]
  {
    Refuses(s, m, Waiting, 0);
    var t := Step(s, Enqueue(0, false));
    assert Waiting - {0} == map[1 := Backlog.Checked(A, BacklogLaunches.Request)];
    Enqueues(t, m, Waiting - {0}, 1);
    var u := Step(t, Enqueue(1, true));
    assert (Waiting - {0})[1 := Backlog.Enqueued(A, BacklogLaunches.TheRun)] == map[1 := Backlog.Enqueued(A, BacklogLaunches.TheRun)];
    Finishes(u, m, map[1 := Backlog.Enqueued(A, BacklogLaunches.TheRun)], 1);
  }

  lemma RunAppend(s: State, ops: seq<Op>, op: Op)
    requires Valid(s)
    ensures Run(s, ops + [op]) == Step(Run(s, ops), op)
  {
    assert (ops + [op])[..|ops|] == ops;
  }

  const Proposes := [OnBacklog(BacklogLaunches.Propose1[0])] + [OnBacklog(BacklogLaunches.Propose1[1])]

  function TwoCallers(now: int, later: int): seq<Op> {
    Proposes + [Check(0, A, true, now)] + [Check(1, A, true, later)]
    + [Enqueue(0, false)] + [Enqueue(1, true)] + [OnBacklog(Backlog.LaunchFinish(1))]
  }

  lemma Proposed(s: State, m: Ledger.MissionRow)
    requires Valid(s) && s.backlog == BacklogLaunches.Fresh && OpenLedger(s.ledger, s.mission, m)
    ensures var t := Run(s, Proposes);
      Joint(t, m, map[], false) && t.ledger == s.ledger && t.refused == s.refused
  {
    var x, y := OnBacklog(BacklogLaunches.Propose1[0]), OnBacklog(BacklogLaunches.Propose1[1]);
    RunAppend(s, [], x);
    RunAppend(s, [x], y);
    assert [] + [x] == [x];
    BacklogLaunches.Opening();
  }

  lemma TwoCallersRun(s: State, m: Ledger.MissionRow, now: int, later: int)
    requires Valid(s) && s.backlog == BacklogLaunches.Fresh && OpenLedger(s.ledger, s.mission, m) && s.refused == map[]
    ensures var t := Run(s, TwoCallers(now, later));
      Started(t, A) && Reserved(t.ledger, t.mission, m, now) && t.refused == map[0 := A]
  {
    Proposed(s, m);
    var a := Proposes;
    var b := a + [Check(0, A, true, now)];
    var c := b + [Check(1, A, true, later)];
    BothCheck(Run(s, a), m, now, later);
    RunAppend(s, a, Check(0, A, true, now));
    RunAppend(s, b, Check(1, A, true, later));
    OneStarts(Run(s, c), m);
    RunAppend(s, c, Enqueue(0, false));
    RunAppend(s, c + [Enqueue(0, false)], Enqueue(1, true));
    RunAppend(s, c + [Enqueue(0, false)] + [Enqueue(1, true)], OnBacklog(Backlog.LaunchFinish(1)));
  }

  /**
    Of two callers one is refused while the other starts the item; the release that
    follows the refusal leaves the started item charged nothing.
   */
  lemma ReleasedUnderAnother(s: State, m: Ledger.MissionRow, now: int, later: int)
    requires Valid(s) && s.backlog == BacklogLaunches.Fresh && OpenLedger(s.ledger, s.mission, m) && s.refused == map[]
    ensures Initial(s)
    ensures var t := Run(s, TwoCallers(now, later));
      Started(t, A) && Reserved(t.ledger, t.mission, m, now)
    ensures var t := Run(s, TwoCallers(now, later) + [ReleaseRefused(0)]);
      Started(t, A) && LedgerRuns.AllReleased(t.ledger.rows)
  {
    TwoCallersRun(s, m, now, later);
    Releases(Run(s, TwoCallers(now, later)), m, 0, now);
    RunAppend(s, TwoCallers(now, later), ReleaseRefused(0));
  }

  // ------------------------------------------------------------------ started after a refused launch

  function Retried(now: int, later: int): seq<Op> {
    Proposes + [Check(0, A, true, now)] + [Enqueue(0, false)] + [ReleaseRefused(0)] + [Dispatch(A, Backlog.Open, 8, 7_200, later)]
  }

  lemma DispatchesFree(s: State, m: Ledger.MissionRow, later: int)
    requires Joint(s, m, map[], false) && Ledger.Attempted(s.ledger, s.mission, Request(later)).denial.None?
    requires Ledger.ReserveTx(s.ledger, s.mission, Request(later), true).rows == s.ledger.rows
    ensures var t := Step(s, Dispatch(A, Backlog.Open, 8, 7_200, later));
      Started(t, A) && t.ledger.rows == s.ledger.rows
  {
    var op := Dispatch(A, Backlog.Open, 8, 7_200, later);
    SameAsk(m, later);
    assert Backlog.ActiveKeys(s.backlog) == {};
    assert Asks(s, op) && !Denied(s, op) && Asked(s, op) == Request(later);
    OneOp(s.ledger, Ledger.Reserve(s.mission, Request(later), true));
    BacklogCancellation.DispatchesOne(s.backlog, A);
  }

  const Once: map<nat, Backlog.Launch> := map[0 := Backlog.Checked(A, BacklogLaunches.Request)]

  lemma ChecksOnce(s: State, m: Ledger.MissionRow, now: int)
    requires Joint(s, m, map[], false) && OpenLedger(s.ledger, s.mission, m) && s.refused == map[]
    ensures var t := Step(s, Check(0, A, true, now));
      && Joint(t, m, Once, false) && Reserved(t.ledger, t.mission, m, now) && t.refused == map[]
      && t.ledger == Ledger.ReserveTx(s.ledger, s.mission, Request(now), false)
  {
    Reserves(s.ledger, s.mission, m, now);
    Checks(s, m, map[], 0, now);
  }

  lemma RefusedOnce(s: State, m: Ledger.MissionRow, now: int)
    requires Joint(s, m, Once, false) && Reserved(s.ledger, s.mission, m, now) && s.refused == map[]
    ensures var t := Step(Step(s, Enqueue(0, false)), ReleaseRefused(0));
      && Joint(t, m, map[], false) && LedgerRuns.AllReleased(t.ledger.rows)
      && t.ledger == Ledger.Step(s.ledger, Ledger.Release(s.mission, Action(A)))
  {
    Refuses(s, m, Once, 0);
    assert Once - {0} == map[];
    Releases(Step(s, Enqueue(0, false)), m, 0, now);
  }

  lemma RetriedRun(s: State, m: Ledger.MissionRow, now: int)
    requires Valid(s) && s.backlog == BacklogLaunches.Fresh && OpenLedger(s.ledger, s.mission, m) && s.refused == map[]
    ensures var t := Run(s, Proposes + [Check(0, A, true, now)] + [Enqueue(0, false)] + [ReleaseRefused(0)]);
      && Joint(t, m, map[], false) && LedgerRuns.AllReleased(t.ledger.rows)
      && t.ledger == Ledger.Step(Ledger.ReserveTx(s.ledger, s.mission, Request(now), false), Ledger.Release(s.mission, Action(A)))
  {
    Proposed(s, m);
    var a := Proposes;
    var b := a + [Check(0, A, true, now)];
    ChecksOnce(Run(s, a), m, now);
    RunAppend(s, a, Check(0, A, true, now));
    RefusedOnce(Run(s, b), m, now);
    RunAppend(s, b, Enqueue(0, false));
    RunAppend(s, b + [Enqueue(0, false)], ReleaseRefused(0));
  }

  lemma AdmitsReleased(l: Ledger.State, id: nat, m: Ledger.MissionRow, now: int, later: int)
    requires OpenLedger(l, id, m)
    ensures Ledger.Valid(Ledger.ReserveTx(l, id, Request(now), false))
    ensures var t := Ledger.Step(Ledger.ReserveTx(l, id, Request(now), false), Ledger.Release(id, Action(A)));
      && Ledger.Valid(t) && id in t.missions && Ledger.Attempted(t, id, Request(later)).denial.None?
      && Ledger.ReserveTx(t, id, Request(later), true).rows == t.rows
  {
    var release := Ledger.Release(id, Action(A));
    Reserves(l, id, m, now);
    ReservesAgain(l, id, m, now, [release], later, true);
    OneOp(Ledger.ReserveTx(l, id, Request(now), false), release);
  }

  /**
    One caller is enough: after a refused launch was released, the reservation of the
    automatic dispatch finds the released rows and charges nothing.
   */
  lemma StartedAfterRelease(s: State, m: Ledger.MissionRow, now: int, later: int)
    requires Valid(s) && s.backlog == BacklogLaunches.Fresh && OpenLedger(s.ledger, s.mission, m) && s.refused == map[]
    ensures var t := Run(s, Retried(now, later));
      Started(t, A) && LedgerRuns.AllReleased(t.ledger.rows)
  {
    var ops := Proposes + [Check(0, A, true, now)] + [Enqueue(0, false)] + [ReleaseRefused(0)];
    RetriedRun(s, m, now);
    AdmitsReleased(s.ledger, s.mission, m, now, later);
    DispatchesFree(Run(s, ops), m, later);
    RunAppend(s, ops, Dispatch(A, Backlog.Open, 8, 7_200, later));
  }
}
