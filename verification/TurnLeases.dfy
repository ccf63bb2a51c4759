/** When clocks and limits are respected, a lease keeps every other worker out. */
module TurnLeases {
  import opened Wrappers
  import Ledger
  import opened Turns
  import LedgerLaws
  import LedgerReplays

  /** The worker a step belongs to acts within its time: this long in the call, this long beside it. */
  predicate InTime(c: Config, p: Process) {
    p.beside < 30 && p.inCall <= c.timeout
  }

  predicate ActsInTime(c: Config, s: State, op: Op) {
    ((op.Load? || op.Begin? || op.Invoke? || op.Return? || op.Store? || op.Apply? || op.Finish? || op.Raise? || op.Fail?)
     && op.worker in s.workers)
    ==> InTime(c, s.workers[op.worker])
  }

  predicate TimelyRun(c: Config, s: State, ops: seq<Op>)
    requires Wellformed(c, s.db)
  {
    ops == []
    || (TimelyRun(c, s, ops[..|ops| - 1]) && ActsInTime(c, Run(c, s, ops[..|ops| - 1]), ops[|ops| - 1]))
  }

  predicate Terminal(t: Turn) {
    t.status in {Applied, Stale, Failed}
  }

  /** The turn is this worker's, or it has been decided and only the epilogue is left. */
  predicate Holds(c: Config, t: Turn, p: Process) {
    || (t.status == Running && t.leaseUntil == Some(p.claimedAt + c.lease) && t.claimedBy == Some(p.owner))
    || (t.status in {Applied, Stale} && (p.phase.Dispatching? || p.phase.Failing?))
  }

  predicate OnClock(s: State, p: Process) {
    s.now == p.claimedAt + p.beside + p.inCall
  }

  predicate LeaseInv(c: Config, s: State) {
    && (forall w | w in s.workers :: OnClock(s, s.workers[w]))
    && (forall w | w in s.workers && InTime(c, s.workers[w]) :: Holds(c, s.db.turn, s.workers[w]))
    && (forall v, w | v in s.workers && w in s.workers && InTime(c, s.workers[v]) && InTime(c, s.workers[w]) :: v == w)
  }

  /** The condition the service's constructor imposes. */
  predicate LongLease(c: Config) {
    c.lease >= c.timeout + 30
  }

  lemma TickLeases(c: Config, s: State, seconds: nat)
    requires Wellformed(c, s.db) && LeaseInv(c, s)
    ensures LeaseInv(c, Step(c, s, Tick(seconds)))
  {
    var t := Step(c, s, Tick(seconds));
    forall w | w in t.workers
      ensures w in s.workers && OnClock(t, t.workers[w])
      ensures InTime(c, t.workers[w]) ==> InTime(c, s.workers[w]) && Holds(c, t.db.turn, t.workers[w])
    {
      assert OnClock(s, s.workers[w]);
    }
  }

  lemma ClaimLeases(c: Config, s: State, w: nat, owner: string)
    requires Wellformed(c, s.db) && LongLease(c) && LeaseInv(c, s) && Enabled(c, s, Claim(w, owner))
    ensures LeaseInv(c, Step(c, s, Claim(w, owner)))
  {
    forall v | v in s.workers ensures !InTime(c, s.workers[v]) {
      assert OnClock(s, s.workers[v]);
    }
  }

  /** A step that moves one worker's phase and leaves the turn as it is. */
  lemma PhaseLeases(c: Config, s: State, op: Op)
    requires Wellformed(c, s.db) && LeaseInv(c, s) && Enabled(c, s, op) && ActsInTime(c, s, op)
    requires op.Load? || op.Begin? || op.Invoke? || op.Return? || op.Store? || op.Raise?
    ensures LeaseInv(c, Step(c, s, op))
  {
    var t := Step(c, s, op);
    assert t.db.turn == s.db.turn;
    assert Holds(c, s.db.turn, s.workers[op.worker]);
    forall w | w in t.workers
      ensures w in s.workers && OnClock(t, t.workers[w]) && Holds(c, t.db.turn, s.workers[w]) == Holds(c, s.db.turn, s.workers[w])
    {
      assert OnClock(s, s.workers[w]);
    }
  }

  lemma ApplyLeases(c: Config, s: State, w: nat, stale: bool)
    requires Wellformed(c, s.db) && LeaseInv(c, s) && Enabled(c, s, Apply(w, stale)) && InTime(c, s.workers[w])
    ensures s.db.turn.status == Running
    ensures LeaseInv(c, Step(c, s, Apply(w, stale)))
  {
    assert Holds(c, s.db.turn, s.workers[w]) && OnClock(s, s.workers[w]);
  }

  lemma FailLeases(c: Config, s: State, w: nat)
    requires Wellformed(c, s.db) && LeaseInv(c, s) && Enabled(c, s, Fail(w)) && InTime(c, s.workers[w])
    ensures s.db.turn.status in {Running, Applied, Stale}
    ensures LeaseInv(c, Step(c, s, Fail(w)))
  {
    assert Holds(c, s.db.turn, s.workers[w]);
  }

  lemma StepLeases(c: Config, s: State, op: Op)
    requires Wellformed(c, s.db) && LongLease(c) && LeaseInv(c, s) && ActsInTime(c, s, op)
    ensures LeaseInv(c, Step(c, s, op))
    ensures Terminal(s.db.turn) ==> Step(c, s, op).db.turn == s.db.turn
  {
    if Enabled(c, s, op) {
      match op
      case Tick(seconds) => TickLeases(c, s, seconds);
      case Claim(w, owner) => ClaimLeases(c, s, w, owner);
      case Apply(w, stale) => ApplyLeases(c, s, w, stale);
      case Fail(w) => FailLeases(c, s, w);
      case Finish(_) =>
      case Crash(_) =>
      case OtherCall(_) =>
      case Elsewhere(_) =>
      case _ => PhaseLeases(c, s, op);
    }
  }

  /**
    If the lease is at least the call's timeout plus thirty seconds, and no worker acts
    after more than that, at most one worker is ever in time to act on the turn.
   */
  lemma {:induction false} OneOwnerAtATime(c: Config, s: State, ops: seq<Op>)
    requires Initial(c, s) && LongLease(c) && TimelyRun(c, s, ops)
    ensures LeaseInv(c, Run(c, s, ops))
  {
    if ops != [] {
      var n := |ops| - 1;
      OneOwnerAtATime(c, s, ops[..n]);
      StepLeases(c, Run(c, s, ops[..n]), ops[n]);
    }
  }

  /** Then an applied, stale or failed turn never changes again. */
  lemma {:induction false} TerminalTurnsStay(c: Config, s: State, before: seq<Op>, after: seq<Op>)
    requires Initial(c, s) && LongLease(c) && TimelyRun(c, s, before + after)
    requires Terminal(Run(c, s, before).db.turn)
    ensures Run(c, s, before + after).db.turn == Run(c, s, before).db.turn
    decreases |after|
  {
    if after == [] {
      assert before + after == before;
    } else {
      var n := |after| - 1;
      var ops := before + after;
      assert ops[..|ops| - 1] == before + after[..n] && ops[|ops| - 1] == after[n];
      TerminalTurnsStay(c, s, before, after[..n]);
      OneOwnerAtATime(c, s, before + after[..n]);
      StepLeases(c, Run(c, s, before + after[..n]), after[n]);
    }
  }

  // ------------------------------------------------------------------ without the timing

  /**
    What can change a decided turn at all: a worker that still holds a decision applies
    it with the other result, or one that still holds an error fails a failed turn in a
    way that queues it again. Neither transaction looks at the claim.
   */
  lemma TerminalChangesExactly(c: Config, s: State, op: Op)
    requires Wellformed(c, s.db) && Terminal(s.db.turn)
    ensures Step(c, s, op).db.turn.status != s.db.turn.status
            <==> (|| (op.Apply? && op.worker in s.workers && s.workers[op.worker].phase.Decided?
                      && s.db.turn.status != if op.stale then Stale else Applied)
                  || (op.Fail? && op.worker in s.workers && s.workers[op.worker].phase.Failing? && s.db.turn.status == Failed
                      && var code := s.workers[op.worker].phase.code;
                         (code == AdmissionPaused
                          || (s.db.turn.attempts < c.maxAttempts && code !in {PaidNotAuthorized, ReconciliationRequired}))))
  {
    if Enabled(c, s, op) {
      match op
      case Apply(_, _) =>
      case Fail(_) =>
      case Claim(_, _) => assert false;
      case _ => assert NextDb(c, s, op).turn == s.db.turn;
    }
  }

  /** The turn's state and where its one or two workers are. */
  predicate At(s: State, status: Status, owner: string, started: bool, phases: map<nat, Phase>) {
    && s.db.turn.status == status && s.db.turn.claimedBy == Some(owner)
    && s.db.turn.claimableAt <= s.now && s.db.turn.leaseUntil.Some?
    && s.db.started.Some? == started && s.db.receipt.None?
    && s.workers.Keys == phases.Keys
    && forall w | w in phases :: s.workers[w].phase == phases[w] && s.workers[w].owner == if w == 1 then "a" else "b"
  }

  /** However late, the ledger admits this ask again. */
  predicate Admits(c: Config, ledger: Ledger.State, ask: Ask, now: int) {
    && Ledger.Valid(ledger) && c.mission in ledger.missions
    && Ledger.Attempted(ledger, c.mission, RequestOf(c, ask, now)).denial.None?
  }

  /** A queued turn, due, whose call would be admitted. */
  predicate Ready(c: Config, s: State, ask: Ask) {
    && Initial(c, s) && s.db.turn.claimableAt <= s.now && |s.db.calls| < c.maxCalls
    && LedgerLaws.Unique(s.db.ledger.rows) && Admits(c, s.db.ledger, ask, s.now)
  }

  /** Some steps from here, at most this many, the turn is applied. */
  ghost predicate CanApply(c: Config, s: State, steps: nat)
    decreases steps
  {
    s.db.turn.status == Applied || (steps > 0 && exists t, op :: IsStep(c, s, op, t) && CanApply(c, t, steps - 1))
  }

  /** Some steps from here it is failed, and some further steps on it is applied. */
  ghost predicate CanFailThenApply(c: Config, s: State, steps: nat)
    decreases steps
  {
    || (s.db.turn.status == Failed && CanApply(c, s, 3))
    || (steps > 0 && exists t, op :: IsStep(c, s, op, t) && CanFailThenApply(c, t, steps - 1))
  }

  predicate IsStep(c: Config, s: State, op: Op, t: State) {
    Wellformed(c, s.db) && t == Step(c, s, op)
  }

  lemma ApplyNext(c: Config, s: State, op: Op, steps: nat)
    requires Wellformed(c, s.db) && CanApply(c, Step(c, s, op), steps)
    ensures CanApply(c, s, steps + 1)
  {
    assert IsStep(c, s, op, Step(c, s, op));
  }

  lemma FailNext(c: Config, s: State, op: Op, steps: nat)
    requires Wellformed(c, s.db) && CanFailThenApply(c, Step(c, s, op), steps)
    ensures CanFailThenApply(c, s, steps + 1)
  {
    assert IsStep(c, s, op, Step(c, s, op));
  }

  lemma Decide(c: Config, s: State)
    requires Wellformed(c, s.db) && 1 in s.workers && s.workers[1].phase.Decided?
    ensures CanApply(c, s, 1)
  {
    assert Step(c, s, Apply(1, false)).db.turn.status == Applied;
    ApplyNext(c, s, Apply(1, false), 0);
  }

  lemma StoreAnswer(c: Config, s: State)
    requires Wellformed(c, s.db) && s.db.receipt.None? && 1 in s.workers && s.workers[1].phase.Answered?
    ensures CanApply(c, s, 2)
  {
    StepWellformed(c, s, Store(1));
    Decide(c, Step(c, s, Store(1)));
    ApplyNext(c, s, Store(1), 1);
  }

  lemma ComeBack(c: Config, s: State)
    requires Wellformed(c, s.db) && s.db.receipt.None? && 1 in s.workers && s.workers[1].phase.InFlight?
    ensures CanApply(c, s, 3)
  {
    var op := Return(1, Response("", map[], true));
    StoreAnswer(c, Step(c, s, op));
    ApplyNext(c, s, op, 2);
  }

  lemma FailStep(c: Config, s: State)
    requires Wellformed(c, s.db) && 1 in s.workers && 2 in s.workers
    requires s.workers[2].phase == Failing(ReconciliationRequired) && s.db.turn.status == Running
    ensures var t := Step(c, s, Fail(2));
      t.db.turn.status == Failed && t.db.receipt == s.db.receipt && 1 in t.workers && t.workers[1] == s.workers[1]
  {
  }

  lemma GiveUp(c: Config, s: State, ask: Ask)
    requires Wellformed(c, s.db)
    requires At(s, Running, "b", true, map[1 := InFlight(ask), 2 := Failing(ReconciliationRequired)])
    ensures CanFailThenApply(c, s, 1)
  {
    assert s.workers[1].phase == InFlight(ask) && s.workers[2].phase == Failing(ReconciliationRequired);
    FailStep(c, s);
    StepWellformed(c, s, Fail(2));
    ComeBack(c, Step(c, s, Fail(2)));
    FailNext(c, s, Fail(2), 0);
  }

  /** Only the phase of one worker changes. */
  lemma PhaseStep(c: Config, s: State, op: Op, w: nat, phase: Phase)
    requires Wellformed(c, s.db) && Enabled(c, s, op) && (op.Load? || op.Begin? || op.Invoke?) && op.worker == w
    requires NextPhase(c, s, op) == phase
    ensures var t := Step(c, s, op);
      && t.workers == s.workers[w := s.workers[w].(phase := phase)] && t.now == s.now
      && (!op.Begin? ==> t.db == s.db)
  {
  }

  lemma BeginRefuses(c: Config, s: State, ask: Ask)
    requires Wellformed(c, s.db) && Admits(c, s.db.ledger, ask, s.now)
    requires At(s, Running, "b", true, map[1 := InFlight(ask), 2 := Loaded(ask)])
    ensures Step(c, s, Begin(2)).db == s.db
    ensures At(Step(c, s, Begin(2)), Running, "b", true, map[1 := InFlight(ask), 2 := Failing(ReconciliationRequired)])
  {
    assert s.workers[2].phase == Loaded(ask) && s.workers[2].owner == "b";
    assert BeginVerdict(c, s.db, "b", ask, s.now) == AlreadyStarted;
    assert BeginTx(c, s.db, "b", ask, s.now) == s.db;
    PhaseStep(c, s, Begin(2), 2, Failing(ReconciliationRequired));
  }

  lemma Refused(c: Config, s: State, ask: Ask)
    requires Wellformed(c, s.db) && Admits(c, s.db.ledger, ask, s.now)
    requires At(s, Running, "b", true, map[1 := InFlight(ask), 2 := Loaded(ask)])
    ensures CanFailThenApply(c, s, 2)
  {
    BeginRefuses(c, s, ask);
    GiveUp(c, Step(c, s, Begin(2)), ask);
    FailNext(c, s, Begin(2), 1);
  }

  lemma LoadSecond(c: Config, s: State, ask: Ask)
    requires Wellformed(c, s.db) && Admits(c, s.db.ledger, ask, s.now)
    requires At(s, Running, "b", true, map[1 := InFlight(ask), 2 := Claimed])
    ensures CanFailThenApply(c, s, 3)
  {
    assert s.workers[2].phase == Claimed && s.workers[2].owner == "b";
    PhaseStep(c, s, Load(2, ask), 2, Loaded(ask));
    Refused(c, Step(c, s, Load(2, ask)), ask);
    FailNext(c, s, Load(2, ask), 2);
  }

  lemma ClaimSecondAt(c: Config, s: State, ask: Ask)
    requires Wellformed(c, s.db) && At(s, Running, "a", true, map[1 := InFlight(ask)]) && s.db.turn.leaseUntil.value < s.now
    ensures var t := Step(c, s, Claim(2, "b"));
      At(t, Running, "b", true, map[1 := InFlight(ask), 2 := Claimed]) && t.db.ledger == s.db.ledger && t.now == s.now
  {
  }

  lemma ClaimSecond(c: Config, s: State, ask: Ask)
    requires Wellformed(c, s.db) && Admits(c, s.db.ledger, ask, s.now)
    requires At(s, Running, "a", true, map[1 := InFlight(ask)]) && s.db.turn.leaseUntil.value < s.now
    ensures CanFailThenApply(c, s, 4)
  {
    ClaimSecondAt(c, s, ask);
    LoadSecond(c, Step(c, s, Claim(2, "b")), ask);
    FailNext(c, s, Claim(2, "b"), 3);
  }

  lemma Lapse(c: Config, s: State, ask: Ask)
    requires Wellformed(c, s.db) && At(s, Running, "a", true, map[1 := InFlight(ask)])
    requires forall now :: Admits(c, s.db.ledger, ask, now)
    ensures CanFailThenApply(c, s, 5)
  {
    var wait := if s.db.turn.leaseUntil.value < s.now then 0 else s.db.turn.leaseUntil.value - s.now + 1;
    var t := Step(c, s, Tick(wait));
    assert t.db == s.db && t.workers[1].phase == InFlight(ask);
    ClaimSecond(c, t, ask);
    FailNext(c, s, Tick(wait), 4);
  }

  lemma CallFirst(c: Config, s: State, ask: Ask)
    requires Wellformed(c, s.db) && At(s, Running, "a", true, map[1 := Calling(ask)])
    requires forall now :: Admits(c, s.db.ledger, ask, now)
    ensures CanFailThenApply(c, s, 6)
  {
    assert s.workers[1].phase == Calling(ask);
    PhaseStep(c, s, Invoke(1), 1, InFlight(ask));
    Lapse(c, Step(c, s, Invoke(1)), ask);
    FailNext(c, s, Invoke(1), 5);
  }

  /** Once admitted, the ask is admitted at any time. */
  lemma AdmitsForever(c: Config, ledger: Ledger.State, ask: Ask, first: int, now: int)
    requires Admits(c, ledger, ask, first) && LedgerLaws.Unique(ledger.rows)
    ensures Admits(c, Ledger.ReserveTx(ledger, c.mission, RequestOf(c, ask, first), false), ask, now)
  {
    LedgerReplays.RepeatIsFree(ledger, c.mission, RequestOf(c, ask, first), false, [], RequestOf(c, ask, now), false);
  }

  lemma BeginStarts(c: Config, s: State, ask: Ask)
    requires Wellformed(c, s.db) && |s.db.calls| < c.maxCalls && Admits(c, s.db.ledger, ask, s.now)
    requires At(s, Running, "a", false, map[1 := Loaded(ask)])
    ensures At(Step(c, s, Begin(1)), Running, "a", true, map[1 := Calling(ask)])
    ensures Step(c, s, Begin(1)).db.ledger == Ledger.ReserveTx(s.db.ledger, c.mission, RequestOf(c, ask, s.now), false)
  {
    assert s.workers[1].phase == Loaded(ask) && s.workers[1].owner == "a";
    assert BeginVerdict(c, s.db, "a", ask, s.now) == Start;
    PhaseStep(c, s, Begin(1), 1, Calling(ask));
  }

  lemma StartFirst(c: Config, s: State, ask: Ask)
    requires Wellformed(c, s.db) && |s.db.calls| < c.maxCalls
    requires Admits(c, s.db.ledger, ask, s.now) && LedgerLaws.Unique(s.db.ledger.rows)
    requires At(s, Running, "a", false, map[1 := Loaded(ask)])
    ensures CanFailThenApply(c, s, 7)
  {
    BeginStarts(c, s, ask);
    StepWellformed(c, s, Begin(1));
    forall now ensures Admits(c, Step(c, s, Begin(1)).db.ledger, ask, now) {
      AdmitsForever(c, s.db.ledger, ask, s.now, now);
    }
    CallFirst(c, Step(c, s, Begin(1)), ask);
    FailNext(c, s, Begin(1), 6);
  }

  lemma LoadFirst(c: Config, s: State, ask: Ask)
    requires Wellformed(c, s.db) && |s.db.calls| < c.maxCalls
    requires Admits(c, s.db.ledger, ask, s.now) && LedgerLaws.Unique(s.db.ledger.rows)
    requires At(s, Running, "a", false, map[1 := Claimed])
    ensures CanFailThenApply(c, s, 8)
  {
    assert s.workers[1].phase == Claimed && s.workers[1].owner == "a";
    PhaseStep(c, s, Load(1, ask), 1, Loaded(ask));
    StartFirst(c, Step(c, s, Load(1, ask)), ask);
    FailNext(c, s, Load(1, ask), 7);
  }

  /**
    So without the timing the law fails, however long the lease is: from every due turn
    whose call would be admitted there is a run in which one worker outlives its lease,
    another marks the turn failed, and the first then applies it.
   */
  lemma FailedTurnIsApplied(c: Config, s: State, ask: Ask)
    requires Ready(c, s, ask)
    ensures CanFailThenApply(c, s, 9)
  {
    var t := Step(c, s, Claim(1, "a"));
    assert t.db.ledger == s.db.ledger && t.db.calls == s.db.calls && t.workers[1].phase == Claimed;
    LoadFirst(c, t, ask);
    FailNext(c, s, Claim(1, "a"), 8);
  }
}
