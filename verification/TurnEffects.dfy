/** What each step does to a turn, and how long a failed one is left alone. */
module TurnEffects {
  import opened Wrappers
  import Ledger
  import opened Turns

  // ------------------------------------------------------------------ claiming

  /** The turn is due, and it is free or its lease is over. */
  predicate Free(t: Turn, now: int) {
    && now >= t.claimableAt
    && (t.status == Queued || (t.status == Running && t.leaseUntil.Some? && now > t.leaseUntil.value))
  }

  lemma ClaimedExactly(c: Config, s: State, w: nat, owner: string)
    requires Wellformed(c, s.db) && w !in s.workers
    ensures var u := Step(c, s, Claim(w, owner));
      && (w in u.workers <==> Free(s.db.turn, s.now))
      && (w !in u.workers ==> u == s)
      && (w in u.workers ==>
            && u.db == s.db.(turn := Turn(Running, Some(owner), Some(s.now + c.lease), s.db.turn.claimableAt, s.db.turn.attempts + 1))
            && u == s.(db := u.db, workers := s.workers[w := Process(owner, Claimed, s.now, 0, 0)]))
  {
  }

  // ------------------------------------------------------------------ failing

  function Doubled(n: nat): nat {
    if n == 0 then 1 else Doubled(n - 1) + Doubled(n - 1)
  }

  lemma {:induction false} DoubledIs(n: nat)
    ensures Backoff(n) == Doubled(n) >= 1
  {
    if n > 0 {
      DoubledIs(n - 1);
    }
  }

  predicate Decisive(t: Turn) {
    t.status == Applied || t.status == Stale
  }

  /** It may be tried again: no final verdict, and an attempt is left. */
  predicate Retried(c: Config, t: Turn, code: Code) {
    code == OtherError && t.attempts < c.maxAttempts
  }

  /**
    A failure leaves a decided turn alone. A paused admission queues it for five seconds
    later and gives the attempt back; any other failure queues it for two to the power of
    its attempts, as long as one is left and the code allows it, or fails it.
   */
  lemma FailureExactly(c: Config, s: State, w: nat, code: Code)
    requires Wellformed(c, s.db) && w in s.workers && s.workers[w].phase == Failing(code)
    ensures var t, u := s.db.turn, Step(c, s, Fail(w));
      && u.workers == s.workers - {w} && u.now == s.now && u.db.started == s.db.started && u.db.receipt == s.db.receipt
      && (Decisive(t) ==> u.db == s.db)
      && (!Decisive(t) && code == AdmissionPaused ==>
            && u.db.turn == Turn(Queued, None, None, s.now + 5, if t.attempts > 0 then t.attempts - 1 else 0)
            && u.db.ledger == s.db.ledger)
      && (!Decisive(t) && Retried(c, t, code) ==> u.db.turn == Turn(Queued, None, None, s.now + Doubled(t.attempts), t.attempts))
      && (!Decisive(t) && code != AdmissionPaused && !Retried(c, t, code) ==> u.db.turn == t.(status := Failed))
      && (!Decisive(t) && code != AdmissionPaused ==>
            u.db.ledger == if s.db.started.Some? && s.db.receipt.None?
                           then Ledger.Step(s.db.ledger, Ledger.Reconcile(c.mission, c.action, None, true)) else s.db.ledger)
  {
    DoubledIs(s.db.turn.attempts);
  }

  /** The j-th step decides nothing and fails nothing. */
  predicate QuietAt(c: Config, s: State, ops: seq<Op>, j: nat)
    requires Wellformed(c, s.db) && j < |ops|
  {
    Enabled(c, Run(c, s, ops[..j]), ops[j]) ==> !ops[j].Apply? && !ops[j].Fail?
  }

  /** No worker decides the turn or fails it on the way. */
  predicate Undisturbed(c: Config, s: State, ops: seq<Op>)
    requires Wellformed(c, s.db)
  {
    forall j | 0 <= j < |ops| :: QuietAt(c, s, ops, j)
  }

  lemma QuietBefore(c: Config, s: State, ops: seq<Op>, n: nat, j: nat)
    requires Wellformed(c, s.db) && j < n <= |ops| && QuietAt(c, s, ops, j)
    ensures QuietAt(c, s, ops[..n], j)
  {
    assert ops[..n][..j] == ops[..j];
  }

  lemma UndisturbedPrefix(c: Config, s: State, ops: seq<Op>)
    requires Wellformed(c, s.db) && ops != [] && Undisturbed(c, s, ops)
    ensures Undisturbed(c, s, ops[..|ops| - 1]) && QuietAt(c, s, ops, |ops| - 1)
  {
    var rest := ops[..|ops| - 1];
    forall j | 0 <= j < |rest| ensures QuietAt(c, s, rest, j) {
      QuietBefore(c, s, ops, |rest|, j);
    }
  }

  lemma WaitingStep(c: Config, s: State, op: Op)
    requires Wellformed(c, s.db) && s.db.turn.status == Queued && s.now < s.db.turn.claimableAt
    requires Enabled(c, s, op) ==> !op.Apply? && !op.Fail?
    ensures Step(c, s, op).db.turn == s.db.turn && Step(c, s, op).now >= s.now
  {
  }

  /** A queued turn is left as it is while the clock is before its time. */
  lemma {:induction false} WaitsItsTime(c: Config, s: State, ops: seq<Op>)
    requires Wellformed(c, s.db) && s.db.turn.status == Queued && Undisturbed(c, s, ops)
    ensures Run(c, s, ops).now >= s.now
    ensures Run(c, s, ops).now < s.db.turn.claimableAt ==> Run(c, s, ops).db.turn == s.db.turn
  {
    if ops != [] {
      var rest, op := ops[..|ops| - 1], ops[|ops| - 1];
      UndisturbedPrefix(c, s, ops);
      WaitsItsTime(c, s, rest);
      if Run(c, s, rest).now < s.db.turn.claimableAt {
        WaitingStep(c, Run(c, s, rest), op);
      }
    }
  }

  lemma NobodyStep(c: Config, s: State, op: Op)
    requires Wellformed(c, s.db) && s.workers == map[] && s.db.turn.status == Queued && s.now < s.db.turn.claimableAt
    ensures Step(c, s, op).workers == map[] && Step(c, s, op).db.turn == s.db.turn && Step(c, s, op).now >= s.now
  {
    if Enabled(c, s, op) && op.Tick? {
      assert AgedAll(s.workers, op.seconds) == map[];
    }
  }

  lemma {:induction false} NobodyWorks(c: Config, s: State, ops: seq<Op>)
    requires Wellformed(c, s.db) && s.workers == map[] && s.db.turn.status == Queued
    ensures Run(c, s, ops).now >= s.now
    ensures Run(c, s, ops).now < s.db.turn.claimableAt ==> Run(c, s, ops).db.turn == s.db.turn && Run(c, s, ops).workers == map[]
  {
    if ops != [] {
      var rest, op := ops[..|ops| - 1], ops[|ops| - 1];
      NobodyWorks(c, s, rest);
      if Run(c, s, rest).now < s.db.turn.claimableAt {
        NobodyStep(c, Run(c, s, rest), op);
      } else {
        ClockGrows(c, Run(c, s, rest), op);
      }
    }
  }

  lemma ClockGrows(c: Config, s: State, op: Op)
    requires Wellformed(c, s.db)
    ensures Step(c, s, op).now >= s.now
  {
  }

  /** How long a failure that queues the turn again puts it off. */
  function Delay(code: Code, attempts: nat): nat {
    if code == AdmissionPaused then 5 else Doubled(attempts)
  }

  predicate QueuesAgain(c: Config, t: Turn, code: Code) {
    !Decisive(t) && (code == AdmissionPaused || Retried(c, t, code))
  }

  /**
    After a failure that queues the turn again nothing takes it before its delay is over,
    over every run in which no other worker still decides or fails it; with no other worker
    on the turn that is every run.
   */
  lemma FailureIsPutOff(c: Config, s: State, w: nat, code: Code, ops: seq<Op>)
    requires Wellformed(c, s.db) && w in s.workers && s.workers[w].phase == Failing(code) && QueuesAgain(c, s.db.turn, code)
    requires Wellformed(c, Step(c, s, Fail(w)).db)
    requires s.workers.Keys == {w} || Undisturbed(c, Step(c, s, Fail(w)), ops)
    ensures var t := Run(c, Step(c, s, Fail(w)), ops);
      t.now < s.now + Delay(code, s.db.turn.attempts) ==>
        t.db.turn == Step(c, s, Fail(w)).db.turn && t.db.turn.status == Queued && t.db.turn.claimedBy.None?
  {
    FailureExactly(c, s, w, code);
    var u := Step(c, s, Fail(w));
    if s.workers.Keys == {w} {
      assert u.workers == map[];
      NobodyWorks(c, u, ops);
    } else {
      WaitsItsTime(c, u, ops);
    }
  }

  /** The delay is exact: some time later a claim by a new worker succeeds exactly if it is over. */
  lemma DelayIsExact(c: Config, s: State, w: nat, code: Code, seconds: nat, again: nat, owner: string)
    requires Wellformed(c, s.db) && w in s.workers && s.workers[w].phase == Failing(code) && QueuesAgain(c, s.db.turn, code)
    requires again !in s.workers
    ensures Wellformed(c, Step(c, s, Fail(w)).db) && Wellformed(c, Step(c, Step(c, s, Fail(w)), Tick(seconds)).db)
    ensures var u := Step(c, Step(c, s, Fail(w)), Tick(seconds));
      again in Step(c, u, Claim(again, owner)).workers <==> seconds >= Delay(code, s.db.turn.attempts)
  {
    FailureExactly(c, s, w, code);
    StepWellformed(c, s, Fail(w));
    StepWellformed(c, Step(c, s, Fail(w)), Tick(seconds));
    var u := Step(c, Step(c, s, Fail(w)), Tick(seconds));
    assert u.db == Step(c, s, Fail(w)).db && again !in u.workers;
    ClaimedExactly(c, u, again, owner);
  }

  // ------------------------------------------------------------------ the call and its two transactions

  /** The worker goes on in this phase, and nothing else about the workers changes. */
  predicate GoesOn(s: State, u: State, w: nat, phase: Phase)
    requires w in s.workers
  {
    u.workers == s.workers[w := s.workers[w].(phase := phase)] && u.now == s.now
  }

  lemma LoadedExactly(c: Config, s: State, w: nat, ask: Ask)
    requires Wellformed(c, s.db) && w in s.workers && s.workers[w].phase == Claimed
    ensures var u := Step(c, s, Load(w, ask));
      && u.db == s.db
      && GoesOn(s, u, w, if s.db.turn.status == Running && s.db.turn.claimedBy == Some(s.workers[w].owner)
                         then Loaded(ask) else Failing(OtherError))
  {
  }

  /** The reservation this worker makes for its call. */
  function Reservation(c: Config, s: State, ask: Ask): Ledger.Op {
    Ledger.Reserve(c.mission, Ledger.Request(c.action, ask.liability, ask.currency, "currency", s.now), false)
  }

  /** The claim is still its own, and the budget admits the call. */
  ghost predicate MayCall(c: Config, s: State, w: nat, ask: Ask)
    requires Wellformed(c, s.db) && w in s.workers
  {
    s.db.turn.claimedBy == Some(s.workers[w].owner)
    && Ledger.Attempted(s.db.ledger, c.mission, Reservation(c, s, ask).request).denial.None?
  }

  /**
    The transaction before the call. Without the claim or the budget nothing is written. A
    stored receipt of the same request is the answer, and of another an error; a started
    record without a receipt needs reconciliation; and a call is started only under the cap.
   */
  lemma BeginExactly(c: Config, s: State, w: nat, ask: Ask)
    requires Wellformed(c, s.db) && w in s.workers && s.workers[w].phase == Loaded(ask)
    ensures var u := Step(c, s, Begin(w));
      && (!MayCall(c, s, w, ask) ==> u.db == s.db && GoesOn(s, u, w, Failing(OtherError)))
      && (MayCall(c, s, w, ask) && s.db.receipt.Some? && s.db.receipt.value.digest == ask.digest ==>
            u.db == s.db.(ledger := Ledger.Step(s.db.ledger, Reservation(c, s, ask)))
            && GoesOn(s, u, w, Decided(s.db.receipt.value.response)))
      && (MayCall(c, s, w, ask) && s.db.receipt.Some? && s.db.receipt.value.digest != ask.digest ==>
            u.db == s.db && GoesOn(s, u, w, Failing(OtherError)))
      && (MayCall(c, s, w, ask) && s.db.receipt.None? && s.db.started.Some? ==>
            u.db == s.db && GoesOn(s, u, w, Failing(ReconciliationRequired)))
      && (MayCall(c, s, w, ask) && s.db.receipt.None? && s.db.started.None? && |s.db.calls| >= c.maxCalls ==>
            u.db == s.db && GoesOn(s, u, w, Failing(OtherError)))
  {
  }

  lemma BeginStartsCall(c: Config, s: State, w: nat, ask: Ask)
    requires Wellformed(c, s.db) && w in s.workers && s.workers[w].phase == Loaded(ask) && MayCall(c, s, w, ask)
    requires s.db.receipt.None? && s.db.started.None? && |s.db.calls| < c.maxCalls
    ensures var u := Step(c, s, Begin(w));
      && u.db.turn == s.db.turn && u.db.receipt.None? && u.db.calls == s.db.calls + {c.turnId}
      && u.db.ledger == Ledger.Step(s.db.ledger, Reservation(c, s, ask))
      && u.db.started == Some(Started(Reservation(c, s, ask).request, s.db.ledger.missions[c.mission].team))
      && GoesOn(s, u, w, Calling(ask)) && u.invoked == s.invoked
  {
  }

  /** The receipt, what it says and the settlement come together, or the second one is refused. */
  lemma StoredExactly(c: Config, s: State, w: nat, ask: Ask, response: Response)
    requires Wellformed(c, s.db) && w in s.workers && s.workers[w].phase == Answered(ask, response)
    ensures var u := Step(c, s, Store(w));
      && (s.db.receipt.Some? ==> u.db == s.db && GoesOn(s, u, w, Failing(OtherError)))
      && (s.db.receipt.None? ==>
            && u.db.turn == s.db.turn && u.db.started == s.db.started && u.db.calls == s.db.calls
            && u.db.receipt.Some? && u.db.receipt.value.digest == ask.digest && u.db.receipt.value.response == response
            && u.db.ledger == Ledger.Step(s.db.ledger, Ledger.Reconcile(c.mission, c.action, Some(response.actual), response.unknown))
            && GoesOn(s, u, w, Decided(response)))
  {
  }

  lemma DecidedExactly(c: Config, s: State, w: nat, stale: bool)
    requires Wellformed(c, s.db) && w in s.workers && s.workers[w].phase.Decided?
    ensures var u := Step(c, s, Apply(w, stale));
      && u.db == s.db.(turn := u.db.turn)
      && u.db.turn == s.db.turn.(status := if stale then Stale else Applied)
      && GoesOn(s, u, w, Dispatching)
  {
  }
}
