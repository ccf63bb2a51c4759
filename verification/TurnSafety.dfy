/** One provider call for a management turn, and one answer, over every interleaving. */
module TurnSafety {
  import opened Wrappers
  import opened Turns

  /** Between the started record and the receipt. */
  predicate Busy(p: Phase) {
    p.Calling? || p.InFlight? || p.Answered?
  }

  predicate WorkerInv(s: State, p: Phase) {
    && (Busy(p) ==> s.db.started.Some? && s.db.receipt.None?)
    && (p.Calling? ==> s.invoked == 0)
    && (p.InFlight? ==> s.invoked == 1 && s.answers == [])
    && (p.Answered? ==> s.answers == [p.response])
    && (p.Decided? ==> s.db.receipt.Some? && s.db.receipt.value.response == p.response)
  }

  predicate CallInv(s: State) {
    && s.invoked <= 1 && |s.answers| <= s.invoked
    && (s.db.started.None? ==> s.invoked == 0 && s.db.receipt.None?)
    && (s.db.receipt.Some? ==> s.answers == [s.db.receipt.value.response])
  }

  predicate OneBusy(workers: map<nat, Process>) {
    forall v, w | v in workers && w in workers && Busy(workers[v].phase) && Busy(workers[w].phase) :: v == w
  }

  predicate Inv(s: State) {
    && CallInv(s)
    && OneBusy(s.workers)
    && forall w | w in s.workers :: WorkerInv(s, s.workers[w].phase)
  }

  lemma BeginInv(c: Config, s: State, w: nat)
    requires Wellformed(c, s.db) && Inv(s) && Enabled(c, s, Begin(w))
    ensures Inv(Step(c, s, Begin(w)))
  {
    var p := s.workers[w];
    var v := BeginVerdict(c, s.db, p.owner, p.phase.ask, s.now);
    var t := Step(c, s, Begin(w));
    assert t.db.receipt == s.db.receipt && (v != Start ==> t.db.started == s.db.started);
    forall x | x in t.workers ensures WorkerInv(t, t.workers[x].phase) {
      assert x != w ==> t.workers[x] == s.workers[x];
    }
  }

  lemma StoreInv(c: Config, s: State, w: nat)
    requires Wellformed(c, s.db) && Inv(s) && Enabled(c, s, Store(w))
    ensures Inv(Step(c, s, Store(w)))
  {
    var t := Step(c, s, Store(w));
    forall x | x in t.workers ensures WorkerInv(t, t.workers[x].phase) {
      assert x != w ==> t.workers[x] == s.workers[x] && !Busy(s.workers[x].phase);
    }
  }

  lemma InvokeInv(c: Config, s: State, op: Op)
    requires Wellformed(c, s.db) && Inv(s) && (op.Invoke? || op.Return?)
    ensures Inv(Step(c, s, op))
  {
    if Enabled(c, s, op) {
      var t := Step(c, s, op);
      forall x | x in t.workers ensures WorkerInv(t, t.workers[x].phase) {
        assert x != op.worker ==> t.workers[x] == s.workers[x] && !Busy(s.workers[x].phase);
      }
    }
  }

  lemma OtherInv(c: Config, s: State, op: Op)
    requires Wellformed(c, s.db) && Inv(s) && !op.Begin? && !op.Store? && !op.Invoke? && !op.Return?
    ensures Inv(Step(c, s, op))
  {
    if Enabled(c, s, op) {
      var t := Step(c, s, op);
      assert t.db.started == s.db.started && t.db.receipt == s.db.receipt;
      forall x | x in t.workers
        ensures WorkerInv(t, t.workers[x].phase)
        ensures Busy(t.workers[x].phase) ==> x in s.workers && Busy(s.workers[x].phase)
      {
        assert !Busy(t.workers[x].phase) || (x in s.workers && t.workers[x].phase == s.workers[x].phase);
      }
    }
  }

  lemma StepInv(c: Config, s: State, op: Op)
    requires Wellformed(c, s.db) && Inv(s)
    ensures Inv(Step(c, s, op))
  {
    if Enabled(c, s, op) {
      match op
      case Begin(w) => BeginInv(c, s, w);
      case Store(w) => StoreInv(c, s, w);
      case Invoke(_) => InvokeInv(c, s, op);
      case Return(_, _) => InvokeInv(c, s, op);
      case _ => OtherInv(c, s, op);
    }
  }

  /**
    Whatever owners, crashes, timeouts and lapsed leases do, in every reachable state the
    provider has been invoked at most once for the turn, and every decision on its way to
    be applied is that one answer.
   */
  lemma {:induction false} OneInvocationPerTurn(c: Config, s: State, ops: seq<Op>)
    requires Initial(c, s)
    ensures var t := Run(c, s, ops);
      && Inv(t)
      && t.invoked <= 1
      && (forall w | w in t.workers && t.workers[w].phase.Decided? :: t.answers == [t.workers[w].phase.response])
  {
    if ops != [] {
      var n := |ops| - 1;
      OneInvocationPerTurn(c, s, ops[..n]);
      StepInv(c, Run(c, s, ops[..n]), ops[n]);
    }
  }

  /** A worker that has an answer to store never finds a receipt there already. */
  lemma ReceiptNeverRefused(c: Config, s: State, ops: seq<Op>, w: nat)
    requires Initial(c, s) && Enabled(c, Run(c, s, ops), Store(w))
    ensures var t := Run(c, s, ops);
      && t.db.receipt.None?
      && Step(c, t, Store(w)).db.receipt == Some(Receipt(t.workers[w].phase.ask.digest, t.workers[w].phase.response))
      && Step(c, t, Store(w)).workers[w].phase == Decided(t.workers[w].phase.response)
  {
    OneInvocationPerTurn(c, s, ops);
    assert WorkerInv(Run(c, s, ops), Run(c, s, ops).workers[w].phase);
  }

  // ------------------------------------------------------------------ the cap on calls

  predicate CapInv(c: Config, db: Db) {
    |db.calls| <= c.maxCalls && (db.started.Some? <==> c.turnId in db.calls)
  }

  lemma BeginCap(c: Config, s: State, w: nat)
    requires Wellformed(c, s.db) && CapInv(c, s.db) && Enabled(c, s, Begin(w))
    ensures CapInv(c, BeginTx(c, s.db, s.workers[w].owner, s.workers[w].phase.ask, s.now))
  {
    var v := BeginVerdict(c, s.db, s.workers[w].owner, s.workers[w].phase.ask, s.now);
    assert v == Start ==> |s.db.calls + {c.turnId}| <= |s.db.calls| + 1;
  }

  lemma StepCap(c: Config, s: State, op: Op)
    requires Wellformed(c, s.db) && CapInv(c, s.db)
    ensures CapInv(c, Step(c, s, op).db)
  {
    if Enabled(c, s, op) {
      match op
      case Begin(w) => BeginCap(c, s, w);
      case OtherCall(id) => assert |s.db.calls + {id}| <= |s.db.calls| + 1;
      case _ => assert NextDb(c, s, op).calls == s.db.calls && NextDb(c, s, op).started == s.db.started;
    }
  }

  /** The team's inference cap bounds the logical calls; this turn counts once, from its start on. */
  lemma {:induction false} CallsStayUnderCap(c: Config, s: State, ops: seq<Op>)
    requires Initial(c, s)
    ensures CapInv(c, Run(c, s, ops).db)
  {
    if ops != [] {
      var n := |ops| - 1;
      CallsStayUnderCap(c, s, ops[..n]);
      StepCap(c, Run(c, s, ops[..n]), ops[n]);
    }
  }

  // ------------------------------------------------------------------ the bound on attempts

  predicate AttemptsInv(c: Config, t: Turn) {
    t.attempts <= c.maxAttempts && (t.status == Queued ==> t.attempts < c.maxAttempts)
  }

  /** A lapsed lease is taken over although no attempt is left: a claim does not look at the bound. */
  predicate TakeoverAtBound(c: Config, s: State, op: Op) {
    Enabled(c, s, op) && op.Claim? && s.db.turn.status == Running && s.db.turn.attempts == c.maxAttempts
  }

  /** One step breaks the bound exactly if it is such a takeover. */
  lemma StepAttemptsExactly(c: Config, s: State, op: Op)
    requires Wellformed(c, s.db) && c.maxAttempts >= 1 && AttemptsInv(c, s.db.turn)
    ensures !AttemptsInv(c, Step(c, s, op).db.turn) <==> TakeoverAtBound(c, s, op)
  {
    if Enabled(c, s, op) && !op.Claim? && !op.Fail? && !op.Apply? {
      assert NextDb(c, s, op).turn == s.db.turn;
    }
  }

  predicate NoTakeoverAtBound(c: Config, s: State, ops: seq<Op>)
    requires Wellformed(c, s.db)
  {
    forall i | 0 <= i < |ops| :: !TakeoverAtBound(c, Run(c, s, ops[..i]), ops[i])
  }

  predicate BoundedThroughout(c: Config, s: State, ops: seq<Op>)
    requires Wellformed(c, s.db)
  {
    forall i | 0 <= i <= |ops| :: AttemptsInv(c, Run(c, s, ops[..i]).db.turn)
  }

  lemma RunOneMore(c: Config, s: State, ops: seq<Op>, i: nat)
    requires Wellformed(c, s.db) && i < |ops|
    ensures Run(c, s, ops[..i + 1]) == Step(c, Run(c, s, ops[..i]), ops[i])
  {
    assert ops[..i + 1][..i] == ops[..i];
  }

  lemma {:induction false} BoundedUpTo(c: Config, s: State, ops: seq<Op>, i: nat)
    requires Initial(c, s) && s.db.turn.attempts == 0 && c.maxAttempts >= 1
    requires NoTakeoverAtBound(c, s, ops) && i <= |ops|
    ensures AttemptsInv(c, Run(c, s, ops[..i]).db.turn)
  {
    if i > 0 {
      BoundedUpTo(c, s, ops, i - 1);
      RunOneMore(c, s, ops, i - 1);
      var before := Run(c, s, ops[..i - 1]);
      assert !TakeoverAtBound(c, before, ops[i - 1]);
      StepAttemptsExactly(c, before, ops[i - 1]);
    }
  }

  /**
    Along a whole run a turn is attempted at most as often as configured, and queued again
    only while an attempt is left, exactly if no lapsed lease is taken over at the bound;
    whoever fails it, however often admission is paused, and whatever was taken over before.
   */
  lemma AttemptsAreBoundedExactly(c: Config, s: State, ops: seq<Op>)
    requires Initial(c, s) && s.db.turn.attempts == 0 && c.maxAttempts >= 1
    ensures BoundedThroughout(c, s, ops) <==> NoTakeoverAtBound(c, s, ops)
  {
    if NoTakeoverAtBound(c, s, ops) {
      forall i | 0 <= i <= |ops| ensures AttemptsInv(c, Run(c, s, ops[..i]).db.turn) {
        BoundedUpTo(c, s, ops, i);
      }
    }
    if BoundedThroughout(c, s, ops) {
      forall i | 0 <= i < |ops| ensures !TakeoverAtBound(c, Run(c, s, ops[..i]), ops[i]) {
        RunOneMore(c, s, ops, i);
        StepAttemptsExactly(c, Run(c, s, ops[..i]), ops[i]);
        assert AttemptsInv(c, Run(c, s, ops[..i + 1]).db.turn);
      }
    }
  }

  // ------------------------------------------------------------------ a run that goes past it

  /** Claimed and claimed again, each time by a new worker after the lease has lapsed. */
  predicate ClaimedOften(c: Config, s: State, n: nat) {
    && s.db.turn.status == Running && s.db.turn.attempts == n && s.db.turn.leaseUntil.Some?
    && s.db.turn.claimableAt <= s.now && forall w | w in s.workers :: w < n
  }

  lemma TakeOver(c: Config, s: State, n: nat) returns (wait: nat)
    requires Wellformed(c, s.db) && ClaimedOften(c, s, n)
    ensures Step(c, s, Tick(wait)).db == s.db
    ensures ClaimedOften(c, Step(c, Step(c, s, Tick(wait)), Claim(n, "")), n + 1)
  {
    wait := if s.db.turn.leaseUntil.value < s.now then 0 else s.db.turn.leaseUntil.value - s.now + 1;
  }

  /** From every due turn there is a run with any number of claims, so also one more than configured. */
  lemma {:induction false} ClaimsAreUnbounded(c: Config, s: State, n: nat) returns (ops: seq<Op>)
    requires Initial(c, s) && s.db.turn.attempts == 0 && s.db.turn.claimableAt <= s.now && n >= 1
    ensures ClaimedOften(c, Run(c, s, ops), n)
    ensures n > c.maxAttempts ==> !AttemptsInv(c, Run(c, s, ops).db.turn)
  {
    if n == 1 {
      ops := [Claim(0, "")];
      assert ops[..0] == [];
    } else {
      var before := ClaimsAreUnbounded(c, s, n - 1);
      var wait := TakeOver(c, Run(c, s, before), n - 1);
      ops := before + [Tick(wait), Claim(n - 1, "")];
      assert ops[..|before|] == before && ops[..|before| + 2] == ops;
      RunOneMore(c, s, ops, |before|);
      RunOneMore(c, s, ops, |before| + 1);
    }
  }
}
