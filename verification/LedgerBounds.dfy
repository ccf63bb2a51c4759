/** How much any scope and window can ever be charged. */
module LedgerBounds {
  import opened Ledger

  function Max(a: nat, b: nat): nat { if a < b then b else a }

  /** What the limit of this scope allows right now; nothing before the scope is known. */
  function CapNow(s: State, sc: Scope, f: Field): nat
    requires Valid(s)
  {
    if sc in s.controls then Cap(s.controls[sc], f) else 0
  }

  /** The largest limit this scope has had so far. */
  function Peak(s: State, ops: seq<Op>, sc: Scope, f: Field): nat
    requires Valid(s)
  {
    if ops == [] then CapNow(s, sc, f)
    else Max(Peak(s, ops[..|ops| - 1], sc, f), CapNow(Run(s, ops), sc, f))
  }

  /** The sum over rows of how much each one's charge grew. */
  function Growth(before: seq<Row>, after: seq<Row>, sc: Scope, w: int, f: Field): nat
    requires |before| <= |after|
  {
    if before == [] then 0
    else
      var n := |before| - 1;
      Growth(before[..n], after, sc, w, f)
      + Max(ChargeIn(after[n], sc, w, f), ChargeIn(before[n], sc, w, f)) - ChargeIn(before[n], sc, w, f)
  }

  /** A reconciliation may record more than was reserved; this is by how much. */
  function StepOverrun(s: State, op: Op, sc: Scope, w: int, f: Field): nat
    requires Valid(s)
  {
    if op.Reconcile? && Enabled(s, op) then Growth(s.rows, Step(s, op).rows, sc, w, f) else 0
  }

  function Overrun(s: State, ops: seq<Op>, sc: Scope, w: int, f: Field): nat
    requires Valid(s)
  {
    if ops == [] then 0
    else
      var n := |ops| - 1;
      Overrun(s, ops[..n], sc, w, f) + StepOverrun(Run(s, ops[..n]), ops[n], sc, w, f)
  }

  // ------------------------------------------------------------------ sums over rows

  lemma ChargedAppend(rows: seq<Row>, r: Row, sc: Scope, w: int, f: Field)
    ensures Charged(rows + [r], sc, w, f) == Charged(rows, sc, w, f) + ChargeIn(r, sc, w, f)
  {
    assert (rows + [r])[..|rows|] == rows;
  }

  lemma {:induction false} ChargedGrowth(before: seq<Row>, after: seq<Row>, sc: Scope, w: int, f: Field)
    requires |before| == |after|
    ensures Charged(after, sc, w, f) <= Charged(before, sc, w, f) + Growth(before, after, sc, w, f)
  {
    if before != [] {
      var n := |before| - 1;
      ChargedGrowth(before[..n], after[..n], sc, w, f);
      GrowthPrefix(before[..n], after, n, sc, w, f);
    }
  }

  lemma {:induction false} GrowthPrefix(before: seq<Row>, after: seq<Row>, n: nat, sc: Scope, w: int, f: Field)
    requires |before| <= n <= |after|
    ensures Growth(before, after[..n], sc, w, f) == Growth(before, after, sc, w, f)
  {
    if before != [] {
      GrowthPrefix(before[..|before| - 1], after, n, sc, w, f);
    }
  }

  lemma {:induction false} NoGrowth(before: seq<Row>, after: seq<Row>, sc: Scope, w: int, f: Field)
    requires |before| <= |after|
    requires forall i | 0 <= i < |before| :: ChargeIn(after[i], sc, w, f) <= ChargeIn(before[i], sc, w, f)
    ensures Growth(before, after, sc, w, f) == 0
  {
    if before != [] {
      NoGrowth(before[..|before| - 1], after, sc, w, f);
    }
  }

  // ------------------------------------------------------------------ one reservation

  lemma {:induction false} NothingExceeded(rows: seq<Row>, sc: Scope, w: int, req: Request, limits: Limits, fields: seq<Field>, f: Field)
    requires ValidLimits(limits) && FirstExceeded(rows, sc, w, req, limits, fields).None? && f in fields
    ensures !Exceeds(rows, sc, w, req, limits, f)
  {
    if f != fields[0] {
      NothingExceeded(rows, sc, w, req, limits, fields[1..], f);
    }
  }

  lemma EveryField(f: Field)
    ensures f in FIELDS
  {
    assert FIELDS[0] == Calls && FIELDS[1] == InputTokens && FIELDS[2] == OutputTokens && FIELDS[3] == ActiveJobs;
    assert FIELDS[4] == WallSeconds && FIELDS[5] == Iterations && FIELDS[6] == NewWorkItems && FIELDS[7] == CostAmount;
  }

  lemma ReserveAtBounded(rows: seq<Row>, at: Scope, limits: Limits, req: Request, sc: Scope, w: int, f: Field)
    requires ValidLimits(limits)
    ensures Charged(ReserveAt(rows, at, limits, req), sc, w, f)
            <= if at == sc then Max(Charged(rows, sc, w, f), Cap(limits, f)) else Charged(rows, sc, w, f)
  {
    if Admit(rows, at, limits, req).None? && Find(rows, at, req.action).None? {
      var window := WindowStart(req.now, limits.windowSeconds);
      EveryField(f);
      NothingExceeded(rows, at, window, req, limits, FIELDS, f);
      ChargedAppend(rows, NewRow(at, req, window), sc, w, f);
    }
  }

  lemma {:induction false} ReserveBounded(rows: seq<Row>, scopes: seq<Scope>, controls: map<Scope, Limits>, req: Request, sc: Scope, w: int, f: Field)
    requires forall x | x in scopes :: x in controls && ValidLimits(controls[x])
    ensures Charged(ReserveScopes(rows, scopes, controls, req).rows, sc, w, f)
            <= if sc in scopes then Max(Charged(rows, sc, w, f), Cap(controls[sc], f)) else Charged(rows, sc, w, f)
    decreases |scopes|
  {
    if scopes != [] {
      assert scopes[0] in scopes;
      ReserveAtBounded(rows, scopes[0], controls[scopes[0]], req, sc, w, f);
      ReserveBounded(ReserveAt(rows, scopes[0], controls[scopes[0]], req), scopes[1..], controls, req, sc, w, f);
      assert scopes == [scopes[0]] + scopes[1..];
    }
  }

  lemma ReserveStepBounded(s: State, id: nat, req: Request, caught: bool, sc: Scope, w: int, f: Field)
    requires Valid(s) && id in s.missions
    ensures Valid(ReserveTx(s, id, req, caught))
    ensures Charged(ReserveTx(s, id, req, caught).rows, sc, w, f)
            <= Max(Charged(s.rows, sc, w, f), CapNow(ReserveTx(s, id, req, caught), sc, f))
  {
    var m := s.missions[id];
    var c := EnsuredControls(s.controls, id, m);
    EnsuredValid(s.controls, id, m);
    ReserveBounded(s.rows, ScopeKeys(id, m), c, req, sc, w, f);
  }

  lemma ReleaseStepBounded(rows: seq<Row>, scopes: seq<Scope>, action: string, sc: Scope, w: int, f: Field)
    ensures Charged(ReleaseRows(rows, scopes, action), sc, w, f) <= Charged(rows, sc, w, f)
  {
    ChargedGrowth(rows, ReleaseRows(rows, scopes, action), sc, w, f);
    NoGrowth(rows, ReleaseRows(rows, scopes, action), sc, w, f);
  }

  /** One operation: the charge stays within the limit in force, or grows by the overrun. */
  lemma StepBounded(s: State, op: Op, sc: Scope, w: int, f: Field)
    requires Valid(s)
    ensures Valid(Step(s, op))
    ensures Charged(Step(s, op).rows, sc, w, f)
            <= Max(Charged(s.rows, sc, w, f), CapNow(Step(s, op), sc, f)) + StepOverrun(s, op, sc, w, f)
  {
    StepValid(s, op);
    if Enabled(s, op) {
      match op
      case Reserve(id, req, caught) => ReserveStepBounded(s, id, req, caught, sc, w, f);
      case Reconcile(id, action, actual, unknown) => ChargedGrowth(s.rows, Step(s, op).rows, sc, w, f);
      case Release(id, action) => ReleaseStepBounded(s.rows, ScopeKeys(id, s.missions[id]), action, sc, w, f);
      case _ =>
    }
  }

  // ------------------------------------------------------------------ whole runs

  /**
    In every reachable ledger, each scope, window and field is charged at most the largest
    limit the scope has had plus the accumulated overrun, however attempts were denied,
    caught half way, repeated, released or settled.
   */
  lemma {:induction false} ChargesAreBounded(s: State, ops: seq<Op>, sc: Scope, w: int, f: Field)
    requires Initial(s)
    ensures Charged(Run(s, ops).rows, sc, w, f) <= Peak(s, ops, sc, f) + Overrun(s, ops, sc, w, f)
  {
    if ops != [] {
      var n := |ops| - 1;
      ChargesAreBounded(s, ops[..n], sc, w, f);
      StepBounded(Run(s, ops[..n]), ops[n], sc, w, f);
    }
  }

  predicate LimitsFixed(ops: seq<Op>, sc: Scope) {
    forall op | op in ops :: op.SetLimits? ==> op.scope != sc
  }

  lemma ControlStays(s: State, op: Op, sc: Scope)
    requires Valid(s) && sc in s.controls && (op.SetLimits? ==> op.scope != sc)
    ensures sc in Step(s, op).controls && Step(s, op).controls[sc] == s.controls[sc]
  {
    if Enabled(s, op) {
      match op
      case CreateMission(id, row) => EnsuredValid(s.controls, id, row);
      case SetLimits(id, _, _) => EnsuredValid(s.controls, id, s.missions[id]);
      case Reserve(id, _, _) => EnsuredValid(s.controls, id, s.missions[id]);
      case _ =>
    }
  }

  lemma {:induction false} PeakOfFixedLimits(s: State, ops: seq<Op>, sc: Scope, f: Field)
    requires Initial(s) && LimitsFixed(ops, sc)
    ensures Peak(s, ops, sc, f) == CapNow(Run(s, ops), sc, f)
  {
    if ops != [] {
      var n := |ops| - 1;
      PeakOfFixedLimits(s, ops[..n], sc, f);
      var before := Run(s, ops[..n]);
      StepValid(before, ops[n]);
      if sc in before.controls {
        ControlStays(before, ops[n], sc);
      }
    }
  }

  /** With unchanged limits: charged at most the limit plus the overrun. */
  lemma ChargesWithinLimit(s: State, ops: seq<Op>, sc: Scope, w: int, f: Field)
    requires Initial(s) && LimitsFixed(ops, sc)
    ensures Charged(Run(s, ops).rows, sc, w, f) <= CapNow(Run(s, ops), sc, f) + Overrun(s, ops, sc, w, f)
  {
    ChargesAreBounded(s, ops, sc, w, f);
    PeakOfFixedLimits(s, ops, sc, f);
  }

  /** Settling a reserved row at or below its liability, or as unknown, overruns nothing. */
  lemma SettlingWithinLiability(s: State, op: Op, sc: Scope, w: int, f: Field)
    requires Valid(s) && op.Reconcile? && Enabled(s, op)
    requires forall r | r in s.rows && Addressed(r, ScopeKeys(op.id, s.missions[op.id]), op.action) ::
      || r.status in {Reconciled, Unknown}
      || (r.status == Reserved && (op.unknown || op.actual.None? || Value(op.actual.value, f) <= Value(r.liability, f)))
    ensures StepOverrun(s, op, sc, w, f) == 0
  {
    var t := Step(s, op);
    forall i | 0 <= i < |s.rows| ensures ChargeIn(t.rows[i], sc, w, f) <= ChargeIn(s.rows[i], sc, w, f) {
      assert s.rows[i] in s.rows;
    }
    NoGrowth(s.rows, t.rows, sc, w, f);
  }

  // ------------------------------------------------------------------ intervals one window long

  function SpanCharge(rows: seq<Row>, sc: Scope, from: int, to: int, f: Field): nat {
    if rows == [] then 0
    else
      var r := rows[|rows| - 1];
      SpanCharge(rows[..|rows| - 1], sc, from, to, f)
      + if r.scope == sc && from <= r.reservedAt < to then Value(Charge(r), f) else 0
  }

  /** Rows of this scope lie in the aligned window of the moment they were reserved. */
  predicate Aligned(rows: seq<Row>, sc: Scope, seconds: int)
    requires seconds > 0
  {
    forall r | r in rows && r.scope == sc :: r.window == WindowStart(r.reservedAt, seconds)
  }

  lemma {:induction false} MultipleAtLeast(d: int, seconds: int)
    requires d >= 1 && seconds > 0
    ensures d * seconds >= seconds && (-d) * seconds <= -seconds
  {
    if d > 1 {
      MultipleAtLeast(d - 1, seconds);
      assert (d - 1) * seconds + seconds == d * seconds;
    }
    assert (-d) * seconds == -(d * seconds);
  }

  lemma SmallMultiple(d: int, seconds: int)
    requires seconds > 0 && -seconds < d * seconds < seconds
    ensures d == 0
  {
    if d >= 1 {
      MultipleAtLeast(d, seconds);
    } else if d <= -1 {
      MultipleAtLeast(-d, seconds);
    }
  }

  lemma Quotient(n: int, seconds: int, k: int)
    requires seconds > 0 && k * seconds <= n < k * seconds + seconds
    ensures n % seconds == n - k * seconds
  {
    var q := n / seconds;
    assert n == q * seconds + n % seconds;
    assert (q - k) * seconds == q * seconds - k * seconds;
    SmallMultiple(q - k, seconds);
  }

  /** A span one window long meets at most two aligned windows. */
  lemma TwoWindows(from: int, n: int, seconds: int)
    requires seconds > 0 && from <= n < from + seconds
    ensures WindowStart(n, seconds) in {WindowStart(from, seconds), WindowStart(from, seconds) + seconds}
  {
    var k := from / seconds;
    assert from == k * seconds + from % seconds;
    assert WindowStart(from, seconds) == k * seconds;
    assert (k + 1) * seconds == k * seconds + seconds && (k + 2) * seconds == k * seconds + 2 * seconds;
    if n < (k + 1) * seconds {
      Quotient(n, seconds, k);
    } else {
      Quotient(n, seconds, k + 1);
    }
  }

  lemma {:induction false} SpanSplits(rows: seq<Row>, sc: Scope, from: int, to: int, w: int, v: int, f: Field)
    requires forall r | r in rows && r.scope == sc && from <= r.reservedAt < to :: r.window == w || r.window == v
    ensures SpanCharge(rows, sc, from, to, f) <= Charged(rows, sc, w, f) + Charged(rows, sc, v, f)
  {
    if rows != [] {
      var r := rows[|rows| - 1];
      assert r in rows;
      SpanSplits(rows[..|rows| - 1], sc, from, to, w, v, f);
    }
  }

  lemma SpanWithinTwoWindows(rows: seq<Row>, sc: Scope, from: int, seconds: int, f: Field)
    requires seconds > 0 && Aligned(rows, sc, seconds)
    ensures var w := WindowStart(from, seconds);
      SpanCharge(rows, sc, from, from + seconds, f) <= Charged(rows, sc, w, f) + Charged(rows, sc, w + seconds, f)
  {
    var w := WindowStart(from, seconds);
    forall r | r in rows && r.scope == sc && from <= r.reservedAt < from + seconds
      ensures r.window == w || r.window == w + seconds
    {
      TwoWindows(from, r.reservedAt, seconds);
    }
    SpanSplits(rows, sc, from, from + seconds, w, w + seconds, f);
  }

  lemma {:induction false} ReserveAligned(rows: seq<Row>, scopes: seq<Scope>, controls: map<Scope, Limits>, req: Request, sc: Scope, seconds: int)
    requires forall x | x in scopes :: x in controls && ValidLimits(controls[x])
    requires seconds > 0 && Aligned(rows, sc, seconds) && (sc in scopes ==> controls[sc].windowSeconds == seconds)
    ensures Aligned(ReserveScopes(rows, scopes, controls, req).rows, sc, seconds)
    decreases |scopes|
  {
    if scopes != [] {
      assert scopes[0] in scopes && scopes == [scopes[0]] + scopes[1..];
      ReserveAligned(ReserveAt(rows, scopes[0], controls[scopes[0]], req), scopes[1..], controls, req, sc, seconds);
    }
  }

  /** The scope is unknown and empty, or keeps this window length and aligned rows. */
  predicate Windowed(s: State, sc: Scope, seconds: int)
    requires seconds > 0
  {
    && Aligned(s.rows, sc, seconds)
    && (if sc in s.controls then s.controls[sc].windowSeconds == seconds else forall r | r in s.rows :: r.scope != sc)
  }

  lemma StepWindowed(s: State, op: Op, sc: Scope, seconds: int)
    requires Valid(s) && seconds > 0 && Windowed(s, sc, seconds)
    requires (op.SetLimits? ==> op.scope != sc)
    requires sc in Step(s, op).controls ==> Step(s, op).controls[sc].windowSeconds == seconds
    ensures Windowed(Step(s, op), sc, seconds)
  {
    if Enabled(s, op) {
      match op
      case Reserve(id, req, caught) =>
        var m := s.missions[id];
        EnsuredValid(s.controls, id, m);
        var c := EnsuredControls(s.controls, id, m);
        if Attempted(s, id, req).denial.None? || caught {
          if sc in c {
            ReserveAligned(s.rows, ScopeKeys(id, m), c, req, sc, seconds);
          } else {
            ReserveElsewhere(s.rows, ScopeKeys(id, m), c, req, sc);
          }
        }
      case Reconcile(id, action, actual, unknown) => SettleWindows(s.rows, Step(s, op).rows, sc, seconds);
      case Release(id, action) => SettleWindows(s.rows, Step(s, op).rows, sc, seconds);
      case CreateMission(id, row) => EnsuredValid(s.controls, id, row);
      case SetLimits(id, _, _) => EnsuredValid(s.controls, id, s.missions[id]);
      case _ =>
    }
  }

  lemma {:induction false} ReserveElsewhere(rows: seq<Row>, scopes: seq<Scope>, controls: map<Scope, Limits>, req: Request, sc: Scope)
    requires forall x | x in scopes :: x in controls && ValidLimits(controls[x])
    requires sc !in scopes && forall r | r in rows :: r.scope != sc
    ensures forall r | r in ReserveScopes(rows, scopes, controls, req).rows :: r.scope != sc
    decreases |scopes|
  {
    if scopes != [] {
      assert scopes[0] in scopes && scopes == [scopes[0]] + scopes[1..];
      ReserveElsewhere(ReserveAt(rows, scopes[0], controls[scopes[0]], req), scopes[1..], controls, req, sc);
    }
  }

  lemma SettleWindows(before: seq<Row>, after: seq<Row>, sc: Scope, seconds: int)
    requires |before| == |after|
    requires forall i | 0 <= i < |before| :: after[i].scope == before[i].scope
               && after[i].window == before[i].window && after[i].reservedAt == before[i].reservedAt
    ensures seconds > 0 && Aligned(before, sc, seconds) ==> Aligned(after, sc, seconds)
    ensures (forall r | r in before :: r.scope != sc) ==> forall r | r in after :: r.scope != sc
  {
    forall r | r in after ensures exists b :: b in before && r.scope == b.scope && r.window == b.window && r.reservedAt == b.reservedAt {
      var i :| 0 <= i < |after| && after[i] == r;
      assert before[i] in before;
    }
  }

  lemma {:induction false} RunsAreWindowed(s: State, ops: seq<Op>, sc: Scope)
    requires Initial(s) && LimitsFixed(ops, sc) && sc in Run(s, ops).controls
    ensures Windowed(Run(s, ops), sc, Run(s, ops).controls[sc].windowSeconds)
  {
    if ops != [] {
      var n := |ops| - 1;
      var before, t := Run(s, ops[..n]), Run(s, ops);
      StepValid(before, ops[n]);
      var seconds := t.controls[sc].windowSeconds;
      if sc in before.controls {
        ControlStays(before, ops[n], sc);
        RunsAreWindowed(s, ops[..n], sc);
      } else {
        UnknownScopeIsEmpty(s, ops[..n], sc);
      }
      StepWindowed(before, ops[n], sc, seconds);
    }
  }

  lemma {:induction false} UnknownScopeIsEmpty(s: State, ops: seq<Op>, sc: Scope)
    requires Initial(s) && sc !in Run(s, ops).controls
    ensures forall r | r in Run(s, ops).rows :: r.scope != sc
  {
    if ops != [] {
      var n := |ops| - 1;
      var before := Run(s, ops[..n]);
      StepValid(before, ops[n]);
      StaysUnknown(before, ops[n], sc);
      UnknownScopeIsEmpty(s, ops[..n], sc);
      StepWindowed(before, if ops[n].SetLimits? then Release(0, "") else ops[n], sc, 60);
    }
  }

  lemma StaysUnknown(s: State, op: Op, sc: Scope)
    requires Valid(s) && sc !in Step(s, op).controls
    ensures sc !in s.controls
  {
    if Enabled(s, op) {
      match op
      case CreateMission(id, row) => EnsuredValid(s.controls, id, row);
      case SetLimits(id, _, _) => EnsuredValid(s.controls, id, s.missions[id]);
      case Reserve(id, _, _) => EnsuredValid(s.controls, id, s.missions[id]);
      case _ =>
    }
  }

  lemma TwoWindowsBounded(s: State, ops: seq<Op>, sc: Scope, w: int, v: int, f: Field)
    requires Initial(s) && LimitsFixed(ops, sc) && sc in Run(s, ops).controls
    ensures Charged(Run(s, ops).rows, sc, w, f) + Charged(Run(s, ops).rows, sc, v, f)
            <= 2 * Cap(Run(s, ops).controls[sc], f) + Overrun(s, ops, sc, w, f) + Overrun(s, ops, sc, v, f)
  {
    ChargesWithinLimit(s, ops, sc, w, f);
    ChargesWithinLimit(s, ops, sc, v, f);
  }

  /**
    Rows reserved in any interval one window long, aligned or not, are charged at most
    twice the limit, plus what the two windows it meets were overrun.
   */
  lemma AnyWindowTwiceTheLimit(s: State, ops: seq<Op>, sc: Scope, from: int, seconds: int, f: Field)
    requires Initial(s) && LimitsFixed(ops, sc)
    requires sc in Run(s, ops).controls && Run(s, ops).controls[sc].windowSeconds == seconds
    ensures seconds > 0
    ensures SpanCharge(Run(s, ops).rows, sc, from, from + seconds, f)
            <= 2 * Cap(Run(s, ops).controls[sc], f)
               + Overrun(s, ops, sc, WindowStart(from, seconds), f)
               + Overrun(s, ops, sc, WindowStart(from, seconds) + seconds, f)
  {
    RunsAreWindowed(s, ops, sc);
    SpanWithinTwoWindows(Run(s, ops).rows, sc, from, seconds, f);
    TwoWindowsBounded(s, ops, sc, WindowStart(from, seconds), WindowStart(from, seconds) + seconds, f);
  }
}
