/** What one attempt does exactly, what repeats do, and what a row can become. */
module LedgerLaws {
  import opened Wrappers
  import opened Ledger

  // ------------------------------------------------------------------ one attempt, in closed form

  ghost predicate Distinct(scopes: seq<Scope>) {
    forall i, j | 0 <= i < j < |scopes| :: scopes[i] != scopes[j]
  }

  predicate Known(scopes: seq<Scope>, controls: map<Scope, Limits>) {
    forall sc | sc in scopes :: sc in controls && ValidLimits(controls[sc])
  }

  /** How many scopes admit the request, judged on the rows before the attempt. */
  function Passed(rows: seq<Row>, scopes: seq<Scope>, controls: map<Scope, Limits>, req: Request): (n: nat)
    requires Known(scopes, controls)
    ensures n <= |scopes|
    ensures forall i | 0 <= i < n :: Admit(rows, scopes[i], controls[scopes[i]], req).None?
    ensures n < |scopes| ==> Admit(rows, scopes[n], controls[scopes[n]], req).Some?
  {
    if scopes == [] then 0
    else
      assert scopes[0] in scopes;
      if Admit(rows, scopes[0], controls[scopes[0]], req).Some? then 0
      else 1 + Passed(rows, scopes[1..], controls, req)
  }

  /** One new row for each of these scopes that has none yet. */
  function Missing(rows: seq<Row>, scopes: seq<Scope>, controls: map<Scope, Limits>, req: Request): seq<Row>
    requires Known(scopes, controls)
  {
    if scopes == [] then []
    else
      assert scopes[0] in scopes;
      (if Find(rows, scopes[0], req.action).None?
       then [NewRow(scopes[0], req, WindowStart(req.now, controls[scopes[0]].windowSeconds))] else [])
      + Missing(rows, scopes[1..], controls, req)
  }

  lemma FindElsewhere(rows: seq<Row>, r: Row, sc: Scope, action: string)
    requires r.scope != sc
    ensures Find(rows + [r], sc, action) == Find(rows, sc, action)
  {
    assert (rows + [r])[..|rows|] == rows;
  }

  lemma ChargedElsewhere(rows: seq<Row>, r: Row, sc: Scope, w: int, f: Field)
    requires r.scope != sc
    ensures Charged(rows + [r], sc, w, f) == Charged(rows, sc, w, f)
  {
    assert (rows + [r])[..|rows|] == rows;
  }

  lemma {:induction false} FirstExceededElsewhere(rows: seq<Row>, r: Row, sc: Scope, w: int, req: Request, limits: Limits, fields: seq<Field>)
    requires r.scope != sc && ValidLimits(limits)
    ensures FirstExceeded(rows + [r], sc, w, req, limits, fields) == FirstExceeded(rows, sc, w, req, limits, fields)
  {
    if fields != [] {
      ChargedElsewhere(rows, r, sc, w, fields[0]);
      FirstExceededElsewhere(rows, r, sc, w, req, limits, fields[1..]);
    }
  }

  /** A row of one scope does not bear on the verdict at another. */
  lemma AdmitElsewhere(rows: seq<Row>, r: Row, sc: Scope, limits: Limits, req: Request)
    requires r.scope != sc && ValidLimits(limits)
    ensures Admit(rows + [r], sc, limits, req) == Admit(rows, sc, limits, req)
  {
    FindElsewhere(rows, r, sc, req.action);
    FirstExceededElsewhere(rows, r, sc, WindowStart(req.now, limits.windowSeconds), req, limits, FIELDS);
    assert forall q | q in rows + [r] && q.scope == sc :: q in rows;
    assert forall q | q in rows :: q in rows + [r];
  }

  lemma {:induction false} PassedElsewhere(rows: seq<Row>, r: Row, scopes: seq<Scope>, controls: map<Scope, Limits>, req: Request)
    requires r.scope !in scopes && Known(scopes, controls)
    ensures Passed(rows + [r], scopes, controls, req) == Passed(rows, scopes, controls, req)
  {
    if scopes != [] {
      assert scopes[0] in scopes;
      AdmitElsewhere(rows, r, scopes[0], controls[scopes[0]], req);
      PassedElsewhere(rows, r, scopes[1..], controls, req);
    }
  }

  lemma {:induction false} MissingElsewhere(rows: seq<Row>, r: Row, scopes: seq<Scope>, controls: map<Scope, Limits>, req: Request)
    requires r.scope !in scopes && Known(scopes, controls)
    ensures Missing(rows + [r], scopes, controls, req) == Missing(rows, scopes, controls, req)
  {
    if scopes != [] {
      assert scopes[0] in scopes;
      FindElsewhere(rows, r, scopes[0], req.action);
      MissingElsewhere(rows, r, scopes[1..], controls, req);
    }
  }

  lemma MissingCons(rows: seq<Row>, sc: Scope, rest: seq<Scope>, controls: map<Scope, Limits>, req: Request)
    requires Known([sc] + rest, controls) && Known(rest, controls) && Known([sc], controls)
    ensures Missing(rows, [sc] + rest, controls, req) == Missing(rows, [sc], controls, req) + Missing(rows, rest, controls, req)
  {
    assert ([sc] + rest)[1..] == rest && [sc][1..] == [] && Missing(rows, [], controls, req) == [];
  }

  lemma PassedCons(rows: seq<Row>, sc: Scope, rest: seq<Scope>, controls: map<Scope, Limits>, req: Request)
    requires Known([sc] + rest, controls) && Known(rest, controls) && sc in controls && ValidLimits(controls[sc])
    requires Admit(rows, sc, controls[sc], req).None?
    ensures Passed(rows, [sc] + rest, controls, req) == 1 + Passed(rows, rest, controls, req)
  {
    assert ([sc] + rest)[1..] == rest;
  }

  lemma AddedHere(rows: seq<Row>, sc: Scope, controls: map<Scope, Limits>, req: Request)
    requires Known([sc], controls) && sc in controls && ValidLimits(controls[sc])
    requires Admit(rows, sc, controls[sc], req).None?
    ensures ReserveAt(rows, sc, controls[sc], req) == rows + Missing(rows, [sc], controls, req)
  {
    assert [sc][1..] == [] && Missing(rows, [], controls, req) == [];
  }

  /** Adding the first scope's row, if it has none, does not change what the rest decides. */
  lemma RestUnmoved(rows: seq<Row>, sc: Scope, rest: seq<Scope>, controls: map<Scope, Limits>, req: Request)
    requires Known([sc] + rest, controls) && Known(rest, controls) && sc !in rest && sc in controls && ValidLimits(controls[sc])
    ensures var next := ReserveAt(rows, sc, controls[sc], req);
      && Passed(next, rest, controls, req) == Passed(rows, rest, controls, req)
      && (forall k | 0 <= k <= |rest| :: Missing(next, rest[..k], controls, req) == Missing(rows, rest[..k], controls, req))
      && (forall k | 0 <= k < |rest| ::
            Admit(next, rest[k], controls[rest[k]], req) == Admit(rows, rest[k], controls[rest[k]], req))
  {
    var row := NewRow(sc, req, WindowStart(req.now, controls[sc].windowSeconds));
    PassedElsewhere(rows, row, rest, controls, req);
    forall k | 0 <= k <= |rest|
      ensures Missing(rows + [row], rest[..k], controls, req) == Missing(rows, rest[..k], controls, req)
    {
      MissingElsewhere(rows, row, rest[..k], controls, req);
    }
    forall k | 0 <= k < |rest|
      ensures Admit(rows + [row], rest[k], controls[rest[k]], req) == Admit(rows, rest[k], controls[rest[k]], req)
    {
      assert rest[k] in rest;
      AdmitElsewhere(rows, row, rest[k], controls[rest[k]], req);
    }
  }

  predicate AddsMissing(rows: seq<Row>, scopes: seq<Scope>, controls: map<Scope, Limits>, req: Request, after: seq<Row>)
    requires Known(scopes, controls)
  {
    after == rows + Missing(rows, scopes[..Passed(rows, scopes, controls, req)], controls, req)
  }

  predicate DeniedByFirst(rows: seq<Row>, scopes: seq<Scope>, controls: map<Scope, Limits>, req: Request, denial: Option<Denial>)
    requires Known(scopes, controls)
  {
    var n := Passed(rows, scopes, controls, req);
    denial == if n < |scopes| then Admit(rows, scopes[n], controls[scopes[n]], req) else None
  }

  /** What separate verdicts on the rows before the attempt say it does. */
  predicate ClosedForm(rows: seq<Row>, scopes: seq<Scope>, controls: map<Scope, Limits>, req: Request, a: Attempt)
    requires Known(scopes, controls)
  {
    AddsMissing(rows, scopes, controls, req, a.rows) && DeniedByFirst(rows, scopes, controls, req, a.denial)
  }

  lemma FirstScopes(sc: Scope, rest: seq<Scope>, k: nat)
    requires k <= |rest|
    ensures ([sc] + rest)[..1 + k] == [sc] + rest[..k]
  {
  }

  lemma AppendTwice(a: seq<Row>, b: seq<Row>, c: seq<Row>)
    ensures (a + b) + c == a + (b + c)
  {
  }

  lemma RowsCompose(rows: seq<Row>, next: seq<Row>, sc: Scope, rest: seq<Scope>, k: nat, controls: map<Scope, Limits>, req: Request, after: seq<Row>)
    requires Known([sc] + rest, controls) && Known(rest, controls) && Known([sc], controls) && k <= |rest|
    requires next == rows + Missing(rows, [sc], controls, req)
    requires Passed(rows, [sc] + rest, controls, req) == 1 + k && Passed(next, rest, controls, req) == k
    requires Missing(next, rest[..k], controls, req) == Missing(rows, rest[..k], controls, req)
    requires AddsMissing(next, rest, controls, req, after)
    ensures AddsMissing(rows, [sc] + rest, controls, req, after)
  {
    FirstScopes(sc, rest, k);
    MissingCons(rows, sc, rest[..k], controls, req);
    AppendTwice(rows, Missing(rows, [sc], controls, req), Missing(rows, rest[..k], controls, req));
  }

  lemma DenialsCompose(rows: seq<Row>, next: seq<Row>, sc: Scope, rest: seq<Scope>, k: nat, controls: map<Scope, Limits>, req: Request, denial: Option<Denial>)
    requires Known([sc] + rest, controls) && Known(rest, controls) && k <= |rest|
    requires Passed(rows, [sc] + rest, controls, req) == 1 + k && Passed(next, rest, controls, req) == k
    requires k < |rest| ==> Admit(next, rest[k], controls[rest[k]], req) == Admit(rows, rest[k], controls[rest[k]], req)
    requires DeniedByFirst(next, rest, controls, req, denial)
    ensures DeniedByFirst(rows, [sc] + rest, controls, req, denial)
  {
  }

  lemma OneScopeMore(rows: seq<Row>, sc: Scope, rest: seq<Scope>, controls: map<Scope, Limits>, req: Request, a: Attempt)
    requires Known([sc] + rest, controls) && Known(rest, controls) && sc !in rest && sc in controls && ValidLimits(controls[sc])
    requires Admit(rows, sc, controls[sc], req).None?
    requires ClosedForm(ReserveAt(rows, sc, controls[sc], req), rest, controls, req, a)
    ensures ClosedForm(rows, [sc] + rest, controls, req, a)
  {
    RestUnmoved(rows, sc, rest, controls, req);
    PassedCons(rows, sc, rest, controls, req);
    AddedHere(rows, sc, controls, req);
    var k := Passed(rows, rest, controls, req);
    RowsCompose(rows, ReserveAt(rows, sc, controls[sc], req), sc, rest, k, controls, req, a.rows);
    DenialsCompose(rows, ReserveAt(rows, sc, controls[sc], req), sc, rest, k, controls, req, a.denial);
  }

  /**
    The walk over the scopes, which looks at rows it has just added, does what separate
    verdicts on the rows before it say: it is denied exactly when some scope denies, and
    adds exactly the missing rows of the scopes before the first that does.
   */
  lemma {:induction false} AttemptInClosedForm(rows: seq<Row>, scopes: seq<Scope>, controls: map<Scope, Limits>, req: Request)
    requires Known(scopes, controls) && Distinct(scopes)
    ensures ClosedForm(rows, scopes, controls, req, ReserveScopes(rows, scopes, controls, req))
    decreases |scopes|
  {
    if scopes != [] {
      var sc, rest := scopes[0], scopes[1..];
      assert sc in scopes && scopes == [sc] + rest;
      if Admit(rows, sc, controls[sc], req).None? {
        AttemptInClosedForm(ReserveAt(rows, sc, controls[sc], req), rest, controls, req);
        OneScopeMore(rows, sc, rest, controls, req, ReserveScopes(rows, scopes, controls, req));
      }
    }
  }

  lemma NoneMissing(rows: seq<Row>, sc: Scope, controls: map<Scope, Limits>, req: Request)
    requires Known([sc], controls)
    ensures Missing(rows, [sc], controls, req) == [] <==> Find(rows, sc, req.action).Some?
  {
    assert [sc][1..] == [] && Missing(rows, [], controls, req) == [];
  }

  lemma {:induction false} NothingMissing(rows: seq<Row>, scopes: seq<Scope>, controls: map<Scope, Limits>, req: Request)
    requires Known(scopes, controls)
    ensures |Missing(rows, scopes, controls, req)| == 0 <==> forall sc | sc in scopes :: Find(rows, sc, req.action).Some?
  {
    if scopes != [] {
      var sc, rest := scopes[0], scopes[1..];
      assert scopes == [sc] + rest && sc in scopes;
      assert forall x | x in rest :: x in scopes;
      NothingMissing(rows, rest, controls, req);
      NoneMissing(rows, sc, controls, req);
      MissingCons(rows, sc, rest, controls, req);
      assert forall x :: x in scopes <==> x == sc || x in rest;
    }
  }

  /**
    A denial caught inside the transaction adds no row exactly when every scope before the
    denying one already had its row; otherwise those rows are committed and charged
    although the attempt failed. It leaves the whole ledger as it was exactly if, besides,
    no control was missing.
   */
  lemma CaughtDenialIsCleanExactly(s: State, id: nat, req: Request)
    requires Valid(s) && id in s.missions && Attempted(s, id, req).denial.Some?
    ensures var scopes := ScopeKeys(id, s.missions[id]);
      var controls := EnsuredControls(s.controls, id, s.missions[id]);
      && Known(scopes, controls)
      && (ReserveTx(s, id, req, true).rows == s.rows
          <==> forall sc | sc in scopes[..Passed(s.rows, scopes, controls, req)] :: Find(s.rows, sc, req.action).Some?)
      && (ReserveTx(s, id, req, true) == s
          <==> ReserveTx(s, id, req, true).rows == s.rows && forall sc | sc in scopes :: sc in s.controls)
  {
    var scopes := ScopeKeys(id, s.missions[id]);
    var controls := EnsuredControls(s.controls, id, s.missions[id]);
    EnsuredValid(s.controls, id, s.missions[id]);
    var n := Passed(s.rows, scopes, controls, req);
    AttemptInClosedForm(s.rows, scopes, controls, req);
    NothingMissing(s.rows, scopes[..n], controls, req);
    assert |s.rows + Missing(s.rows, scopes[..n], controls, req)| == |s.rows| <==> |Missing(s.rows, scopes[..n], controls, req)| == 0;
    assert |Missing(s.rows, scopes[..n], controls, req)| == 0 ==> s.rows + Missing(s.rows, scopes[..n], controls, req) == s.rows;
    NothingInserted(s.controls, id, s.missions[id]);
  }

  lemma NothingInserted(controls: map<Scope, Limits>, id: nat, m: MissionRow)
    ensures EnsuredControls(controls, id, m) == controls <==> forall sc | sc in ScopeKeys(id, m) :: sc in controls
  {
    assert forall sc | sc in ScopeKeys(id, m) :: sc in EnsuredControls(controls, id, m);
  }

  // ------------------------------------------------------------------ the life of a row

  predicate SameRow(a: Row, b: Row) {
    && a.scope == b.scope && a.action == b.action && a.liability == b.liability && a.currency == b.currency
    && a.priceUnit == b.priceUnit && a.window == b.window && a.reservedAt == b.reservedAt
  }

  /** A reserved row can go anywhere, a released one can still be settled, a settled one stays. */
  predicate Becomes(a: Row, b: Row) {
    && SameRow(a, b)
    && match a.status {
         case Reserved => true
         case Released => b.status != Reserved
         case _ => b == a
       }
  }

  predicate Extends(before: seq<Row>, after: seq<Row>) {
    |before| <= |after| && forall i | 0 <= i < |before| :: Becomes(before[i], after[i])
  }

  lemma {:induction false} ReserveAppends(rows: seq<Row>, scopes: seq<Scope>, controls: map<Scope, Limits>, req: Request)
    requires Known(scopes, controls)
    ensures rows <= ReserveScopes(rows, scopes, controls, req).rows
    ensures forall i | |rows| <= i < |ReserveScopes(rows, scopes, controls, req).rows| ::
              var r := ReserveScopes(rows, scopes, controls, req).rows[i];
              r.scope in scopes && r.action == req.action && r.status == Reserved && r.liability == req.liability
    decreases |scopes|
  {
    if scopes != [] {
      assert scopes[0] in scopes;
      ReserveAppends(ReserveAt(rows, scopes[0], controls[scopes[0]], req), scopes[1..], controls, req);
    }
  }

  lemma AttemptAppends(s: State, id: nat, req: Request)
    requires Valid(s) && id in s.missions
    ensures s.rows <= Attempted(s, id, req).rows
    ensures forall i | |s.rows| <= i < |Attempted(s, id, req).rows| ::
              var r := Attempted(s, id, req).rows[i];
              r.scope in ScopeKeys(id, s.missions[id]) && r.action == req.action && r.status == Reserved && r.liability == req.liability
  {
    EnsuredValid(s.controls, id, s.missions[id]);
    ReserveAppends(s.rows, ScopeKeys(id, s.missions[id]), EnsuredControls(s.controls, id, s.missions[id]), req);
  }

  lemma StepExtends(s: State, op: Op)
    requires Valid(s)
    ensures Extends(s.rows, Step(s, op).rows)
  {
    if Enabled(s, op) && op.Reserve? {
      AttemptAppends(s, op.id, op.request);
    }
  }

  lemma ExtendsTransitive(a: seq<Row>, b: seq<Row>, c: seq<Row>)
    requires Extends(a, b) && Extends(b, c)
    ensures Extends(a, c)
  {
    forall i | 0 <= i < |a| ensures Becomes(a[i], c[i]) {
      assert Becomes(a[i], b[i]) && Becomes(b[i], c[i]);
    }
  }

  /**
    Over every run no row disappears or is re-priced, and one that was reconciled or left
    unknown never changes again.
   */
  lemma {:induction false} RowsAreForever(s: State, ops: seq<Op>)
    requires Valid(s)
    ensures Extends(s.rows, Run(s, ops).rows)
  {
    if ops != [] {
      var n := |ops| - 1;
      RowsAreForever(s, ops[..n]);
      StepExtends(Run(s, ops[..n]), ops[n]);
      ExtendsTransitive(s.rows, Run(s, ops[..n]).rows, Run(s, ops).rows);
    }
  }

  /** A released row changes exactly when its action is reconciled at one of the mission's present scopes. */
  lemma ReleasedChangesExactly(s: State, op: Op, i: nat)
    requires Valid(s) && i < |s.rows| && s.rows[i].status == Released
    ensures i < |Step(s, op).rows|
    ensures Step(s, op).rows[i] != s.rows[i]
            <==> Enabled(s, op) && op.Reconcile? && Addressed(s.rows[i], ScopeKeys(op.id, s.missions[op.id]), op.action)
    ensures Step(s, op).rows[i] != s.rows[i] ==>
              Step(s, op).rows[i] == s.rows[i].(actual := op.actual, status := if op.unknown then Unknown else Reconciled)
  {
    StepExtends(s, op);
    if Enabled(s, op) && op.Reserve? {
      AttemptAppends(s, op.id, op.request);
    }
  }

  // ------------------------------------------------------------------ unique rows and the mirrored limits

  /** One row for each scope and action. */
  predicate Unique(rows: seq<Row>) {
    forall i, j | 0 <= i < j < |rows| :: rows[i].scope != rows[j].scope || rows[i].action != rows[j].action
  }

  /** Every mission's own limits are those its scope is held to. */
  predicate Mirrored(s: State) {
    && (forall id | id in s.missions :: MissionScope(id) in s.controls && s.controls[MissionScope(id)] == s.missions[id].limits)
    && (forall sc | sc in s.controls && sc.MissionScope? :: sc.mission in s.missions)
  }

  lemma {:induction false} ReserveUnique(rows: seq<Row>, scopes: seq<Scope>, controls: map<Scope, Limits>, req: Request)
    requires Known(scopes, controls) && Unique(rows)
    ensures Unique(ReserveScopes(rows, scopes, controls, req).rows)
    decreases |scopes|
  {
    if scopes != [] {
      assert scopes[0] in scopes;
      assert forall i | 0 <= i < |rows| :: rows[i] in rows;
      ReserveUnique(ReserveAt(rows, scopes[0], controls[scopes[0]], req), scopes[1..], controls, req);
    }
  }

  lemma StepUnique(s: State, op: Op)
    requires Valid(s) && Unique(s.rows)
    ensures Unique(Step(s, op).rows)
  {
    if Enabled(s, op) && op.Reserve? {
      EnsuredValid(s.controls, op.id, s.missions[op.id]);
      ReserveUnique(s.rows, ScopeKeys(op.id, s.missions[op.id]), EnsuredControls(s.controls, op.id, s.missions[op.id]), op.request);
    }
  }

  lemma EnsuredMirrored(s: State, id: nat, m: MissionRow)
    requires Mirrored(s) && (id in s.missions ==> s.missions[id] == m)
    ensures Mirrored(s.(controls := EnsuredControls(s.controls, id, m), missions := s.missions[id := m]))
  {
    var c := EnsuredControls(s.controls, id, m);
    assert forall k | k != id && MissionScope(k) in s.controls :: MissionScope(k) in c && c[MissionScope(k)] == s.controls[MissionScope(k)];
    assert c[MissionScope(id)] == m.limits;
    assert forall k | MissionScope(k) in c :: k == id || MissionScope(k) in s.controls;
  }

  lemma LimitsMirrored(s: State, id: nat, sc: Scope, limits: Limits)
    requires Mirrored(s) && id in s.missions && sc in ScopeKeys(id, s.missions[id])
    ensures Mirrored(SetLimitsTx(s, id, sc, limits))
  {
    var m := s.missions[id];
    EnsuredMirrored(s, id, m);
    assert s.missions[id := m] == s.missions;
    assert sc.MissionScope? ==> sc == MissionScope(id);
  }

  lemma StepMirrored(s: State, op: Op)
    requires Valid(s) && Mirrored(s)
    ensures Mirrored(Step(s, op))
  {
    if Enabled(s, op) {
      match op
      case CreateMission(id, row) => EnsuredMirrored(s, id, row);
      case SetLimits(id, sc, limits) => LimitsMirrored(s, id, sc, limits);
      case Reserve(id, req, caught) =>
        EnsuredMirrored(s, id, s.missions[id]);
        assert s.missions[id := s.missions[id]] == s.missions;
      case _ =>
    }
  }

  lemma {:induction false} ReachableLedgers(s: State, ops: seq<Op>)
    requires Initial(s)
    ensures Unique(Run(s, ops).rows) && Mirrored(Run(s, ops))
  {
    if ops != [] {
      var n := |ops| - 1;
      ReachableLedgers(s, ops[..n]);
      StepUnique(Run(s, ops[..n]), ops[n]);
      StepMirrored(Run(s, ops[..n]), ops[n]);
    }
  }

  lemma {:induction false} UniqueFind(rows: seq<Row>, i: nat)
    requires Unique(rows) && i < |rows|
    ensures Find(rows, rows[i].scope, rows[i].action) == Some(i)
  {
    if i < |rows| - 1 {
      UniqueFind(rows[..|rows| - 1], i);
    }
  }
}
