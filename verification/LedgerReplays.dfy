/** Repeated reservations, re-used rows, and rows left behind by a team revision. */
module LedgerReplays {
  import opened Wrappers
  import opened Ledger
  import LedgerBounds
  import opened LedgerLaws

  predicate SameAsk(a: Request, b: Request) {
    a.action == b.action && a.liability == b.liability && a.currency == b.currency && a.priceUnit == b.priceUnit
  }

  /** This scope has the row of exactly this request. */
  predicate HeldAt(s: State, sc: Scope, req: Request) {
    && sc in s.controls && s.controls[sc].currency == req.currency
    && Find(s.rows, sc, req.action).Some?
    && SameRequest(s.rows[Find(s.rows, sc, req.action).value], req)
  }

  /** The mission holds a reservation for this request at all its scopes. */
  predicate Held(s: State, id: nat, req: Request) {
    id in s.missions && forall sc | sc in ScopeKeys(id, s.missions[id]) :: HeldAt(s, sc, req)
  }

  lemma ScopesDistinct(id: nat, m: MissionRow)
    ensures Distinct(ScopeKeys(id, m))
  {
  }

  lemma {:induction false} MissingFound(rows: seq<Row>, scopes: seq<Scope>, controls: map<Scope, Limits>, req: Request, sc: Scope)
    requires Known(scopes, controls) && sc in scopes && Find(rows, sc, req.action).None?
    ensures NewRow(sc, req, WindowStart(req.now, controls[sc].windowSeconds)) in Missing(rows, scopes, controls, req)
  {
    if sc != scopes[0] {
      MissingFound(rows, scopes[1..], controls, req, sc);
    }
  }

  /** The row that an admitted scope ends up with: the one it had, or a new one. */
  lemma AdmittedRow(rows: seq<Row>, scopes: seq<Scope>, controls: map<Scope, Limits>, req: Request, sc: Scope) returns (i: nat)
    requires Known(scopes, controls) && Distinct(scopes) && sc in scopes
    requires ReserveScopes(rows, scopes, controls, req).denial.None?
    ensures Admit(rows, sc, controls[sc], req).None?
    ensures var after := ReserveScopes(rows, scopes, controls, req).rows;
      && i < |after|
      && (Find(rows, sc, req.action).Some? ==> i == Find(rows, sc, req.action).value && after[i] == rows[i])
      && (Find(rows, sc, req.action).None? ==> after[i] == NewRow(sc, req, WindowStart(req.now, controls[sc].windowSeconds)))
  {
    AttemptInClosedForm(rows, scopes, controls, req);
    assert scopes[..Passed(rows, scopes, controls, req)] == scopes;
    if Find(rows, sc, req.action).Some? {
      i := Find(rows, sc, req.action).value;
    } else {
      MissingFound(rows, scopes, controls, req, sc);
      var row := NewRow(sc, req, WindowStart(req.now, controls[sc].windowSeconds));
      assert row in ReserveScopes(rows, scopes, controls, req).rows;
      i :| i < |ReserveScopes(rows, scopes, controls, req).rows| && ReserveScopes(rows, scopes, controls, req).rows[i] == row;
    }
  }

  lemma AdmittedIsHeld(s: State, id: nat, req: Request, sc: Scope)
    requires Valid(s) && Unique(s.rows) && id in s.missions && sc in ScopeKeys(id, s.missions[id])
    requires Attempted(s, id, req).denial.None?
    ensures var t := ReserveTx(s, id, req, false);
      && HeldAt(t, sc, req) && s.rows <= t.rows && Unique(t.rows)
      && (Find(s.rows, sc, req.action).Some? ==> Find(t.rows, sc, req.action) == Find(s.rows, sc, req.action))
      && (Find(s.rows, sc, req.action).None? ==> t.rows[Find(t.rows, sc, req.action).value].status == Reserved)
  {
    var scopes := ScopeKeys(id, s.missions[id]);
    var controls := EnsuredControls(s.controls, id, s.missions[id]);
    EnsuredValid(s.controls, id, s.missions[id]);
    ScopesDistinct(id, s.missions[id]);
    AttemptAppends(s, id, req);
    ReserveUnique(s.rows, scopes, controls, req);
    var i := AdmittedRow(s.rows, scopes, controls, req, sc);
    UniqueFind(Attempted(s, id, req).rows, i);
  }

  lemma {:induction false} HeldWalk(rows: seq<Row>, scopes: seq<Scope>, controls: map<Scope, Limits>, req: Request)
    requires Known(scopes, controls)
    requires forall sc | sc in scopes :: HeldAt(State(rows, controls, map[]), sc, req)
    ensures ReserveScopes(rows, scopes, controls, req) == Attempt(rows, None)
    decreases |scopes|
  {
    if scopes != [] {
      assert scopes[0] in scopes;
      HeldWalk(rows, scopes[1..], controls, req);
    }
  }

  /** What is held already is neither charged again nor refused. */
  lemma HeldReplay(s: State, id: nat, req: Request, repeat: Request, caught: bool)
    requires Valid(s) && Held(s, id, req) && SameAsk(req, repeat)
    ensures Attempted(s, id, repeat).denial.None? && ReserveTx(s, id, repeat, caught).rows == s.rows
  {
    var scopes := ScopeKeys(id, s.missions[id]);
    var controls := EnsuredControls(s.controls, id, s.missions[id]);
    EnsuredValid(s.controls, id, s.missions[id]);
    forall sc | sc in scopes ensures HeldAt(State(s.rows, controls, map[]), sc, repeat) {
      assert HeldAt(s, sc, req);
    }
    HeldWalk(s.rows, scopes, controls, repeat);
  }

  /** An operation that keeps the mission's team and its scopes' limits. */
  predicate Quiet(op: Op, id: nat, m: MissionRow) {
    && (op.ReviseTeam? ==> op.id != id)
    && (op.SetLimits? ==> op.scope !in ScopeKeys(id, m))
  }

  lemma HeldAtStays(s: State, op: Op, id: nat, sc: Scope, req: Request)
    requires Valid(s) && Unique(s.rows) && HeldAt(s, sc, req) && (op.SetLimits? ==> op.scope != sc)
    ensures HeldAt(Step(s, op), sc, req)
  {
    StepExtends(s, op);
    StepUnique(s, op);
    var i := Find(s.rows, sc, req.action).value;
    assert Becomes(s.rows[i], Step(s, op).rows[i]);
    UniqueFind(Step(s, op).rows, i);
    LedgerBounds.ControlStays(s, op, sc);
  }

  lemma TeamKept(s: State, op: Op, id: nat)
    requires Valid(s) && id in s.missions && (op.ReviseTeam? ==> op.id != id)
    ensures id in Step(s, op).missions && Step(s, op).missions[id].team == s.missions[id].team
  {
  }

  lemma {:induction false} HeldForTheRun(s: State, ops: seq<Op>, id: nat, req: Request)
    requires Valid(s) && Unique(s.rows) && Held(s, id, req)
    requires forall op | op in ops :: Quiet(op, id, s.missions[id])
    ensures Held(Run(s, ops), id, req) && Unique(Run(s, ops).rows)
    ensures Run(s, ops).missions[id].team == s.missions[id].team
  {
    if ops != [] {
      var n := |ops| - 1;
      HeldForTheRun(s, ops[..n], id, req);
      var before, op := Run(s, ops[..n]), ops[n];
      assert op in ops && ScopeKeys(id, before.missions[id]) == ScopeKeys(id, s.missions[id]);
      StepUnique(before, op);
      TeamKept(before, op, id);
      forall sc | sc in ScopeKeys(id, before.missions[id]) ensures HeldAt(Step(before, op), sc, req) {
        HeldAtStays(before, op, id, sc, req);
      }
    }
  }

  /**
    An admitted request may be repeated after any run that leaves the mission's team and
    limits alone, at any later time and whatever became of its rows: it is admitted again
    and no row is added or changed.
   */
  lemma RepeatIsFree(s: State, id: nat, req: Request, caught: bool, ops: seq<Op>, repeat: Request, caughtAgain: bool)
    requires Valid(s) && Unique(s.rows) && id in s.missions
    requires Attempted(s, id, req).denial.None? && SameAsk(req, repeat)
    requires forall op | op in ops :: Quiet(op, id, s.missions[id])
    ensures Valid(ReserveTx(s, id, req, caught))
    ensures var t := Run(ReserveTx(s, id, req, caught), ops);
      id in t.missions && Attempted(t, id, repeat).denial.None? && ReserveTx(t, id, repeat, caughtAgain).rows == t.rows
  {
    var after := ReserveTx(s, id, req, caught);
    StepValid(s, Reserve(id, req, caught));
    forall sc | sc in ScopeKeys(id, s.missions[id]) ensures HeldAt(after, sc, req) && Unique(after.rows) {
      AdmittedIsHeld(s, id, req, sc);
    }
    assert Global in ScopeKeys(id, s.missions[id]);
    HeldForTheRun(after, ops, id, req);
    HeldReplay(Run(after, ops), id, req, repeat, caughtAgain);
  }

  // ------------------------------------------------------------------ what an admitted request is charged

  /** The row of the action at this scope is charged this much. */
  function ActionCharge(rows: seq<Row>, sc: Scope, action: string, f: Field): nat {
    var found := Find(rows, sc, action);
    if found.Some? then Value(Charge(rows[found.value]), f) else 0
  }

  /**
    An admitted request is charged its whole liability at a scope exactly when no row was
    there, or the row there was still open, or it was settled for the same amounts. A row
    released before is taken as it is, so the request goes uncharged.
   */
  lemma AdmittedIsChargedExactly(s: State, id: nat, req: Request, caught: bool, sc: Scope)
    requires Valid(s) && Unique(s.rows) && id in s.missions && sc in ScopeKeys(id, s.missions[id])
    requires Attempted(s, id, req).denial.None? && exists f: Field :: Value(req.liability, f) > 0
    ensures var found := Find(s.rows, sc, req.action);
      (forall f: Field :: ActionCharge(ReserveTx(s, id, req, caught).rows, sc, req.action, f) == Value(req.liability, f))
      <==> (found.None?
            || s.rows[found.value].status in {Reserved, Unknown}
            || (s.rows[found.value].status == Reconciled && s.rows[found.value].actual.Some?
                && forall f: Field :: Value(s.rows[found.value].actual.value, f) == Value(req.liability, f)))
  {
    AdmittedIsHeld(s, id, req, sc);
    var found := Find(s.rows, sc, req.action);
    var t := ReserveTx(s, id, req, caught);
    assert t == ReserveTx(s, id, req, false);
    var positive: Field :| Value(req.liability, positive) > 0;
    if found.Some? {
      var r := s.rows[found.value];
      assert t.rows[found.value] == r;
      if r.status == Released || (r.status == Reconciled && r.actual.None?) {
        assert ActionCharge(t.rows, sc, req.action, positive) == 0;
      } else if r.status == Reconciled {
        assert forall f: Field :: ActionCharge(t.rows, sc, req.action, f) == Value(r.actual.value, f);
      }
    }
  }

  // ------------------------------------------------------------------ rows of a team no mission has

  predicate Deserted(s: State, team: nat) {
    forall id | id in s.missions :: s.missions[id].team != team
  }

  predicate NeverTakes(op: Op, team: nat) {
    && (op.CreateMission? ==> op.row.team != team)
    && (op.ReviseTeam? ==> op.team != team)
  }

  lemma DesertedStep(s: State, op: Op, team: nat, i: nat)
    requires Valid(s) && Deserted(s, team) && NeverTakes(op, team)
    requires i < |s.rows| && s.rows[i].scope == TeamScope(team)
    ensures Deserted(Step(s, op), team)
    ensures i < |Step(s, op).rows| && Step(s, op).rows[i] == s.rows[i]
  {
    if Enabled(s, op) && op.Reserve? {
      AttemptAppends(s, op.id, op.request);
    }
  }

  /**
    Once no mission has the team, nothing settles or releases its rows: they are charged
    the same in their window for good.
   */
  lemma {:induction false} DesertedTeamIsStranded(s: State, ops: seq<Op>, team: nat, i: nat)
    requires Valid(s) && Deserted(s, team) && (forall op | op in ops :: NeverTakes(op, team))
    requires i < |s.rows| && s.rows[i].scope == TeamScope(team)
    ensures Deserted(Run(s, ops), team) && i < |Run(s, ops).rows| && Run(s, ops).rows[i] == s.rows[i]
  {
    if ops != [] {
      var n := |ops| - 1;
      DesertedTeamIsStranded(s, ops[..n], team, i);
      DesertedStep(Run(s, ops[..n]), ops[n], team, i);
    }
  }

  /**
    A settlement reaches a row exactly when its scope is one of the mission's present
    scopes; after a team revision the row reserved for the old team stays reserved.
   */
  lemma SettlementReachesExactly(s: State, id: nat, team: nat, action: string, actual: Amounts, i: nat)
    requires Valid(s) && id in s.missions && i < |s.rows|
    requires s.rows[i].action == action && s.rows[i].status == Reserved
    requires s.rows[i].scope in ScopeKeys(id, s.missions[id])
    ensures var t := Step(Step(s, ReviseTeam(id, team)), Reconcile(id, action, Some(actual), false));
      && i < |t.rows|
      && (t.rows[i].status == Reconciled <==> (s.rows[i].scope.TeamScope? ==> team == s.missions[id].team))
      && (t.rows[i].status != Reconciled ==> t.rows[i] == s.rows[i])
  {
  }
}
