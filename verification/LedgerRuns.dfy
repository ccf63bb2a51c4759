/** Runs from the empty ledger that reach what the laws allow. */
module LedgerRuns {
  import opened Wrappers
  import opened Ledger
  import opened LedgerLaws
  import LedgerBounds
  import LedgerReplays

  lemma RunOneMore(s: State, ops: seq<Op>, op: Op)
    requires Valid(s)
    ensures Run(s, ops + [op]) == Step(Run(s, ops), op)
  {
    assert (ops + [op])[..|ops|] == ops;
  }

  lemma {:induction false} NoChargeYet(rows: seq<Row>, sc: Scope, w: int, f: Field)
    requires forall r | r in rows :: r.scope != sc
    ensures Charged(rows, sc, w, f) == 0
  {
    if rows != [] {
      assert rows[|rows| - 1] in rows;
      NoChargeYet(rows[..|rows| - 1], sc, w, f);
    }
  }

  lemma {:induction false} NoneOver(rows: seq<Row>, sc: Scope, w: int, req: Request, limits: Limits, fields: seq<Field>)
    requires ValidLimits(limits) && forall f: Field :: !Exceeds(rows, sc, w, req, limits, f)
    ensures FirstExceeded(rows, sc, w, req, limits, fields) == None
  {
    if fields != [] {
      NoneOver(rows, sc, w, req, limits, fields[1..]);
    }
  }

  lemma {:induction false} FirstOverIs(rows: seq<Row>, sc: Scope, w: int, req: Request, limits: Limits, fields: seq<Field>, k: nat)
    requires ValidLimits(limits) && k < |fields| && Exceeds(rows, sc, w, req, limits, fields[k])
    requires forall j | 0 <= j < k :: !Exceeds(rows, sc, w, req, limits, fields[j])
    ensures FirstExceeded(rows, sc, w, req, limits, fields) == Some(fields[k])
  {
    if k > 0 {
      FirstOverIs(rows, sc, w, req, limits, fields[1..], k - 1);
    }
  }

  predicate Fits(liability: Amounts, limits: Limits)
    requires ValidLimits(limits)
  {
    forall i | 0 <= i < |FIELDS| :: Value(liability, FIELDS[i]) <= Cap(limits, FIELDS[i])
  }

  /** An empty scope admits what fits its limits. */
  lemma EmptyScopeAdmits(sc: Scope, limits: Limits, req: Request)
    requires ValidLimits(limits) && limits.currency == req.currency && Fits(req.liability, limits)
    ensures Admit([], sc, limits, req) == None
  {
    var w := WindowStart(req.now, limits.windowSeconds);
    forall f: Field ensures !Exceeds([], sc, w, req, limits, f) {
      LedgerBounds.EveryField(f);
      NoChargeYet([], sc, w, f);
    }
    NoneOver([], sc, w, req, limits, FIELDS);
  }

  function ThreeRows(id: nat, m: MissionRow, controls: map<Scope, Limits>, req: Request): seq<Row>
    requires Known(ScopeKeys(id, m), controls)
  {
    var scopes := ScopeKeys(id, m);
    assert scopes[0] in scopes && scopes[1] in scopes && scopes[2] in scopes;
    [NewRow(scopes[0], req, WindowStart(req.now, controls[scopes[0]].windowSeconds)),
     NewRow(scopes[1], req, WindowStart(req.now, controls[scopes[1]].windowSeconds)),
     NewRow(scopes[2], req, WindowStart(req.now, controls[scopes[2]].windowSeconds))]
  }

  lemma MissingThree(id: nat, m: MissionRow, controls: map<Scope, Limits>, req: Request)
    requires Known(ScopeKeys(id, m), controls)
    ensures Missing([], ScopeKeys(id, m), controls, req) == ThreeRows(id, m, controls, req)
  {
    var scopes := ScopeKeys(id, m);
    assert scopes[0] in scopes && scopes[1] in scopes && scopes[2] in scopes;
    assert scopes == [scopes[0]] + scopes[1..] && scopes[1..] == [scopes[1]] + scopes[2..] && scopes[2..] == [scopes[2]];
    MissingCons([], scopes[0], scopes[1..], controls, req);
    MissingCons([], scopes[1], scopes[2..], controls, req);
    OneMissing(scopes[0], controls, req);
    OneMissing(scopes[1], controls, req);
    OneMissing(scopes[2], controls, req);
  }

  /** The first reservation of all adds one row at each scope. */
  lemma FirstReservation(id: nat, m: MissionRow, controls: map<Scope, Limits>, req: Request)
    requires Known(ScopeKeys(id, m), controls)
    requires forall sc | sc in ScopeKeys(id, m) :: controls[sc].currency == req.currency && Fits(req.liability, controls[sc])
    ensures ReserveScopes([], ScopeKeys(id, m), controls, req) == Attempt(ThreeRows(id, m, controls, req), None)
  {
    var scopes := ScopeKeys(id, m);
    LedgerReplays.ScopesDistinct(id, m);
    AttemptInClosedForm([], scopes, controls, req);
    var n := Passed([], scopes, controls, req);
    if n < |scopes| {
      assert scopes[n] in scopes;
      EmptyScopeAdmits(scopes[n], controls[scopes[n]], req);
    }
    assert scopes[..3] == scopes;
    MissingThree(id, m, controls, req);
  }

  lemma OneMissing(sc: Scope, controls: map<Scope, Limits>, req: Request)
    requires Known([sc], controls) && sc in controls && ValidLimits(controls[sc])
    ensures Missing([], [sc], controls, req) == [NewRow(sc, req, WindowStart(req.now, controls[sc].windowSeconds))]
  {
    assert [sc][1..] == [] && Missing([], [], controls, req) == [];
  }

  /** A ledger with one mission and nothing reserved. */
  predicate Opened(s: State, id: nat, m: MissionRow) {
    && s.rows == [] && id in s.missions && s.missions[id] == m && ValidLimits(m.limits)
    && (forall sc | sc in ScopeKeys(id, m) ::
          sc in s.controls && s.controls[sc] == if sc == MissionScope(id) then m.limits else SharedLimits)
  }

  lemma Opening(s: State, id: nat, m: MissionRow)
    requires Initial(s) && ValidLimits(m.limits)
    ensures Opened(Run(s, [CreateMission(id, m)]), id, m)
  {
    RunOneMore(s, [], CreateMission(id, m));
    assert [] + [CreateMission(id, m)] == [CreateMission(id, m)];
  }

  lemma ReserveFirst(s: State, id: nat, m: MissionRow, req: Request)
    requires Valid(s) && Opened(s, id, m) && m.limits.currency == req.currency == SharedLimits.currency
    requires Fits(req.liability, m.limits) && Fits(req.liability, SharedLimits)
    ensures Known(ScopeKeys(id, m), s.controls)
    ensures Step(s, Reserve(id, req, false)) == s.(rows := ThreeRows(id, m, s.controls, req))
  {
    EnsuredValid(s.controls, id, m);
    assert EnsuredControls(s.controls, id, m) == s.controls;
    FirstReservation(id, m, s.controls, req);
  }

  predicate AllReleased(rows: seq<Row>) {
    |rows| == 3 && forall i | 0 <= i < 3 :: rows[i].status == Released && Charge(rows[i]) == map[]
  }

  predicate AllCharged(rows: seq<Row>, actual: Amounts) {
    |rows| == 3 && forall i | 0 <= i < 3 :: rows[i].status == Reconciled && Charge(rows[i]) == actual
  }

  lemma ReleaseThenSettle(s: State, id: nat, m: MissionRow, req: Request, actual: Amounts)
    requires Valid(s) && id in s.missions && s.missions[id] == m
    requires Known(ScopeKeys(id, m), s.controls) && s.rows == ThreeRows(id, m, s.controls, req)
    ensures AllReleased(Step(s, Release(id, req.action)).rows)
    ensures Valid(Step(s, Release(id, req.action)))
    ensures AllCharged(Step(Step(s, Release(id, req.action)), Reconcile(id, req.action, Some(actual), false)).rows, actual)
  {
    StepValid(s, Release(id, req.action));
    var scopes := ScopeKeys(id, m);
    assert scopes[0] in scopes && scopes[1] in scopes && scopes[2] in scopes;
  }

  /** For any request that fits: reserved, released and then reconciled all the same, it is charged again. */
  lemma ReleasedRowIsSettled(s: State, id: nat, team: nat, req: Request, actual: Amounts)
    requires Initial(s) && req.currency == "USD" && Fits(req.liability, SharedLimits)
    ensures var ops := [CreateMission(id, MissionRow(team, SharedLimits)), Reserve(id, req, false), Release(id, req.action)];
      && AllReleased(Run(s, ops).rows)
      && AllCharged(Run(s, ops + [Reconcile(id, req.action, Some(actual), false)]).rows, actual)
  {
    var m := MissionRow(team, SharedLimits);
    var x, y, z := CreateMission(id, m), Reserve(id, req, false), Release(id, req.action);
    Opening(s, id, m);
    ReserveFirst(Run(s, [x]), id, m, req);
    RunOneMore(s, [x], y);
    RunOneMore(s, [x, y], z);
    assert [x] + [y] == [x, y] && [x, y] + [z] == [x, y, z];
    ReleaseThenSettle(Run(s, [x, y]), id, m, req, actual);
    RunOneMore(s, [x, y, z], Reconcile(id, req.action, Some(actual), false));
  }

  // ------------------------------------------------------------------ a team revision before the settlement

  /** The shared and the mission's row are settled; the team's is as it was reserved. */
  predicate TeamRowLeft(s: State, team: nat, req: Request, actual: Amounts) {
    && |s.rows| == 3
    && (forall i | 0 <= i < 2 :: s.rows[i].status == Reconciled && Charge(s.rows[i]) == actual)
    && s.rows[2].scope == TeamScope(team) && s.rows[2].status == Reserved && Charge(s.rows[2]) == req.liability
  }

  lemma ReviseThenSettle(s: State, id: nat, m: MissionRow, req: Request, team: nat, actual: Amounts)
    requires Valid(s) && s.missions == map[id := m] && team != m.team
    requires Known(ScopeKeys(id, m), s.controls) && s.rows == ThreeRows(id, m, s.controls, req)
    ensures Valid(Step(s, ReviseTeam(id, team)))
    ensures var t := Step(Step(s, ReviseTeam(id, team)), Reconcile(id, req.action, Some(actual), false));
      TeamRowLeft(t, m.team, req, actual) && LedgerReplays.Deserted(t, m.team)
  {
    StepValid(s, ReviseTeam(id, team));
    var scopes := ScopeKeys(id, m);
    assert scopes[0] in scopes && scopes[1] in scopes && scopes[2] in scopes;
  }

  /**
    For any request that fits: reserved, then settled after the mission took another team,
    it leaves the first team charged in full, whatever runs follow without a mission that
    takes that team again.
   */
  lemma TeamRowIsStranded(s: State, id: nat, team: nat, other: nat, req: Request, actual: Amounts, rest: seq<Op>)
    requires Initial(s) && req.currency == "USD" && Fits(req.liability, SharedLimits) && other != team
    requires forall op | op in rest :: LedgerReplays.NeverTakes(op, team)
    ensures var ops := [CreateMission(id, MissionRow(team, SharedLimits)), Reserve(id, req, false), ReviseTeam(id, other)];
      var t := Run(s, ops + [Reconcile(id, req.action, Some(actual), false)]);
      && TeamRowLeft(t, team, req, actual)
      && |Run(t, rest).rows| > 2 && Run(t, rest).rows[2] == t.rows[2]
  {
    var m := MissionRow(team, SharedLimits);
    var x, y, z := CreateMission(id, m), Reserve(id, req, false), ReviseTeam(id, other);
    Opening(s, id, m);
    ReserveFirst(Run(s, [x]), id, m, req);
    RunOneMore(s, [x], y);
    RunOneMore(s, [x, y], z);
    assert [x] + [y] == [x, y] && [x, y] + [z] == [x, y, z];
    OnlyMission(s, id, m);
    ReviseThenSettle(Run(s, [x, y]), id, m, req, other, actual);
    RunOneMore(s, [x, y, z], Reconcile(id, req.action, Some(actual), false));
    LedgerReplays.DesertedTeamIsStranded(Run(s, [x, y, z] + [Reconcile(id, req.action, Some(actual), false)]), rest, team, 2);
  }

  lemma OnlyMission(s: State, id: nat, m: MissionRow)
    requires Initial(s) && ValidLimits(m.limits)
    ensures Run(s, [CreateMission(id, m)]).missions == map[id := m]
  {
    RunOneMore(s, [], CreateMission(id, m));
    assert [] + [CreateMission(id, m)] == [CreateMission(id, m)];
  }

  // ------------------------------------------------------------------ a denial caught half way

  /** Two jobs at a time, but wall time for one. */
  const OneJobADay := SharedLimits.(maximum := SharedLimits.maximum[ActiveJobs := 2][WallSeconds := 7_200])

  /** What dispatching an item asks for under those limits. */
  function Job(action: string, now: int): Request {
    Request(action, map[ActiveJobs := 1, WallSeconds := 7_200], "USD", "currency", now)
  }

  lemma ChargedThree(a: Row, b: Row, c: Row, sc: Scope, w: int, f: Field)
    ensures Charged([a, b, c], sc, w, f) == ChargeIn(a, sc, w, f) + ChargeIn(b, sc, w, f) + ChargeIn(c, sc, w, f)
  {
    LedgerBounds.ChargedAppend([a, b], c, sc, w, f);
    LedgerBounds.ChargedAppend([a], b, sc, w, f);
    LedgerBounds.ChargedAppend([], a, sc, w, f);
    assert [a, b] + [c] == [a, b, c] && [a] + [b] == [a, b] && [] + [a] == [a];
  }

  lemma NotThere(rows: seq<Row>, sc: Scope, action: string)
    requires forall r | r in rows :: r.action != action
    ensures Find(rows, sc, action) == None
  {
  }

  /** With one job's rows in the window each of its scopes is charged that job. */
  lemma ChargedFirst(id: nat, m: MissionRow, controls: map<Scope, Limits>, first: string, now: int, sc: Scope, f: Field)
    requires Known(ScopeKeys(id, m), controls) && sc in ScopeKeys(id, m) && controls[sc].windowSeconds == 86_400
    ensures Charged(ThreeRows(id, m, controls, Job(first, now)), sc, WindowStart(now, 86_400), f)
         == Value(Job(first, now).liability, f)
  {
    var rows := ThreeRows(id, m, controls, Job(first, now));
    ChargedThree(rows[0], rows[1], rows[2], sc, WindowStart(now, 86_400), f);
  }

  /** The shared scope then still admits a second job. */
  lemma SharedAdmits(rows: seq<Row>, second: string, now: int)
    requires forall r | r in rows :: r.action != second && r.currency == "USD" && r.priceUnit == "currency"
    requires forall f: Field :: Charged(rows, Global, WindowStart(now, 86_400), f) == Value(Job(second, now).liability, f)
    ensures Admit(rows, Global, SharedLimits, Job(second, now)) == None
  {
    NotThere(rows, Global, second);
    NoneOver(rows, Global, WindowStart(now, 86_400), Job(second, now), SharedLimits, FIELDS);
  }

  /** The mission does not. */
  lemma MissionDenies(rows: seq<Row>, id: nat, second: string, now: int)
    requires forall r | r in rows :: r.action != second && r.currency == "USD" && r.priceUnit == "currency"
    requires forall f: Field :: Charged(rows, MissionScope(id), WindowStart(now, 86_400), f) == Value(Job(second, now).liability, f)
    ensures Admit(rows, MissionScope(id), OneJobADay, Job(second, now)) == Some(FieldExceeded(WallSeconds))
  {
    NotThere(rows, MissionScope(id), second);
    assert FIELDS[4] == WallSeconds;
    FirstOverIs(rows, MissionScope(id), WindowStart(now, 86_400), Job(second, now), OneJobADay, FIELDS, 4);
  }

  lemma SecondJob(id: nat, m: MissionRow, controls: map<Scope, Limits>, first: string, second: string, now: int, rows: seq<Row>)
    requires Known(ScopeKeys(id, m), controls) && first != second && rows == ThreeRows(id, m, controls, Job(first, now))
    requires controls[Global] == SharedLimits && controls[MissionScope(id)] == OneJobADay
    ensures Admit(rows, Global, SharedLimits, Job(second, now)) == None
    ensures Admit(rows, MissionScope(id), OneJobADay, Job(second, now)) == Some(FieldExceeded(WallSeconds))
  {
    assert Job(first, now).liability == Job(second, now).liability;
    forall f: Field
      ensures Charged(rows, Global, WindowStart(now, 86_400), f) == Value(Job(second, now).liability, f)
      ensures Charged(rows, MissionScope(id), WindowStart(now, 86_400), f) == Value(Job(second, now).liability, f)
    {
      ChargedFirst(id, m, controls, first, now, Global, f);
      ChargedFirst(id, m, controls, first, now, MissionScope(id), f);
    }
    SharedAdmits(rows, second, now);
    MissionDenies(rows, id, second, now);
  }

  /** The mission's ledger after its first job. */
  predicate AfterFirst(s: State, id: nat, m: MissionRow, first: string, now: int) {
    && Valid(s) && id in s.missions && s.missions[id] == m && m.limits == OneJobADay
    && Known(ScopeKeys(id, m), s.controls) && EnsuredControls(s.controls, id, m) == s.controls
    && s.controls[Global] == SharedLimits && s.controls[MissionScope(id)] == OneJobADay
    && s.rows == ThreeRows(id, m, s.controls, Job(first, now))
  }

  lemma SecondAttempt(s: State, id: nat, m: MissionRow, first: string, second: string, now: int)
    requires AfterFirst(s, id, m, first, now) && first != second
    ensures Attempted(s, id, Job(second, now)).denial == Some(FieldExceeded(WallSeconds))
    ensures Attempted(s, id, Job(second, now)).rows == s.rows + [NewRow(Global, Job(second, now), WindowStart(now, 86_400))]
  {
    var scopes, req := ScopeKeys(id, m), Job(second, now);
    LedgerReplays.ScopesDistinct(id, m);
    SecondJob(id, m, s.controls, first, second, now, s.rows);
    AttemptInClosedForm(s.rows, scopes, s.controls, req);
    var n := Passed(s.rows, scopes, s.controls, req);
    assert scopes[0] == Global && scopes[1] == MissionScope(id);
    assert n == 1 && scopes[..1] == [Global];
    NotThere(s.rows, Global, second);
    assert [Global][1..] == [] && Missing(s.rows, [], s.controls, req) == [];
  }

  lemma JobFits(action: string, now: int)
    ensures Fits(Job(action, now).liability, OneJobADay) && Fits(Job(action, now).liability, SharedLimits)
  {
  }

  lemma FirstJob(s: State, id: nat, team: nat, first: string, now: int)
    requires Initial(s)
    ensures var m := MissionRow(team, OneJobADay);
      AfterFirst(Run(s, [CreateMission(id, m), Reserve(id, Job(first, now), false)]), id, m, first, now)
  {
    var m := MissionRow(team, OneJobADay);
    var x, y := CreateMission(id, m), Reserve(id, Job(first, now), false);
    Opening(s, id, m);
    JobFits(first, now);
    ReserveFirst(Run(s, [x]), id, m, Job(first, now));
    RunOneMore(s, [x], y);
    assert [x] + [y] == [x, y];
    assert Run(s, [x, y]) == Run(s, [x]).(rows := Run(s, [x, y]).rows);
  }

  /**
    So "all three scopes or none" fails on a run from the empty ledger: a second job is
    denied for the mission's wall time, and the denial, caught, leaves it charged at the
    shared scope. Rolled back, it leaves nothing.
   */
  lemma DenialLeavesSharedRow(s: State, id: nat, team: nat, first: string, second: string, now: int)
    requires Initial(s) && first != second
    ensures var ops := [CreateMission(id, MissionRow(team, OneJobADay)), Reserve(id, Job(first, now), false)];
      var t := Run(s, ops);
      && id in t.missions && Attempted(t, id, Job(second, now)).denial == Some(FieldExceeded(WallSeconds))
      && Run(s, ops + [Reserve(id, Job(second, now), true)]).rows
         == t.rows + [NewRow(Global, Job(second, now), WindowStart(now, 86_400))]
      && Run(s, ops + [Reserve(id, Job(second, now), false)]) == t
  {
    var ops := [CreateMission(id, MissionRow(team, OneJobADay)), Reserve(id, Job(first, now), false)];
    FirstJob(s, id, team, first, now);
    SecondAttempt(Run(s, ops), id, MissionRow(team, OneJobADay), first, second, now);
    RunOneMore(s, ops, Reserve(id, Job(second, now), true));
    RunOneMore(s, ops, Reserve(id, Job(second, now), false));
  }
}
