/** When the ledger admits a request, and what each operation leaves, in terms of its rows. */
module LedgerEffects {
  import opened Wrappers
  import opened Ledger
  import LedgerBounds
  import LedgerLaws
  import LedgerReplays
  import LedgerRuns
  import LedgerUsage

  /** The aligned window of this length that holds the moment. */
  predicate IsWindow(w: int, now: int, seconds: int)
    requires seconds > 0
  {
    w % seconds == 0 && w <= now < w + seconds
  }

  lemma WindowIs(w: int, now: int, seconds: int)
    requires seconds > 0 && IsWindow(w, now, seconds)
    ensures w == WindowStart(now, seconds)
  {
    var k := w / seconds;
    assert w == k * seconds;
    LedgerBounds.Quotient(now, seconds, k);
  }

  lemma StartIsWindow(now: int, seconds: int)
    requires seconds > 0
    ensures IsWindow(WindowStart(now, seconds), now, seconds)
  {
    var q := now / seconds;
    assert now == q * seconds + now % seconds;
    LedgerBounds.Quotient(q * seconds, seconds, q);
  }

  predicate SamePrice(r: Row, req: Request) {
    r.currency == req.currency && r.priceUnit == req.priceUnit
  }

  /** What open and settled rows of this window use of the field. */
  function Used(rows: seq<Row>, sc: Scope, w: int, f: Field): nat {
    LedgerUsage.ReservedIn(rows, sc, w, f) + LedgerUsage.ActualIn(rows, sc, w, f)
  }

  /** With the request the field stays within its limit; a cost needs a limit of its own. */
  predicate Room(rows: seq<Row>, sc: Scope, w: int, limits: Limits, req: Request, f: Field)
    requires ValidLimits(limits)
  {
    var total := Used(rows, sc, w, f) + Value(req.liability, f);
    if f == CostAmount then total == 0 || (limits.maxCost.Some? && total <= limits.maxCost.value) else total <= limits.maximum[f]
  }

  lemma RoomIs(rows: seq<Row>, sc: Scope, w: int, limits: Limits, req: Request, f: Field)
    requires ValidLimits(limits)
    ensures Room(rows, sc, w, limits, req, f) <==> !Exceeds(rows, sc, w, req, limits, f)
  {
    LedgerUsage.ShownIsCharged(rows, sc, w, f);
  }

  /** The rank of a field among the checks. */
  function Rank(f: Field): nat {
    match f
    case Calls => 0
    case InputTokens => 1
    case OutputTokens => 2
    case ActiveJobs => 3
    case WallSeconds => 4
    case Iterations => 5
    case NewWorkItems => 6
    case CostAmount => 7
  }

  lemma RanksAreOrder(f: Field)
    ensures Rank(f) < |FIELDS| && FIELDS[Rank(f)] == f
    ensures forall i | 0 <= i < |FIELDS| :: Rank(FIELDS[i]) == i
  {
  }

  predicate NoRow(rows: seq<Row>, sc: Scope, action: string) {
    forall r | r in rows :: r.scope != sc || r.action != action
  }

  predicate OnePrice(rows: seq<Row>, sc: Scope, w: int, req: Request) {
    forall r | r in rows && r.scope == sc && r.window == w && r.status != Released :: SamePrice(r, req)
  }

  /**
    A scope admits a request it has no row for exactly if the currency is its own, the rows
    of the window have the same price, and every field has room. A denial names the first
    reason, and of the fields the first in their order that has none.
   */
  lemma ScopeAdmitsExactly(rows: seq<Row>, sc: Scope, limits: Limits, req: Request, w: int)
    requires ValidLimits(limits) && NoRow(rows, sc, req.action) && IsWindow(w, req.now, limits.windowSeconds)
    ensures var d := Admit(rows, sc, limits, req);
      && (d == None
          <==> limits.currency == req.currency && OnePrice(rows, sc, w, req) && forall f: Field :: Room(rows, sc, w, limits, req, f))
      && (d == Some(CurrencyMismatch) <==> limits.currency != req.currency)
      && (d == Some(PriceUnitMismatch) <==> limits.currency == req.currency && !OnePrice(rows, sc, w, req))
      && (forall f: Field :: d == Some(FieldExceeded(f)) ==>
            !Room(rows, sc, w, limits, req, f) && forall g: Field | Rank(g) < Rank(f) :: Room(rows, sc, w, limits, req, g))
      && d != Some(IdentityMismatch)
  {
    WindowIs(w, req.now, limits.windowSeconds);
    forall f: Field ensures Room(rows, sc, w, limits, req, f) <==> !Exceeds(rows, sc, w, req, limits, f) {
      RoomIs(rows, sc, w, limits, req, f);
    }
    forall f: Field ensures f in FIELDS { LedgerBounds.EveryField(f); }
    LedgerUsage.SomeExceeded(rows, sc, w, req, limits, FIELDS);
    var over := FirstExceeded(rows, sc, w, req, limits, FIELDS);
    if over.Some? {
      FirstIsLeast(rows, sc, w, req, limits, 0);
    }
  }

  lemma {:induction false} FirstIsLeast(rows: seq<Row>, sc: Scope, w: int, req: Request, limits: Limits, i: nat)
    requires ValidLimits(limits) && i <= |FIELDS| && FirstExceeded(rows, sc, w, req, limits, FIELDS[i..]).Some?
    ensures var f := FirstExceeded(rows, sc, w, req, limits, FIELDS[i..]).value;
      && Exceeds(rows, sc, w, req, limits, f) && Rank(f) >= i
      && forall g: Field | i <= Rank(g) < Rank(f) :: !Exceeds(rows, sc, w, req, limits, g)
    decreases |FIELDS| - i
  {
    RanksAreOrder(Calls);
    if !Exceeds(rows, sc, w, req, limits, FIELDS[i]) {
      assert FIELDS[i..][1..] == FIELDS[i + 1..];
      FirstIsLeast(rows, sc, w, req, limits, i + 1);
      forall g: Field | Rank(g) == i ensures g == FIELDS[i] { RanksAreOrder(g); }
    }
  }

  /** The row a scope then gets: reserved, unsettled, in its window. */
  lemma AdmittedRowIs(rows: seq<Row>, sc: Scope, limits: Limits, req: Request, w: int)
    requires ValidLimits(limits) && NoRow(rows, sc, req.action) && IsWindow(w, req.now, limits.windowSeconds)
    ensures ReserveAt(rows, sc, limits, req)
         == if Admit(rows, sc, limits, req).None?
            then rows + [Row(sc, req.action, req.liability, None, Reserved, req.currency, req.priceUnit, w, req.now)] else rows
  {
    WindowIs(w, req.now, limits.windowSeconds);
    assert Find(rows, sc, req.action).None?;
  }

  /** A request whose row is there is admitted exactly if it asks for the same at the same price. */
  lemma RepeatAdmittedExactly(rows: seq<Row>, sc: Scope, limits: Limits, req: Request, i: nat)
    requires ValidLimits(limits) && LedgerLaws.Unique(rows) && i < |rows|
    requires rows[i].scope == sc && rows[i].action == req.action && limits.currency == req.currency
    ensures Admit(rows, sc, limits, req)
         == if rows[i].liability == req.liability && SamePrice(rows[i], req) then None else Some(IdentityMismatch)
    ensures ReserveAt(rows, sc, limits, req) == rows
  {
    LedgerLaws.UniqueFind(rows, i);
  }

  // ------------------------------------------------------------------ the other operations

  /** The three scopes a mission is held to now. */
  predicate PresentScope(s: State, id: nat, sc: Scope)
    requires id in s.missions
  {
    sc == Global || sc == MissionScope(id) || sc == TeamScope(s.missions[id].team)
  }

  /** A settlement writes the use, or the doubt, into the action's unsettled rows at present scopes. */
  lemma SettledExactly(s: State, id: nat, action: string, actual: Option<Amounts>, unknown: bool, i: nat)
    requires Valid(s) && id in s.missions && i < |s.rows|
    ensures var r, t := s.rows[i], Step(s, Reconcile(id, action, actual, unknown));
      && |t.rows| == |s.rows| && t.controls == s.controls && t.missions == s.missions
      && t.rows[i] == if PresentScope(s, id, r.scope) && r.action == action && (r.status == Reserved || r.status == Released)
                      then r.(status := if unknown then Unknown else Reconciled, actual := actual) else r
  {
  }

  lemma ReleasedExactly(s: State, id: nat, action: string, i: nat)
    requires Valid(s) && id in s.missions && i < |s.rows|
    ensures var r, t := s.rows[i], Step(s, Release(id, action));
      && |t.rows| == |s.rows| && t.controls == s.controls && t.missions == s.missions
      && t.rows[i] == if PresentScope(s, id, r.scope) && r.action == action && r.status == Reserved
                      then r.(status := Released) else r
  {
  }

  /** The charge of a row: its liability while open or in doubt, its use once settled, nothing once released. */
  lemma ChargedByStatus(r: Row, f: Field)
    ensures (r.status == Reserved || r.status == Unknown) ==> Value(Charge(r), f) == Value(r.liability, f)
    ensures r.status == Reconciled ==> Value(Charge(r), f) == if r.actual.Some? then Value(r.actual.value, f) else 0
    ensures r.status == Released ==> Value(Charge(r), f) == 0
  {
  }

  /** New limits hold from then on at their scope, and for a mission in its own row; nobody else's move. */
  lemma LimitsAreSet(s: State, id: nat, sc: Scope, limits: Limits)
    requires Valid(s) && id in s.missions && PresentScope(s, id, sc) && ValidLimits(limits)
    ensures var t := Step(s, SetLimits(id, sc, limits));
      && t.rows == s.rows && sc in t.controls && t.controls[sc] == limits
      && (forall x | x in s.controls && x != sc :: x in t.controls && t.controls[x] == s.controls[x])
      && t.missions == (if sc == MissionScope(id) then s.missions[id := MissionRow(s.missions[id].team, limits)] else s.missions)
  {
  }

  lemma TeamIsRevised(s: State, id: nat, team: nat)
    requires Valid(s) && id in s.missions
    ensures Step(s, ReviseTeam(id, team)) == s.(missions := s.missions[id := MissionRow(team, s.missions[id].limits)])
  {
  }

  /** What the scopes shared by all missions allow in a day: no cost, and these amounts. */
  predicate SharedAllows(liability: Amounts) {
    && Value(liability, Calls) <= 1_000_000
    && Value(liability, InputTokens) <= 1_000_000_000 && Value(liability, OutputTokens) <= 1_000_000_000
    && Value(liability, ActiveJobs) <= 128 && Value(liability, WallSeconds) <= 365 * 24 * 3_600
    && Value(liability, Iterations) <= 100_000 && Value(liability, NewWorkItems) <= 100_000
    && Value(liability, CostAmount) == 0
  }

  /**
    The first request of the first mission of all, under the mission's own limits: admitted
    exactly if the shared scopes allow it and the mission does.
   */
  lemma FirstRequestAdmittedExactly(s: State, id: nat, m: MissionRow, req: Request)
    requires Initial(s) && ValidLimits(m.limits) && m.limits.currency == req.currency == "USD"
    ensures var t := Run(s, [CreateMission(id, m)]);
      && id in t.missions
      && (Attempted(t, id, req).denial.None?
          <==> SharedAllows(req.liability) && forall f: Field :: Room([], MissionScope(id), WindowStart(req.now, m.limits.windowSeconds), m.limits, req, f))
  {
    var t := Run(s, [CreateMission(id, m)]);
    LedgerRuns.Opening(s, id, m);
    var scopes, controls := ScopeKeys(id, m), EnsuredControls(t.controls, id, m);
    EnsuredValid(t.controls, id, m);
    LedgerReplays.ScopesDistinct(id, m);
    assert scopes[0] in scopes && scopes[1] in scopes && scopes[2] in scopes;
    LedgerLaws.AttemptInClosedForm([], scopes, controls, req);
    SharedAdmits(Global, req);
    SharedAdmits(TeamScope(m.team), req);
    EmptyAdmits(MissionScope(id), m.limits, req);
    var n := LedgerLaws.Passed([], scopes, controls, req);
    assert Attempted(t, id, req).denial.None? <==> n == 3;
  }

  lemma EmptyAdmits(sc: Scope, limits: Limits, req: Request)
    requires ValidLimits(limits) && limits.currency == req.currency
    ensures Admit([], sc, limits, req).None?
            <==> forall f: Field :: Room([], sc, WindowStart(req.now, limits.windowSeconds), limits, req, f)
  {
    StartIsWindow(req.now, limits.windowSeconds);
    ScopeAdmitsExactly([], sc, limits, req, WindowStart(req.now, limits.windowSeconds));
  }

  lemma SharedAdmits(sc: Scope, req: Request)
    requires req.currency == "USD"
    ensures Admit([], sc, SharedLimits, req).None? <==> SharedAllows(req.liability)
  {
    var w := WindowStart(req.now, SharedLimits.windowSeconds);
    EmptyAdmits(sc, SharedLimits, req);
    assert forall f: Field :: Used([], sc, w, f) == 0;
    forall f: Field | SharedAllows(req.liability) ensures Room([], sc, w, SharedLimits, req, f) {
      match f
      case _ =>
    }
    if forall f: Field :: Room([], sc, w, SharedLimits, req, f) {
      assert Room([], sc, w, SharedLimits, req, Calls) && Room([], sc, w, SharedLimits, req, InputTokens);
      assert Room([], sc, w, SharedLimits, req, OutputTokens) && Room([], sc, w, SharedLimits, req, ActiveJobs);
      assert Room([], sc, w, SharedLimits, req, WallSeconds) && Room([], sc, w, SharedLimits, req, Iterations);
      assert Room([], sc, w, SharedLimits, req, NewWorkItems) && Room([], sc, w, SharedLimits, req, CostAmount);
    }
  }

  /** Days are whole: a row added under the shared limits is in the day of its request. */
  lemma SharedWindowIsADay(sc: Scope, req: Request)
    requires Admit([], sc, SharedLimits, req).None?
    ensures var rows := ReserveAt([], sc, SharedLimits, req);
      |rows| == 1 && IsWindow(rows[0].window, req.now, 24 * 3_600)
  {
  }

  /** What a mission is shown as reserved and as used, row by row; released rows and other windows are not shown. */
  lemma ShownRowByRow(rows: seq<Row>, r: Row, sc: Scope, w: int, f: Field)
    ensures LedgerUsage.ReservedIn([], sc, w, f) == 0 == LedgerUsage.ActualIn([], sc, w, f)
    ensures LedgerUsage.ReservedIn(rows + [r], sc, w, f) - LedgerUsage.ReservedIn(rows, sc, w, f)
         == if r.scope == sc && r.window == w && (r.status == Reserved || r.status == Unknown) then Value(r.liability, f) else 0
    ensures LedgerUsage.ActualIn(rows + [r], sc, w, f) - LedgerUsage.ActualIn(rows, sc, w, f)
         == if r.scope == sc && r.window == w && r.status == Reconciled && r.actual.Some? then Value(r.actual.value, f) else 0
  {
    assert (rows + [r])[..|rows|] == rows;
  }
}
