/** What a mission is shown of its window, and how that decides the next admission. */
module LedgerUsage {
  import opened Ledger
  import opened LedgerLaws
  import LedgerBounds

  function ReservedIn(rows: seq<Row>, sc: Scope, w: int, f: Field): nat {
    if rows == [] then 0
    else
      var r := rows[|rows| - 1];
      ReservedIn(rows[..|rows| - 1], sc, w, f)
      + if In(r, sc, w) && r.status in {Reserved, Unknown} then Value(r.liability, f) else 0
  }

  function ActualIn(rows: seq<Row>, sc: Scope, w: int, f: Field): nat {
    if rows == [] then 0
    else
      var r := rows[|rows| - 1];
      ActualIn(rows[..|rows| - 1], sc, w, f)
      + if In(r, sc, w) && r.status == Reconciled && r.actual.Some? then Value(r.actual.value, f) else 0
  }

  /** Reserved plus actual is what a reservation at this scope is judged against. */
  lemma {:induction false} ShownIsCharged(rows: seq<Row>, sc: Scope, w: int, f: Field)
    ensures ReservedIn(rows, sc, w, f) + ActualIn(rows, sc, w, f) == Charged(rows, sc, w, f)
  {
    if rows != [] {
      ShownIsCharged(rows[..|rows| - 1], sc, w, f);
    }
  }

  lemma {:induction false} SomeExceeded(rows: seq<Row>, sc: Scope, w: int, req: Request, limits: Limits, fields: seq<Field>)
    requires ValidLimits(limits)
    ensures FirstExceeded(rows, sc, w, req, limits, fields).Some?
            <==> exists f | f in fields :: Exceeds(rows, sc, w, req, limits, f)
  {
    if fields != [] {
      SomeExceeded(rows, sc, w, req, limits, fields[1..]);
      assert fields == [fields[0]] + fields[1..];
    }
  }

  /** What the usage view of this mission promises for one more liability. */
  predicate Affordable(s: State, id: nat, req: Request, f: Field)
    requires Valid(s) && id in s.missions
  {
    var limits := s.missions[id].limits;
    var w := WindowStart(req.now, limits.windowSeconds);
    ReservedIn(s.rows, MissionScope(id), w, f) + ActualIn(s.rows, MissionScope(id), w, f) + Value(req.liability, f) <= Cap(limits, f)
  }

  /** The open and settled rows of the mission's present window all have the request's price unit. */
  predicate OnePrice(s: State, id: nat, req: Request)
    requires Valid(s) && id in s.missions
  {
    var w := WindowStart(req.now, s.missions[id].limits.windowSeconds);
    forall r | r in s.rows :: In(r, MissionScope(id), w) && r.status != Released ==> Priced(r, req)
  }

  /**
    In every reachable ledger the view, which reads the mission's own limits, tells what
    the ledger, which reads the scope's, will do: a new request is admitted at mission
    scope exactly when its window has one price and the view has room for every field.
   */
  lemma ViewDecidesAdmission(initial: State, ops: seq<Op>, id: nat, req: Request)
    requires Initial(initial) && id in Run(initial, ops).missions
    requires Run(initial, ops).missions[id].limits.currency == req.currency
    requires Find(Run(initial, ops).rows, MissionScope(id), req.action).None?
    ensures var s := Run(initial, ops);
      && MissionScope(id) in s.controls
      && (Admit(s.rows, MissionScope(id), s.controls[MissionScope(id)], req).None?
          <==> OnePrice(s, id, req) && forall f: Field :: Affordable(s, id, req, f))
  {
    ReachableLedgers(initial, ops);
    var s := Run(initial, ops);
    var limits := s.missions[id].limits;
    var w := WindowStart(req.now, limits.windowSeconds);
    SomeExceeded(s.rows, MissionScope(id), w, req, limits, FIELDS);
    forall f: Field ensures f in FIELDS && (Affordable(s, id, req, f) <==> !Exceeds(s.rows, MissionScope(id), w, req, limits, f)) {
      LedgerBounds.EveryField(f);
      ShownIsCharged(s.rows, MissionScope(id), w, f);
    }
  }
}
