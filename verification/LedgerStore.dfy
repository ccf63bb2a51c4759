/** The ledger's tables and the steps that change them, row by row and field by field. */
module LedgerStore {
  import opened Wrappers
  import opened Ledger
  import LedgerBounds
  import LedgerLaws
  import opened LedgerUsage

  predicate Full(t: Amounts) {
    forall i | 0 <= i < |FIELDS| :: FIELDS[i] in t
  }

  /** Adds the values that are present to the running totals. */
  method Add(target: Amounts, values: Amounts) returns (sum: Amounts)
    requires Full(target)
    ensures Full(sum) && forall f: Field :: Value(sum, f) == Value(target, f) + Value(values, f)
  {
    sum := target;
    for i := 0 to |FIELDS|
      invariant Full(sum)
      invariant forall f: Field :: Value(sum, f) == Value(target, f) + if f in FIELDS[..i] then Value(values, f) else 0
    {
      var f := FIELDS[i];
      assert FIELDS[..i + 1] == FIELDS[..i] + [f];
      assert f !in FIELDS[..i];
      if f in values {
        sum := sum[f := sum[f] + values[f]];
      }
    }
    forall f: Field ensures f in FIELDS[..|FIELDS|] {
      LedgerBounds.EveryField(f);
    }
  }

  method Zero() returns (zero: Amounts)
    ensures Full(zero) && forall f: Field :: Value(zero, f) == 0
  {
    zero := map i | 0 <= i < |FIELDS| :: FIELDS[i] := 0;
  }

  lemma ChargedOneMore(rows: seq<Row>, i: nat, sc: Scope, w: int, f: Field)
    requires i < |rows|
    ensures Charged(rows[..i + 1], sc, w, f) == Charged(rows[..i], sc, w, f) + ChargeIn(rows[i], sc, w, f)
  {
    assert rows[..i + 1][..i] == rows[..i];
  }

  lemma ShownOneMore(rows: seq<Row>, i: nat, sc: Scope, w: int, f: Field)
    requires i < |rows|
    ensures ReservedIn(rows[..i + 1], sc, w, f) == ReservedIn(rows[..i], sc, w, f)
              + if In(rows[i], sc, w) && rows[i].status in {Reserved, Unknown} then Value(rows[i].liability, f) else 0
    ensures ActualIn(rows[..i + 1], sc, w, f) == ActualIn(rows[..i], sc, w, f)
              + if In(rows[i], sc, w) && rows[i].status == Reconciled && rows[i].actual.Some? then Value(rows[i].actual.value, f) else 0
  {
    assert rows[..i + 1][..i] == rows[..i];
  }

  class LedgerStore {
    var rows: seq<Row>
    var controls: map<Scope, Limits>
    var missions: map<nat, MissionRow>

    function View(): State
      reads this
    {
      State(rows, controls, missions)
    }

    constructor ()
      ensures Initial(View())
    {
      rows, controls, missions := [], map[], map[];
    }

    /** Inserts the controls that are missing, the shared limits for all but the mission. */
    method EnsureControls(id: nat)
      requires id in missions
      modifies this`controls
      ensures controls == EnsuredControls(old(controls), id, missions[id])
    {
      var m := missions[id];
      var keys := [Global, TeamScope(m.team), MissionScope(id)];
      for i := 0 to 3
        invariant i == 0 ==> controls == old(controls)
        invariant i == 1 ==> controls == WithControl(old(controls), Global, SharedLimits)
        invariant i == 2 ==> controls == WithControl(WithControl(old(controls), Global, SharedLimits), TeamScope(m.team), SharedLimits)
        invariant i == 3 ==> controls == EnsuredControls(old(controls), id, m)
      {
        if keys[i] !in controls {
          controls := controls[keys[i] := if i == 2 then m.limits else SharedLimits];
        }
      }
    }

    /** The row stored under the unique key, if any. */
    method Lookup(sc: Scope, action: string) returns (found: Option<nat>)
      ensures found == Find(rows, sc, action)
    {
      var i := |rows|;
      assert rows[..i] == rows;
      while i > 0
        invariant 0 <= i <= |rows|
        invariant Find(rows, sc, action) == Find(rows[..i], sc, action)
      {
        i := i - 1;
        if rows[i].scope == sc && rows[i].action == action {
          return Some(i);
        }
        assert rows[..i + 1][..i] == rows[..i];
      }
      found := None;
    }

    /** What the window is charged so far, unless a row in it has another price. */
    method Total(sc: Scope, window: int, req: Request) returns (mismatch: bool, total: Amounts)
      ensures mismatch <==> exists r | r in rows :: In(r, sc, window) && r.status != Released && !Priced(r, req)
      ensures Full(total) && (!mismatch ==> forall f: Field :: Value(total, f) == Charged(rows, sc, window, f))
    {
      total := Zero();
      for i := 0 to |rows|
        invariant Full(total) && forall f: Field :: Value(total, f) == Charged(rows[..i], sc, window, f)
        invariant forall r | r in rows[..i] :: !(In(r, sc, window) && r.status != Released && !Priced(r, req))
      {
        var r := rows[i];
        forall f: Field ensures Charged(rows[..i + 1], sc, window, f) == Charged(rows[..i], sc, window, f) + ChargeIn(r, sc, window, f) {
          ChargedOneMore(rows, i, sc, window, f);
        }
        if In(r, sc, window) && r.status != Released {
          if !Priced(r, req) {
            return true, total;
          }
          total := Add(total, if r.status != Reconciled then r.liability else if r.actual.Some? then r.actual.value else map[]);
        }
      }
      assert rows[..|rows|] == rows;
      mismatch := false;
    }

    /** The first field whose total is over its limit; any cost needs a cost limit. */
    method FirstOver(total: Amounts, limits: Limits, sc: Scope, window: int, req: Request) returns (over: Option<Field>)
      requires ValidLimits(limits) && Full(total)
      requires forall f: Field :: Value(total, f) == Charged(rows, sc, window, f) + Value(req.liability, f)
      ensures over == FirstExceeded(rows, sc, window, req, limits, FIELDS)
    {
      for i := 0 to |FIELDS|
        invariant FirstExceeded(rows, sc, window, req, limits, FIELDS) == FirstExceeded(rows, sc, window, req, limits, FIELDS[i..])
      {
        var f := FIELDS[i];
        var exceeded := if f != CostAmount then total[f] > limits.maximum[f]
                        else total[f] != 0 && (limits.maxCost.None? || total[f] > limits.maxCost.value);
        if exceeded {
          return Some(f);
        }
      }
      over := None;
    }

    /** One scope: deny, find the row there, or add it. */
    method ReserveScope(sc: Scope, limits: Limits, req: Request) returns (denial: Option<Denial>)
      requires ValidLimits(limits)
      modifies this`rows
      ensures denial == Admit(old(rows), sc, limits, req)
      ensures rows == if denial.Some? then old(rows) else ReserveAt(old(rows), sc, limits, req)
    {
      if limits.currency != req.currency {
        return Some(CurrencyMismatch);
      }
      var window := WindowStart(req.now, limits.windowSeconds);
      var existing := Lookup(sc, req.action);
      if existing.Some? {
        return if SameRequest(rows[existing.value], req) then None else Some(IdentityMismatch);
      }
      var mismatch, total := Total(sc, window, req);
      if mismatch {
        return Some(PriceUnitMismatch);
      }
      total := Add(total, req.liability);
      var over := FirstOver(total, limits, sc, window, req);
      if over.Some? {
        return Some(FieldExceeded(over.value));
      }
      rows := rows + [NewRow(sc, req, window)];
      denial := None;
    }

    /** Reserves the same liability scope after scope; the caller decides about rolling back. */
    method Reserve(id: nat, req: Request) returns (denial: Option<Denial>)
      requires Valid(View()) && id in missions
      modifies this`rows, this`controls
      ensures denial == Attempted(old(View()), id, req).denial
      ensures rows == Attempted(old(View()), id, req).rows
      ensures controls == EnsuredControls(old(controls), id, missions[id])
    {
      EnsureControls(id);
      EnsuredValid(old(controls), id, missions[id]);
      var scopes, locked := ScopeKeys(id, missions[id]), controls;
      for i := 0 to |scopes|
        invariant controls == locked && LedgerLaws.Known(scopes, locked)
        invariant ReserveScopes(old(rows), scopes, locked, req) == ReserveScopes(rows, scopes[i..], locked, req)
      {
        assert scopes[i..][0] == scopes[i] && scopes[i..][1..] == scopes[i + 1..];
        denial := ReserveScope(scopes[i], locked[scopes[i]], req);
        if denial.Some? {
          return;
        }
      }
      denial := None;
    }

    /** Settles the action's rows at the mission's present scopes. */
    method Reconcile(id: nat, action: string, actual: Option<Amounts>, unknown: bool) returns (any: bool)
      requires id in missions
      modifies this`rows
      ensures rows == SettleRows(old(rows), ScopeKeys(id, missions[id]), action, actual, unknown)
      ensures any <==> exists i | 0 <= i < |old(rows)| :: Addressed(old(rows)[i], ScopeKeys(id, missions[id]), action)
    {
      ghost var was := rows;
      var scopes := ScopeKeys(id, missions[id]);
      any := false;
      for i := 0 to |rows|
        invariant |rows| == |was|
        invariant forall j | 0 <= j < i :: rows[j] == SettleRows(was, scopes, action, actual, unknown)[j]
        invariant forall j | i <= j < |was| :: rows[j] == was[j]
        invariant any <==> exists j | 0 <= j < i :: Addressed(was[j], scopes, action)
      {
        if Addressed(rows[i], scopes, action) {
          any := true;
          if rows[i].status !in {Reconciled, Unknown} {
            rows := rows[i := rows[i].(actual := actual, status := if unknown then Unknown else Reconciled)];
          }
        }
      }
    }

    /** Releases the action's rows that are still reserved. */
    method Release(id: nat, action: string)
      requires id in missions
      modifies this`rows
      ensures rows == ReleaseRows(old(rows), ScopeKeys(id, missions[id]), action)
    {
      ghost var was := rows;
      var scopes := ScopeKeys(id, missions[id]);
      for i := 0 to |rows|
        invariant |rows| == |was|
        invariant forall j | 0 <= j < i :: rows[j] == ReleaseRows(was, scopes, action)[j]
        invariant forall j | i <= j < |was| :: rows[j] == was[j]
      {
        if Addressed(rows[i], scopes, action) && rows[i].status == Reserved {
          rows := rows[i := rows[i].(status := Released)];
        }
      }
    }

    /** The mission's current window: open liabilities, recorded use, and doubt. */
    method UsageView(id: nat, now: int) returns (reserved: Amounts, actual: Amounts, unknown: bool)
      requires Valid(View()) && id in missions
      ensures var w := WindowStart(now, missions[id].limits.windowSeconds);
        && Full(reserved) && Full(actual)
        && (forall f: Field :: Value(reserved, f) == ReservedIn(rows, MissionScope(id), w, f))
        && (forall f: Field :: Value(actual, f) == ActualIn(rows, MissionScope(id), w, f))
        && (unknown <==> exists i | 0 <= i < |rows| :: In(rows[i], MissionScope(id), w) && rows[i].status == Unknown)
    {
      var sc, w := MissionScope(id), WindowStart(now, missions[id].limits.windowSeconds);
      reserved := Zero();
      actual := Zero();
      unknown := false;
      for i := 0 to |rows|
        invariant Full(reserved) && Full(actual)
        invariant forall f: Field :: Value(reserved, f) == ReservedIn(rows[..i], sc, w, f)
        invariant forall f: Field :: Value(actual, f) == ActualIn(rows[..i], sc, w, f)
        invariant unknown <==> exists j | 0 <= j < i :: In(rows[j], sc, w) && rows[j].status == Unknown
      {
        var r := rows[i];
        forall f: Field {
          ShownOneMore(rows, i, sc, w, f);
        }
        if In(r, sc, w) && r.status != Released {
          if r.status in {Reserved, Unknown} {
            reserved := Add(reserved, r.liability);
            unknown := unknown || r.status == Unknown;
          } else if r.actual.Some? {
            actual := Add(actual, r.actual.value);
          }
        }
      }
      assert rows[..|rows|] == rows;
    }
  }
}
