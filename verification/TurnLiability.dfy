/** A call that may have happened stays charged in full until its receipt is stored. */
module TurnLiability {
  import opened Wrappers
  import L = Ledger
  import LedgerLaws
  import LedgerReplays
  import opened Turns
  import TurnSafety

  function CallScopes(c: Config, team: nat): seq<L.Scope> {
    [L.Global, L.MissionScope(c.mission), L.TeamScope(team)]
  }

  /** The action has a row at this scope. */
  predicate HasRow(rows: seq<L.Row>, sc: L.Scope, action: string) {
    exists i | 0 <= i < |rows| :: rows[i].scope == sc && rows[i].action == action
  }

  predicate Open(r: L.Row, liability: L.Amounts) {
    r.status in {L.Reserved, L.Unknown} && r.liability == liability
  }

  predicate Uncertain(db: Db) {
    db.started.Some? && db.receipt.None?
  }

  predicate RowInv(c: Config, db: Db) {
    && (db.started.None? ==> db.receipt.None? && forall r | r in db.ledger.rows :: r.action != c.action)
    && (forall r | r in db.ledger.rows && r.action == c.action :: r.status != L.Released)
    && (Uncertain(db) ==> forall r | r in db.ledger.rows && r.action == c.action :: Open(r, db.started.value.request.liability))
    && (db.started.Some? ==> forall sc | sc in CallScopes(c, db.started.value.team) :: HasRow(db.ledger.rows, sc, c.action))
  }

  lemma RowsPersist(before: seq<L.Row>, after: seq<L.Row>, sc: L.Scope, action: string)
    requires HasRow(before, sc, action) && |before| <= |after|
    requires forall i | 0 <= i < |before| :: after[i].scope == before[i].scope && after[i].action == before[i].action
    ensures HasRow(after, sc, action)
  {
    var i :| 0 <= i < |before| && before[i].scope == sc && before[i].action == action;
    assert after[i].scope == sc && after[i].action == action;
  }

  // ------------------------------------------------------------------ the ledger underneath

  /** Another action's operation leaves this action's rows alone and adds none for it. */
  lemma OthersKeepRows(ledger: L.State, op: L.Op, action: string)
    requires L.Valid(ledger) && OtherAction(op, action)
    ensures var after := L.Step(ledger, op).rows;
      && |ledger.rows| <= |after|
      && (forall i | 0 <= i < |ledger.rows| ::
            after[i].scope == ledger.rows[i].scope && after[i].action == ledger.rows[i].action
            && (ledger.rows[i].action == action ==> after[i] == ledger.rows[i]))
      && (forall i | |ledger.rows| <= i < |after| :: after[i].action != action)
  {
    if op.Reserve? && L.Enabled(ledger, op) {
      LedgerLaws.AttemptAppends(ledger, op.id, op.request);
    }
  }

  lemma SettlesOnly(c: Config, ledger: L.State, actual: Option<L.Amounts>, unknown: bool)
    requires L.Valid(ledger) && c.mission in ledger.missions
    ensures var after := L.Step(ledger, L.Reconcile(c.mission, c.action, actual, unknown)).rows;
      && |after| == |ledger.rows|
      && forall i | 0 <= i < |after| ::
           && after[i].scope == ledger.rows[i].scope && after[i].action == ledger.rows[i].action
           && after[i].liability == ledger.rows[i].liability
           && (after[i] == ledger.rows[i] || after[i].status == if unknown then L.Unknown else L.Reconciled)
  {
  }

  lemma AdmittedHasRow(c: Config, ledger: L.State, req: L.Request, sc: L.Scope)
    requires L.Valid(ledger) && c.mission in ledger.missions && L.Attempted(ledger, c.mission, req).denial.None?
    requires sc in CallScopes(c, ledger.missions[c.mission].team)
    ensures HasRow(L.ReserveTx(ledger, c.mission, req, false).rows, sc, req.action)
  {
    var m := ledger.missions[c.mission];
    L.EnsuredValid(ledger.controls, c.mission, m);
    LedgerReplays.ScopesDistinct(c.mission, m);
    var controls := L.EnsuredControls(ledger.controls, c.mission, m);
    var i := LedgerReplays.AdmittedRow(ledger.rows, L.ScopeKeys(c.mission, m), controls, req, sc);
    assert L.Attempted(ledger, c.mission, req).rows[i].scope == sc;
  }

  // ------------------------------------------------------------------ each transaction

  lemma BeginRows(c: Config, db: Db, owner: string, ask: Ask, now: int)
    requires Wellformed(c, db) && RowInv(c, db)
    ensures RowInv(c, BeginTx(c, db, owner, ask, now))
  {
    var req := RequestOf(c, ask, now);
    var v := BeginVerdict(c, db, owner, ask, now);
    var after := BeginTx(c, db, owner, ask, now);
    if v == Start || v.Replay? {
      LedgerLaws.AttemptAppends(db.ledger, c.mission, req);
      var rows := after.ledger.rows;
      forall r | r in rows && r.action == c.action
        ensures r.status != L.Released && (v == Start ==> Open(r, ask.liability))
      {
        var i :| 0 <= i < |rows| && rows[i] == r;
        assert i < |db.ledger.rows| ==> rows[i] == db.ledger.rows[i] && db.ledger.rows[i] in db.ledger.rows;
      }
      forall sc | sc in CallScopes(c, after.started.value.team) ensures HasRow(rows, sc, c.action) {
        if v == Start {
          AdmittedHasRow(c, db.ledger, req, sc);
        } else {
          RowsPersist(db.ledger.rows, rows, sc, c.action);
        }
      }
    }
  }

  /** A ledger step that keeps rows, opens none of this action and settles none to released. */
  lemma RowsAfter(c: Config, db: Db, after: Db)
    requires RowInv(c, db) && after.started == db.started && (db.receipt.Some? ==> after.receipt.Some?)
    requires after.receipt.Some? ==> db.started.Some?
    requires |db.ledger.rows| <= |after.ledger.rows|
    requires forall i | 0 <= i < |after.ledger.rows| ::
               var r := after.ledger.rows[i];
               if i < |db.ledger.rows| then
                 && r.scope == db.ledger.rows[i].scope && r.action == db.ledger.rows[i].action
                 && r.liability == db.ledger.rows[i].liability
                 && (r.action == c.action ==>
                       r == db.ledger.rows[i] || r.status == L.Unknown || (r.status == L.Reconciled && after.receipt.Some?))
               else r.action != c.action
    ensures RowInv(c, after)
  {
    var rows := after.ledger.rows;
    forall r | r in rows && r.action == c.action
      ensures db.started.Some? && r.status != L.Released && (Uncertain(after) ==> Open(r, db.started.value.request.liability))
    {
      var i :| 0 <= i < |rows| && rows[i] == r;
      assert db.ledger.rows[i] in db.ledger.rows;
    }
    if db.started.Some? {
      forall sc | sc in CallScopes(c, db.started.value.team) ensures HasRow(rows, sc, c.action) {
        RowsPersist(db.ledger.rows, rows, sc, c.action);
      }
    }
  }

  lemma StoreRows(c: Config, db: Db, ask: Ask, response: Response)
    requires Wellformed(c, db) && RowInv(c, db) && db.started.Some?
    ensures RowInv(c, StoreTx(c, db, ask, response))
  {
    SettlesOnly(c, db.ledger, Some(response.actual), response.unknown);
    RowsAfter(c, db, StoreTx(c, db, ask, response));
  }

  lemma FailRows(c: Config, db: Db, now: int, code: Code)
    requires Wellformed(c, db) && RowInv(c, db)
    ensures RowInv(c, FailTx(c, db, now, code))
  {
    SettlesOnly(c, db.ledger, None, true);
    RowsAfter(c, db, FailTx(c, db, now, code));
  }

  lemma ElsewhereRows(c: Config, db: Db, op: L.Op)
    requires Wellformed(c, db) && RowInv(c, db) && OtherAction(op, c.action)
    ensures RowInv(c, db.(ledger := L.Step(db.ledger, op)))
  {
    OthersKeepRows(db.ledger, op, c.action);
    LedgerLaws.StepExtends(db.ledger, op);
    forall i | 0 <= i < |db.ledger.rows| ensures L.Step(db.ledger, op).rows[i].liability == db.ledger.rows[i].liability {
      assert LedgerLaws.Becomes(db.ledger.rows[i], L.Step(db.ledger, op).rows[i]);
    }
    RowsAfter(c, db, db.(ledger := L.Step(db.ledger, op)));
  }

  lemma StepRows(c: Config, s: State, op: Op)
    requires Wellformed(c, s.db) && TurnSafety.Inv(s) && RowInv(c, s.db)
    ensures RowInv(c, Step(c, s, op).db)
  {
    if Enabled(c, s, op) {
      match op
      case Begin(w) => BeginRows(c, s.db, s.workers[w].owner, s.workers[w].phase.ask, s.now);
      case Store(w) =>
        assert TurnSafety.WorkerInv(s, s.workers[w].phase);
        StoreRows(c, s.db, s.workers[w].phase.ask, s.workers[w].phase.response);
      case Fail(w) => FailRows(c, s.db, s.now, s.workers[w].phase.code);
      case Elsewhere(o) => ElsewhereRows(c, s.db, o);
      case _ =>
        assert NextDb(c, s, op).started == s.db.started && NextDb(c, s, op).receipt == s.db.receipt;
        assert NextDb(c, s, op).ledger == s.db.ledger;
    }
  }

  lemma {:induction false} ReachableRows(c: Config, s: State, ops: seq<Op>)
    requires Initial(c, s)
    ensures TurnSafety.Inv(Run(c, s, ops)) && RowInv(c, Run(c, s, ops).db)
  {
    TurnSafety.OneInvocationPerTurn(c, s, ops);
    if ops != [] {
      var n := |ops| - 1;
      ReachableRows(c, s, ops[..n]);
      StepRows(c, Run(c, s, ops[..n]), ops[n]);
    }
  }

  // ------------------------------------------------------------------ the two theorems

  /**
    In every reachable state with a started record and no receipt, every row of the call
    is charged the whole liability that was reserved, and the shared scope, the mission
    and the team it was started for each have one.
   */
  lemma UncertainCallIsChargedInFull(c: Config, s: State, ops: seq<Op>, sc: L.Scope)
    requires Initial(c, s) && Uncertain(Run(c, s, ops).db)
    requires sc in CallScopes(c, Run(c, s, ops).db.started.value.team)
    ensures var db := Run(c, s, ops).db;
      && (forall r | r in db.ledger.rows && r.action == c.action :: L.Charge(r) == db.started.value.request.liability)
      && exists i | 0 <= i < |db.ledger.rows| ::
           db.ledger.rows[i].scope == sc && db.ledger.rows[i].action == c.action
           && L.Charge(db.ledger.rows[i]) == db.started.value.request.liability
  {
    ReachableRows(c, s, ops);
    var rows := Run(c, s, ops).db.ledger.rows;
    assert HasRow(rows, sc, c.action);
    var i :| 0 <= i < |rows| && rows[i].scope == sc && rows[i].action == c.action;
    assert rows[i] in rows;
  }

  lemma OnlyStoreSettles(c: Config, s: State, op: Op, i: nat)
    requires Wellformed(c, s.db) && i < |s.db.ledger.rows| && s.db.ledger.rows[i].action == c.action && !op.Store?
    ensures i < |Step(c, s, op).db.ledger.rows|
    ensures Step(c, s, op).db.ledger.rows[i].status == L.Reconciled ==> s.db.ledger.rows[i].status == L.Reconciled
  {
    if Enabled(c, s, op) {
      match op
      case Begin(w) => LedgerLaws.AttemptAppends(s.db.ledger, c.mission, RequestOf(c, s.workers[w].phase.ask, s.now));
      case Fail(w) => SettlesOnly(c, s.db.ledger, None, true);
      case Elsewhere(o) => OthersKeepRows(s.db.ledger, o, c.action);
      case Store(_) =>
      case _ => assert NextDb(c, s, op).ledger == s.db.ledger;
    }
  }

  /** A row of the call becomes reconciled only in the transaction that stores the receipt. */
  lemma SettledOnlyWithTheReceipt(c: Config, s: State, ops: seq<Op>, op: Op, i: nat)
    requires Initial(c, s)
    requires var t := Run(c, s, ops);
      i < |t.db.ledger.rows| && t.db.ledger.rows[i].action == c.action && t.db.ledger.rows[i].status != L.Reconciled
    ensures var t, u := Run(c, s, ops), Step(c, Run(c, s, ops), op);
      && i < |u.db.ledger.rows|
      && (u.db.ledger.rows[i].status == L.Reconciled ==> t.db.receipt.None? && u.db.receipt.Some?)
  {
    var t := Run(c, s, ops);
    if op.Store? && Enabled(c, t, op) {
      TurnSafety.ReceiptNeverRefused(c, s, ops, op.worker);
    } else if !op.Store? {
      OnlyStoreSettles(c, t, op, i);
    }
  }
}
