/**
  The maximum-liability ledger: one action's liability is reserved at three scopes in
  aligned time windows, then reconciled, left unknown or released.
 */
module Ledger {
  import opened Wrappers

  /** The counted fields, and the cost in an exact minor unit. */
  datatype Field =
    | Calls | InputTokens | OutputTokens | ActiveJobs | WallSeconds | Iterations | NewWorkItems
    | CostAmount

  const FIELDS: seq<Field> := [Calls, InputTokens, OutputTokens, ActiveJobs, WallSeconds, Iterations, NewWorkItems, CostAmount]

  /** A liability or an actual use; absent fields count as zero. */
  type Amounts = map<Field, nat>

  function Value(a: Amounts, f: Field): nat {
    if f in a then a[f] else 0
  }

  datatype Limits = Limits(windowSeconds: int, maximum: map<Field, nat>, maxCost: Option<nat>, currency: string)

  predicate ValidLimits(l: Limits) {
    l.windowSeconds >= 60 && forall f: Field :: f != CostAmount ==> f in l.maximum
  }

  /** What a window of this scope may be charged; without a cost limit no cost at all. */
  function Cap(l: Limits, f: Field): nat
    requires ValidLimits(l)
  {
    if f == CostAmount then (if l.maxCost.Some? then l.maxCost.value else 0) else l.maximum[f]
  }

  /** In the order of their textual keys. */
  datatype Scope = Global | MissionScope(mission: nat) | TeamScope(team: nat)

  datatype Status = Reserved | Reconciled | Unknown | Released

  datatype Row = Row(
    scope: Scope, action: string, liability: Amounts, actual: Option<Amounts>,
    status: Status, currency: string, priceUnit: string, window: int, reservedAt: int)

  datatype MissionRow = MissionRow(team: nat, limits: Limits)

  datatype State = State(rows: seq<Row>, controls: map<Scope, Limits>, missions: map<nat, MissionRow>)

  const SharedLimits := Limits(86_400,
    map[Calls := 1_000_000, InputTokens := 1_000_000_000, OutputTokens := 1_000_000_000, ActiveJobs := 128,
        WallSeconds := 31_536_000, Iterations := 100_000, NewWorkItems := 100_000],
    None, "USD")

  function ScopeKeys(id: nat, m: MissionRow): seq<Scope> {
    [Global, MissionScope(id), TeamScope(m.team)]
  }

  function WindowStart(now: int, seconds: int): int
    requires seconds > 0
  {
    now - now % seconds
  }

  // ------------------------------------------------------------------ what a row is charged

  function Charge(r: Row): Amounts {
    match r.status
    case Released => map[]
    case Reconciled => if r.actual.Some? then r.actual.value else map[]
    case _ => r.liability
  }

  predicate In(r: Row, sc: Scope, window: int) {
    r.scope == sc && r.window == window
  }

  function ChargeIn(r: Row, sc: Scope, window: int, f: Field): nat {
    if In(r, sc, window) then Value(Charge(r), f) else 0
  }

  function Charged(rows: seq<Row>, sc: Scope, window: int, f: Field): nat {
    if rows == [] then 0
    else Charged(rows[..|rows| - 1], sc, window, f) + ChargeIn(rows[|rows| - 1], sc, window, f)
  }

  // ------------------------------------------------------------------ the operations

  function WithControl(controls: map<Scope, Limits>, sc: Scope, limits: Limits): map<Scope, Limits> {
    if sc in controls then controls else controls[sc := limits]
  }

  function EnsuredControls(controls: map<Scope, Limits>, id: nat, m: MissionRow): map<Scope, Limits> {
    WithControl(WithControl(WithControl(controls, Global, SharedLimits), TeamScope(m.team), SharedLimits), MissionScope(id), m.limits)
  }

  function EnsureControls(s: State, id: nat): State
    requires id in s.missions
  {
    s.(controls := EnsuredControls(s.controls, id, s.missions[id]))
  }

  datatype Request = Request(action: string, liability: Amounts, currency: string, priceUnit: string, now: int)

  datatype Denial = CurrencyMismatch | IdentityMismatch | PriceUnitMismatch | FieldExceeded(field: Field)

  /** The row of this action at this scope; the pair is a unique key. */
  function Find(rows: seq<Row>, sc: Scope, action: string): (found: Option<nat>)
    ensures found.Some? ==> found.value < |rows| && rows[found.value].scope == sc && rows[found.value].action == action
    ensures found.None? ==> forall r | r in rows :: r.scope != sc || r.action != action
  {
    if rows == [] then None
    else if rows[|rows| - 1].scope == sc && rows[|rows| - 1].action == action then Some(|rows| - 1)
    else Find(rows[..|rows| - 1], sc, action)
  }

  predicate Exceeds(rows: seq<Row>, sc: Scope, window: int, req: Request, limits: Limits, f: Field)
    requires ValidLimits(limits)
  {
    Charged(rows, sc, window, f) + Value(req.liability, f) > Cap(limits, f)
  }

  /** The first field over its limit, in the order they are checked. */
  function FirstExceeded(rows: seq<Row>, sc: Scope, window: int, req: Request, limits: Limits, fields: seq<Field>): Option<Field>
    requires ValidLimits(limits)
  {
    if fields == [] then None
    else if Exceeds(rows, sc, window, req, limits, fields[0]) then Some(fields[0])
    else FirstExceeded(rows, sc, window, req, limits, fields[1..])
  }

  predicate Priced(r: Row, req: Request) {
    r.currency == req.currency && r.priceUnit == req.priceUnit
  }

  predicate SameRequest(r: Row, req: Request) {
    r.liability == req.liability && Priced(r, req)
  }

  function NewRow(sc: Scope, req: Request, window: int): Row {
    Row(sc, req.action, req.liability, None, Reserved, req.currency, req.priceUnit, window, req.now)
  }

  /** The verdict at one scope: the row is there, may be added, or is denied. */
  function Admit(rows: seq<Row>, sc: Scope, limits: Limits, req: Request): Option<Denial>
    requires ValidLimits(limits)
  {
    if limits.currency != req.currency then Some(CurrencyMismatch)
    else
      var found := Find(rows, sc, req.action);
      if found.Some? then
        if SameRequest(rows[found.value], req) then None else Some(IdentityMismatch)
      else
        var window := WindowStart(req.now, limits.windowSeconds);
        if exists r | r in rows :: In(r, sc, window) && r.status != Released && !Priced(r, req) then Some(PriceUnitMismatch)
        else
          var over := FirstExceeded(rows, sc, window, req, limits, FIELDS);
          if over.Some? then Some(FieldExceeded(over.value)) else None
  }

  function ReserveAt(rows: seq<Row>, sc: Scope, limits: Limits, req: Request): seq<Row>
    requires ValidLimits(limits)
  {
    if Admit(rows, sc, limits, req).None? && Find(rows, sc, req.action).None?
    then rows + [NewRow(sc, req, WindowStart(req.now, limits.windowSeconds))]
    else rows
  }

  datatype Attempt = Attempt(rows: seq<Row>, denial: Option<Denial>)

  /** Scope after scope; a denial stops the walk and leaves the rows added before it. */
  function ReserveScopes(rows: seq<Row>, scopes: seq<Scope>, controls: map<Scope, Limits>, req: Request): Attempt
    requires forall sc | sc in scopes :: sc in controls && ValidLimits(controls[sc])
    decreases |scopes|
  {
    if scopes == [] then Attempt(rows, None)
    else
      assert scopes[0] in scopes;
      var denial := Admit(rows, scopes[0], controls[scopes[0]], req);
      if denial.Some? then Attempt(rows, denial)
      else ReserveScopes(ReserveAt(rows, scopes[0], controls[scopes[0]], req), scopes[1..], controls, req)
  }

  function Settle(r: Row, actual: Option<Amounts>, unknown: bool): Row {
    if r.status in {Reconciled, Unknown} then r
    else r.(actual := actual, status := if unknown then Unknown else Reconciled)
  }

  predicate Addressed(r: Row, scopes: seq<Scope>, action: string) {
    r.scope in scopes && r.action == action
  }

  function SettleRows(rows: seq<Row>, scopes: seq<Scope>, action: string, actual: Option<Amounts>, unknown: bool): (t: seq<Row>)
    ensures |t| == |rows|
    ensures forall i | 0 <= i < |rows| ::
              t[i] == if Addressed(rows[i], scopes, action) then Settle(rows[i], actual, unknown) else rows[i]
  {
    seq(|rows|, i requires 0 <= i < |rows| =>
      if Addressed(rows[i], scopes, action) then Settle(rows[i], actual, unknown) else rows[i])
  }

  function ReleaseRows(rows: seq<Row>, scopes: seq<Scope>, action: string): (t: seq<Row>)
    ensures |t| == |rows|
    ensures forall i | 0 <= i < |rows| ::
              t[i] == if Addressed(rows[i], scopes, action) && rows[i].status == Reserved
                      then rows[i].(status := Released) else rows[i]
  {
    seq(|rows|, i requires 0 <= i < |rows| =>
      if Addressed(rows[i], scopes, action) && rows[i].status == Reserved then rows[i].(status := Released) else rows[i])
  }

  // ------------------------------------------------------------------ runs

  datatype Op =
    | CreateMission(id: nat, row: MissionRow)
    | ReviseTeam(id: nat, team: nat)
    | SetLimits(id: nat, scope: Scope, limits: Limits)
    /** A denied attempt is rolled back unless its caller catches the denial inside the transaction. */
    | Reserve(id: nat, request: Request, caught: bool)
    | Reconcile(id: nat, action: string, actual: Option<Amounts>, unknown: bool)
    | Release(id: nat, action: string)

  predicate Enabled(s: State, op: Op) {
    match op
    case CreateMission(id, row) => id !in s.missions && ValidLimits(row.limits)
    case SetLimits(id, sc, limits) => id in s.missions && sc in ScopeKeys(id, s.missions[id]) && ValidLimits(limits)
    case _ => op.id in s.missions
  }

  predicate Valid(s: State) {
    && (forall sc | sc in s.controls :: ValidLimits(s.controls[sc]))
    && (forall id | id in s.missions :: ValidLimits(s.missions[id].limits))
  }

  lemma EnsuredValid(controls: map<Scope, Limits>, id: nat, m: MissionRow)
    requires ValidLimits(m.limits) && forall sc | sc in controls :: ValidLimits(controls[sc])
    ensures var c := EnsuredControls(controls, id, m);
      && (forall sc | sc in c :: ValidLimits(c[sc]))
      && (forall sc | sc in ScopeKeys(id, m) :: sc in c)
      && (forall sc | sc in controls :: sc in c && c[sc] == controls[sc])
      && (forall sc | sc in c :: sc in controls || sc in ScopeKeys(id, m))
  {
  }

  function Attempted(s: State, id: nat, req: Request): Attempt
    requires Valid(s) && id in s.missions
  {
    EnsuredValid(s.controls, id, s.missions[id]);
    ReserveScopes(s.rows, ScopeKeys(id, s.missions[id]), EnsuredControls(s.controls, id, s.missions[id]), req)
  }

  function ReserveTx(s: State, id: nat, req: Request, caught: bool): State
    requires Valid(s) && id in s.missions
  {
    if Attempted(s, id, req).denial.None? || caught
    then s.(rows := Attempted(s, id, req).rows, controls := EnsuredControls(s.controls, id, s.missions[id]))
    else s
  }

  function SetLimitsTx(s: State, id: nat, sc: Scope, limits: Limits): State
    requires id in s.missions
  {
    s.(controls := EnsuredControls(s.controls, id, s.missions[id])[sc := limits],
       missions := if sc == MissionScope(id) then s.missions[id := s.missions[id].(limits := limits)] else s.missions)
  }

  function CreateTx(s: State, id: nat, row: MissionRow): State {
    s.(controls := EnsuredControls(s.controls, id, row), missions := s.missions[id := row])
  }

  function Step(s: State, op: Op): State
    requires Valid(s)
  {
    if !Enabled(s, op) then s else
    match op
    case CreateMission(id, row) => CreateTx(s, id, row)
    case ReviseTeam(id, team) => s.(missions := s.missions[id := s.missions[id].(team := team)])
    case SetLimits(id, sc, limits) => SetLimitsTx(s, id, sc, limits)
    case Reserve(id, req, caught) => ReserveTx(s, id, req, caught)
    case Reconcile(id, action, actual, unknown) =>
      s.(rows := SettleRows(s.rows, ScopeKeys(id, s.missions[id]), action, actual, unknown))
    case Release(id, action) =>
      s.(rows := ReleaseRows(s.rows, ScopeKeys(id, s.missions[id]), action))
  }

  lemma StepValid(s: State, op: Op)
    requires Valid(s)
    ensures Valid(Step(s, op))
  {
    if Enabled(s, op) {
      match op
      case CreateMission(id, row) => EnsuredValid(s.controls, id, row);
      case SetLimits(id, sc, limits) => EnsuredValid(s.controls, id, s.missions[id]);
      case Reserve(id, req, caught) => EnsuredValid(s.controls, id, s.missions[id]);
      case _ =>
    }
  }

  function Run(s: State, ops: seq<Op>): (t: State)
    requires Valid(s)
    ensures Valid(t)
  {
    if ops == [] then s
    else
      var before := Run(s, ops[..|ops| - 1]);
      StepValid(before, ops[|ops| - 1]);
      Step(before, ops[|ops| - 1])
  }

  predicate Initial(s: State) {
    s.rows == [] && s.controls == map[] && s.missions == map[]
  }
}
