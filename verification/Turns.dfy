/**
  One management turn, claimed under a lease by any number of workers: a started record
  commits before the one provider call, its receipt after, and a crash, a timeout or a
  lapsed lease may fall between any two transactions.
 */
module Turns {
  import opened Wrappers
  import Ledger

  datatype Status = Queued | Running | Applied | Stale | Failed

  datatype Turn = Turn(
    status: Status, claimedBy: Option<string>, leaseUntil: Option<int>, claimableAt: int, attempts: nat)

  datatype Response = Response(payload: string, actual: Ledger.Amounts, unknown: bool)

  datatype Receipt = Receipt(digest: string, response: Response)

  datatype Started = Started(request: Ledger.Request, team: nat)

  /** The rows this turn is about, and the shared ledger and call records. */
  datatype Db = Db(
    turn: Turn, started: Option<Started>, receipt: Option<Receipt>, calls: set<string>, ledger: Ledger.State)

  datatype Code = AdmissionPaused | PaidNotAuthorized | ReconciliationRequired | OtherError

  /** What a worker computed from the turn's snapshot, the pricing and its own settings. */
  datatype Ask = Ask(digest: string, liability: Ledger.Amounts, currency: string)

  datatype Phase =
    | Claimed
    | Loaded(ask: Ask)
    | Calling(ask: Ask)
    | InFlight(ask: Ask)
    | Answered(ask: Ask, response: Response)
    | Decided(response: Response)
    | Dispatching
    | Failing(code: Code)

  /** A worker on the turn; it has spent this much time in the call and beside it. */
  datatype Process = Process(owner: string, phase: Phase, claimedAt: int, beside: nat, inCall: nat)

  /** The last two fields record what the provider saw and said. */
  datatype State = State(db: Db, workers: map<nat, Process>, now: int, invoked: nat, answers: seq<Response>)

  datatype Config = Config(
    lease: int, timeout: nat, maxAttempts: nat, maxCalls: nat, mission: nat, turnId: string, action: string)

  // ------------------------------------------------------------------ transactions

  predicate Claimable(t: Turn, now: int) {
    t.claimableAt <= now
    && (t.status == Queued || (t.status == Running && t.leaseUntil.Some? && t.leaseUntil.value < now))
  }

  function ClaimTx(c: Config, db: Db, owner: string, now: int): Db {
    db.(turn := db.turn.(status := Running, claimedBy := Some(owner), leaseUntil := Some(now + c.lease), attempts := db.turn.attempts + 1))
  }

  predicate Wellformed(c: Config, db: Db) {
    Ledger.Valid(db.ledger) && c.mission in db.ledger.missions
  }

  function RequestOf(c: Config, ask: Ask, now: int): Ledger.Request {
    Ledger.Request(c.action, ask.liability, ask.currency, "currency", now)
  }

  /** Why the transaction before the call does not start one, in the order of its checks. */
  datatype Verdict = Lost | Denied | Replay(response: Response) | Mismatch | AlreadyStarted | OverCap | Start

  function BeginVerdict(c: Config, db: Db, owner: string, ask: Ask, now: int): Verdict
    requires Wellformed(c, db)
  {
    if db.turn.claimedBy != Some(owner) then Lost
    else if Ledger.Attempted(db.ledger, c.mission, RequestOf(c, ask, now)).denial.Some? then Denied
    else if db.receipt.Some? then
      if db.receipt.value.digest == ask.digest then Replay(db.receipt.value.response) else Mismatch
    else if db.started.Some? then AlreadyStarted
    else if |db.calls| >= c.maxCalls then OverCap
    else Start
  }

  function BeginTx(c: Config, db: Db, owner: string, ask: Ask, now: int): Db
    requires Wellformed(c, db)
  {
    var reserved := Ledger.ReserveTx(db.ledger, c.mission, RequestOf(c, ask, now), false);
    match BeginVerdict(c, db, owner, ask, now)
    case Start =>
      db.(ledger := reserved, calls := db.calls + {c.turnId},
          started := Some(Started(RequestOf(c, ask, now), db.ledger.missions[c.mission].team)))
    case Replay(_) => db.(ledger := reserved)
    case _ => db
  }

  function BeginPhase(v: Verdict, ask: Ask): Phase {
    match v
    case Start => Calling(ask)
    case Replay(response) => Decided(response)
    case AlreadyStarted => Failing(ReconciliationRequired)
    case _ => Failing(OtherError)
  }

  /** The receipt has the call's identity as its key, so a second one would be refused. */
  function StoreTx(c: Config, db: Db, ask: Ask, response: Response): Db
    requires Wellformed(c, db)
  {
    if db.receipt.Some? then db
    else db.(receipt := Some(Receipt(ask.digest, response)),
             ledger := Ledger.Step(db.ledger, Ledger.Reconcile(c.mission, c.action, Some(response.actual), response.unknown)))
  }

  /** Neither the claim nor the status is looked at. */
  function ApplyTx(db: Db, stale: bool): Db {
    db.(turn := db.turn.(status := if stale then Stale else Applied))
  }

  function Backoff(attempts: nat): nat {
    if attempts == 0 then 1 else 2 * Backoff(attempts - 1)
  }

  function FailedTurn(c: Config, t: Turn, now: int, code: Code): Turn {
    if code == AdmissionPaused then
      Turn(Queued, None, None, now + 5, if t.attempts == 0 then 0 else t.attempts - 1)
    else if t.attempts < c.maxAttempts && code !in {PaidNotAuthorized, ReconciliationRequired} then
      Turn(Queued, None, None, now + Backoff(t.attempts), t.attempts)
    else t.(status := Failed)
  }

  function FailTx(c: Config, db: Db, now: int, code: Code): Db
    requires Wellformed(c, db)
  {
    if db.turn.status in {Applied, Stale} then db
    else db.(turn := FailedTurn(c, db.turn, now, code),
             ledger := if code != AdmissionPaused && db.started.Some? && db.receipt.None?
                       then Ledger.Step(db.ledger, Ledger.Reconcile(c.mission, c.action, None, true))
                       else db.ledger)
  }

  // ------------------------------------------------------------------ interleavings

  datatype Op =
    | Tick(seconds: nat)
    | Claim(worker: nat, owner: string)
    | Load(worker: nat, ask: Ask)
    | Begin(worker: nat)
    | Invoke(worker: nat)
    | Return(worker: nat, response: Response)
    | Store(worker: nat)
    | Apply(worker: nat, stale: bool)
    | Finish(worker: nat)
    /** Any exception, a call's error or timeout included, before the next commit. */
    | Raise(worker: nat, code: Code)
    | Fail(worker: nat)
    | Crash(worker: nat)
    /** Another call is admitted under the same cap. */
    | OtherCall(id: string)
    /** Anything else that happens to the ledger, this call's own action excepted. */
    | Elsewhere(op: Ledger.Op)

  predicate OtherAction(op: Ledger.Op, action: string) {
    match op
    case Reserve(_, request, _) => request.action != action
    case Reconcile(_, a, _, _) => a != action
    case Release(_, a) => a != action
    case _ => true
  }

  predicate Enabled(c: Config, s: State, op: Op) {
    match op
    case Tick(_) => true
    case Claim(w, _) => w !in s.workers && Claimable(s.db.turn, s.now)
    case OtherCall(id) => id != c.turnId && |s.db.calls| < c.maxCalls
    case Elsewhere(o) => OtherAction(o, c.action)
    case Load(w, _) => w in s.workers && s.workers[w].phase.Claimed?
    case Begin(w) => w in s.workers && s.workers[w].phase.Loaded?
    case Invoke(w) => w in s.workers && s.workers[w].phase.Calling?
    case Return(w, _) => w in s.workers && s.workers[w].phase.InFlight?
    case Store(w) => w in s.workers && s.workers[w].phase.Answered?
    case Apply(w, _) => w in s.workers && s.workers[w].phase.Decided?
    case Finish(w) => w in s.workers && s.workers[w].phase.Dispatching?
    case Raise(w, _) => w in s.workers && !s.workers[w].phase.Failing?
    case Fail(w) => w in s.workers && s.workers[w].phase.Failing?
    case Crash(w) => w in s.workers
  }

  function Aged(p: Process, seconds: nat): Process {
    if p.phase.InFlight? then p.(inCall := p.inCall + seconds) else p.(beside := p.beside + seconds)
  }

  function AgedAll(workers: map<nat, Process>, seconds: nat): map<nat, Process> {
    map w | w in workers :: Aged(workers[w], seconds)
  }

  function LoadPhase(t: Turn, owner: string, ask: Ask): Phase {
    if t.claimedBy == Some(owner) && t.status == Running then Loaded(ask) else Failing(OtherError)
  }

  function NextDb(c: Config, s: State, op: Op): Db
    requires Wellformed(c, s.db) && Enabled(c, s, op)
  {
    match op
    case Claim(_, owner) => ClaimTx(c, s.db, owner, s.now)
    case Begin(w) => BeginTx(c, s.db, s.workers[w].owner, s.workers[w].phase.ask, s.now)
    case Store(w) => StoreTx(c, s.db, s.workers[w].phase.ask, s.workers[w].phase.response)
    case Apply(_, stale) => ApplyTx(s.db, stale)
    case Fail(w) => FailTx(c, s.db, s.now, s.workers[w].phase.code)
    case OtherCall(id) => s.db.(calls := s.db.calls + {id})
    case Elsewhere(o) => s.db.(ledger := Ledger.Step(s.db.ledger, o))
    case _ => s.db
  }

  function NextPhase(c: Config, s: State, op: Op): Phase
    requires Wellformed(c, s.db) && Enabled(c, s, op)
    requires op.Load? || op.Begin? || op.Invoke? || op.Return? || op.Store? || op.Apply? || op.Raise?
  {
    var p := s.workers[op.worker];
    match op
    case Load(_, ask) => LoadPhase(s.db.turn, p.owner, ask)
    case Begin(_) => BeginPhase(BeginVerdict(c, s.db, p.owner, p.phase.ask, s.now), p.phase.ask)
    case Invoke(_) => InFlight(p.phase.ask)
    case Return(_, response) => Answered(p.phase.ask, response)
    case Store(_) => if s.db.receipt.Some? then Failing(OtherError) else Decided(p.phase.response)
    case Apply(_, _) => Dispatching
    case Raise(_, code) => Failing(code)
  }

  function NextWorkers(c: Config, s: State, op: Op): map<nat, Process>
    requires Wellformed(c, s.db) && Enabled(c, s, op)
  {
    match op
    case Tick(seconds) => AgedAll(s.workers, seconds)
    case Claim(w, owner) => s.workers[w := Process(owner, Claimed, s.now, 0, 0)]
    case Finish(w) => s.workers - {w}
    case Fail(w) => s.workers - {w}
    case Crash(w) => s.workers - {w}
    case OtherCall(_) => s.workers
    case Elsewhere(_) => s.workers
    case _ => s.workers[op.worker := s.workers[op.worker].(phase := NextPhase(c, s, op))]
  }

  function Step(c: Config, s: State, op: Op): State
    requires Wellformed(c, s.db)
  {
    if !Enabled(c, s, op) then s
    else State(NextDb(c, s, op), NextWorkers(c, s, op),
               if op.Tick? then s.now + op.seconds else s.now,
               if op.Invoke? then s.invoked + 1 else s.invoked,
               if op.Return? then s.answers + [op.response] else s.answers)
  }

  lemma StepWellformed(c: Config, s: State, op: Op)
    requires Wellformed(c, s.db)
    ensures Wellformed(c, Step(c, s, op).db)
  {
    if Enabled(c, s, op) {
      match op
      case Begin(w) =>
        Ledger.StepValid(s.db.ledger, Ledger.Reserve(c.mission, RequestOf(c, s.workers[w].phase.ask, s.now), false));
      case Store(w) =>
        var r := s.workers[w].phase.response;
        Ledger.StepValid(s.db.ledger, Ledger.Reconcile(c.mission, c.action, Some(r.actual), r.unknown));
      case Fail(w) => Ledger.StepValid(s.db.ledger, Ledger.Reconcile(c.mission, c.action, None, true));
      case Elsewhere(o) => Ledger.StepValid(s.db.ledger, o);
      case _ =>
    }
  }

  function Run(c: Config, s: State, ops: seq<Op>): (t: State)
    requires Wellformed(c, s.db)
    ensures Wellformed(c, t.db)
  {
    if ops == [] then s
    else
      var before := Run(c, s, ops[..|ops| - 1]);
      StepWellformed(c, before, ops[|ops| - 1]);
      Step(c, before, ops[|ops| - 1])
  }

  /** A queued turn nobody has worked on, in any ledger that has its mission. */
  predicate Initial(c: Config, s: State) {
    && Wellformed(c, s.db)
    && s.db.turn.status == Queued && s.db.started.None? && s.db.receipt.None?
    && c.turnId !in s.db.calls && |s.db.calls| <= c.maxCalls
    && (forall r | r in s.db.ledger.rows :: r.action != c.action)
    && s.workers == map[] && s.invoked == 0 && s.answers == []
  }
}
