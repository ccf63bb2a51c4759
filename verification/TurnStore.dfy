/** The rows of one management turn and the transactions that change them. */
module TurnStore {
  import opened Wrappers
  import Ledger
  import opened Turns

  class TurnStore {
    const config: Config
    var turn: Turn
    var started: Option<Started>
    var receipt: Option<Receipt>
    var calls: set<string>
    var ledger: Ledger.State

    function View(): Db
      reads this
    {
      Db(turn, started, receipt, calls, ledger)
    }

    constructor (config: Config, now: int, ledger: Ledger.State)
      requires Wellformed(config, Db(Turn(Queued, None, None, now, 0), None, None, {}, ledger))
      requires forall r | r in ledger.rows :: r.action != config.action
      ensures this.config == config && Wellformed(config, View())
      ensures Initial(config, State(View(), map[], now, 0, []))
    {
      this.config := config;
      this.ledger := ledger;
      turn, started, receipt, calls := Turn(Queued, None, None, now, 0), None, None, {};
    }

    /** Takes the turn if it is due and free, or if its lease has lapsed. */
    method Claim(owner: string, now: int) returns (claimed: bool)
      modifies this`turn
      ensures claimed <==> Claimable(old(turn), now)
      ensures View() == if claimed then ClaimTx(config, old(View()), owner, now) else old(View())
    {
      if turn.claimableAt > now {
        return false;
      }
      claimed := turn.status == Queued || (turn.status == Running && turn.leaseUntil.Some? && turn.leaseUntil.value < now);
      if claimed {
        turn := turn.(status := Running);
        turn := turn.(claimedBy := Some(owner));
        turn := turn.(leaseUntil := Some(now + config.lease));
        turn := turn.(attempts := turn.attempts + 1);
      }
    }

    /**
      The transaction before the call: the claim, the reservation, a stored receipt, a
      started record, the cap. Everything written is taken back if it raises.
     */
    method Begin(owner: string, ask: Ask, now: int) returns (phase: Phase)
      requires Wellformed(config, View())
      modifies this`started, this`calls, this`ledger
      ensures View() == BeginTx(config, old(View()), owner, ask, now)
      ensures phase == BeginPhase(BeginVerdict(config, old(View()), owner, ask, now), ask)
    {
      var before := ledger;
      if turn.claimedBy != Some(owner) {
        return Failing(OtherError);
      }
      var request := RequestOf(config, ask, now);
      if Ledger.Attempted(ledger, config.mission, request).denial.Some? {
        return Failing(OtherError);
      }
      ledger := Ledger.ReserveTx(ledger, config.mission, request, false);
      if receipt.Some? {
        if receipt.value.digest != ask.digest {
          ledger := before;
          return Failing(OtherError);
        }
        return Decided(receipt.value.response);
      }
      if started.Some? {
        ledger := before;
        return Failing(ReconciliationRequired);
      }
      if |calls| >= config.maxCalls {
        ledger := before;
        return Failing(OtherError);
      }
      calls := calls + {config.turnId};
      started := Some(Started(request, before.missions[config.mission].team));
      phase := Calling(ask);
    }

    /** The transaction after the call: the receipt and the settlement, or neither. */
    method Store(ask: Ask, response: Response) returns (stored: bool)
      requires Wellformed(config, View())
      modifies this`receipt, this`ledger
      ensures stored <==> old(receipt).None?
      ensures View() == StoreTx(config, old(View()), ask, response)
    {
      if receipt.Some? {
        return false;
      }
      receipt := Some(Receipt(ask.digest, response));
      ledger := Ledger.Step(ledger, Ledger.Reconcile(config.mission, config.action, Some(response.actual), response.unknown));
      stored := true;
    }

    /** Marks the turn applied or stale. */
    method Apply(stale: bool)
      modifies this`turn
      ensures View() == ApplyTx(old(View()), stale)
    {
      turn := turn.(status := if stale then Stale else Applied);
    }

    /** After an exception: leave a decided turn, or queue it again, or give it up. */
    method Fail(now: int, code: Code)
      requires Wellformed(config, View())
      modifies this`turn, this`ledger
      ensures View() == FailTx(config, old(View()), now, code)
    {
      if turn.status in {Applied, Stale} {
        return;
      }
      if code == AdmissionPaused {
        turn := Turn(Queued, None, None, now + 5, if turn.attempts > 0 then turn.attempts - 1 else 0);
        return;
      }
      if started.Some? && receipt.None? {
        ledger := Ledger.Step(ledger, Ledger.Reconcile(config.mission, config.action, None, true));
      }
      if turn.attempts < config.maxAttempts && code !in {PaidNotAuthorized, ReconciliationRequired} {
        turn := Turn(Queued, None, None, now + Backoff(turn.attempts), turn.attempts);
        return;
      }
      turn := turn.(status := Failed);
    }
  }

  // ------------------------------------------------------------------ the context of a call

  /** The encoded snapshot with this tail of the messages and the first fifty items is small enough. */
  predicate Fits<M>(tail: seq<M>, backlog: seq<M>, encoded: (seq<M>, seq<M>) -> nat, contextLimit: nat) {
    var size := encoded(tail, if |backlog| <= 50 then backlog else backlog[..50]);
    size <= 3 * contextLimit && size <= 1_000_000
  }

  /**
    Drops the oldest messages until the encoded snapshot fits: what is kept is the longest
    tail of the last twenty that fits, and it is refused exactly when no tail does.
   */
  method BoundedSnapshot<M>(messages: seq<M>, backlog: seq<M>, encoded: (seq<M>, seq<M>) -> nat, contextLimit: nat)
    returns (kept: Option<seq<M>>)
    ensures kept.Some? ==>
              exists k | 0 <= k <= |messages| && |messages| - k <= 20 ::
                && kept.value == messages[k..] && Fits(messages[k..], backlog, encoded, contextLimit)
                && forall j | 0 <= j < k && |messages| - j <= 20 :: !Fits(messages[j..], backlog, encoded, contextLimit)
    ensures kept.None? ==>
              forall j | 0 <= j <= |messages| && |messages| - j <= 20 :: !Fits(messages[j..], backlog, encoded, contextLimit)
  {
    var items := if |backlog| > 50 then backlog[..50] else backlog;
    var maximum := if contextLimit * 3 < 1_000_000 then contextLimit * 3 else 1_000_000;
    var first := if |messages| > 20 then |messages| - 20 else 0;
    var recent := messages[first..];
    var k := first;
    while encoded(recent, items) > maximum && recent != []
      invariant first <= k <= |messages| && recent == messages[k..]
      invariant forall j | first <= j < k :: !Fits(messages[j..], backlog, encoded, contextLimit)
      decreases |recent|
    {
      recent := recent[1..];
      k := k + 1;
    }
    kept := if encoded(recent, items) > maximum then None else Some(recent);
  }
}
