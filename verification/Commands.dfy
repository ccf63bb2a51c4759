/**
  The owner's commands on a mission: an expected version against lost updates and an
  idempotency key against repeats, checked in one order for directives and messages and
  in the other for the team.
 */
module Commands {
  datatype Kind = Directive | Message | Team

  /** The stored digest covers the whole request, so it stands for the request itself. */
  datatype Request = Request(kind: Kind, key: string, expectedVersion: nat, body: string)

  datatype Response = Response(version: nat, directive: nat, team: nat)

  datatype Answer = Done(response: Response) | VersionConflict | IdempotencyConflict | NoLongerAccepted

  datatype Stored = Stored(request: Request, response: Response)

  /** `applied` is the list of requests that took effect. */
  datatype State = State(
    version: nat, directive: nat, team: nat, open: bool, stored: map<(Kind, string), Stored>, applied: seq<Request>)

  datatype Outcome = Outcome(state: State, answer: Answer)

  function Effect(s: State, r: Request): State {
    var t := s.(version := s.version + 1,
                directive := if r.kind == Directive then s.directive + 1 else s.directive,
                team := if r.kind == Team then s.team + 1 else s.team,
                applied := s.applied + [r]);
    t.(stored := s.stored[(r.kind, r.key) := Stored(r, Response(t.version, t.directive, t.team))])
  }

  function ResponseOf(s: State, r: Request): Response
    requires (r.kind, r.key) in Effect(s, r).stored
  {
    Effect(s, r).stored[(r.kind, r.key)].response
  }

  /** The key first, then the version, then whether the mission still takes direction. */
  function KeyFirst(s: State, r: Request): Outcome {
    if (r.kind, r.key) in s.stored then
      if s.stored[(r.kind, r.key)].request == r then Outcome(s, Done(s.stored[(r.kind, r.key)].response))
      else Outcome(s, IdempotencyConflict)
    else if s.version != r.expectedVersion then Outcome(s, VersionConflict)
    else if !s.open then Outcome(s, NoLongerAccepted)
    else Outcome(Effect(s, r), Done(ResponseOf(s, r)))
  }

  /** The version first, then the key. */
  function VersionFirst(s: State, r: Request): Outcome {
    if s.version != r.expectedVersion then Outcome(s, VersionConflict)
    else if (r.kind, r.key) in s.stored then
      if s.stored[(r.kind, r.key)].request == r then Outcome(s, Done(s.stored[(r.kind, r.key)].response))
      else Outcome(s, IdempotencyConflict)
    else Outcome(Effect(s, r), Done(ResponseOf(s, r)))
  }

  function Execute(s: State, r: Request): Outcome {
    if r.kind == Team then VersionFirst(s, r) else KeyFirst(s, r)
  }

  /** A command, or another writer: the service bumps the version and opens or closes the mission. */
  datatype Op = Command(request: Request) | Elsewhere(bumps: nat, open: bool)

  function Step(s: State, op: Op): State {
    match op
    case Command(r) => Execute(s, r).state
    case Elsewhere(n, open) => s.(version := s.version + n, open := open)
  }

  function Run(s: State, ops: seq<Op>): State {
    if ops == [] then s else Step(Run(s, ops[..|ops| - 1]), ops[|ops| - 1])
  }

  predicate Initial(s: State) {
    s.stored == map[] && s.applied == []
  }

  predicate Applies(s: State, r: Request) {
    Execute(s, r).state != s
  }

  /** Stored requests are filed under their own key, expected an older version, and took effect. */
  predicate Inv(s: State) {
    && (forall k | k in s.stored ::
          var r := s.stored[k].request;
          (r.kind, r.key) == k && r.expectedVersion < s.version && r in s.applied)
    && (forall r | r in s.applied :: (r.kind, r.key) in s.stored && s.stored[(r.kind, r.key)].request == r)
    && (forall i, j | 0 <= i < j < |s.applied| :: (s.applied[i].kind, s.applied[i].key) != (s.applied[j].kind, s.applied[j].key))
  }

  lemma EffectInv(s: State, r: Request)
    requires Inv(s) && (r.kind, r.key) !in s.stored && s.version == r.expectedVersion
    ensures Inv(Effect(s, r))
  {
    var t := Effect(s, r);
    assert forall q | q in t.applied :: q in s.applied || q == r;
    assert r in t.applied && forall q | q in s.applied :: q in t.applied;
    forall i | 0 <= i < |s.applied| ensures (s.applied[i].kind, s.applied[i].key) != (r.kind, r.key) {
      assert s.applied[i] in s.applied;
    }
  }

  lemma StepInv(s: State, op: Op)
    requires Inv(s)
    ensures Inv(Step(s, op))
  {
    if op.Command? && Applies(s, op.request) {
      EffectInv(s, op.request);
    }
  }

  /** No command takes effect twice, however often and whenever it is sent. */
  lemma {:induction false} EachAppliesOnce(s: State, ops: seq<Op>)
    requires Initial(s)
    ensures Inv(Run(s, ops))
  {
    if ops != [] {
      EachAppliesOnce(s, ops[..|ops| - 1]);
      StepInv(Run(s, ops[..|ops| - 1]), ops[|ops| - 1]);
    }
  }

  lemma {:induction false} StoredForGood(s: State, ops: seq<Op>, k: (Kind, string))
    requires k in s.stored
    ensures k in Run(s, ops).stored && Run(s, ops).stored[k] == s.stored[k]
  {
    if ops != [] {
      StoredForGood(s, ops[..|ops| - 1], k);
    }
  }

  /**
    A repeated directive or message is answered as the first time and changes nothing,
    after any run, even when the mission has moved on or closed.
   */
  lemma RepeatIsAnsweredAlike(s: State, r: Request, ops: seq<Op>)
    requires r.kind != Team && Applies(s, r)
    ensures var t := Run(Execute(s, r).state, ops);
      Execute(t, r) == Outcome(t, Execute(s, r).answer)
  {
    StoredForGood(Execute(s, r).state, ops, (r.kind, r.key));
  }

  lemma {:induction false} VersionGrows(s: State, ops: seq<Op>)
    ensures Run(s, ops).version >= s.version
  {
    if ops != [] {
      VersionGrows(s, ops[..|ops| - 1]);
    }
  }

  /** A repeated team update changes nothing either, but it always gets a version conflict. */
  lemma RepeatedTeamUpdateConflicts(s: State, r: Request, ops: seq<Op>)
    requires r.kind == Team && Applies(s, r)
    ensures var t := Run(Execute(s, r).state, ops);
      Execute(t, r) == Outcome(t, VersionConflict)
  {
    VersionGrows(Execute(s, r).state, ops);
  }

  /**
    So in every reachable state a request already stored is answered with its stored
    response exactly when it is not a team update: that branch of the team handler is
    never taken.
   */
  lemma StoredResponseIsUsedExactly(s: State, ops: seq<Op>, r: Request)
    requires Initial(s)
    requires var t := Run(s, ops); (r.kind, r.key) in t.stored && t.stored[(r.kind, r.key)].request == r
    ensures var t := Run(s, ops);
      Execute(t, r) == Outcome(t, Done(t.stored[(r.kind, r.key)].response)) <==> r.kind != Team
  {
    EachAppliesOnce(s, ops);
  }

  // ------------------------------------------------------------------ what each command does

  predicate Taken(s: State, r: Request) {
    (r.kind, r.key) in s.stored
  }

  /** The request the mission has not seen, at its present version, and while it takes direction. */
  predicate Timely(s: State, r: Request) {
    !Taken(s, r) && r.expectedVersion == s.version && (r.kind == Team || s.open)
  }

  /**
    A command takes effect exactly if it is new, expects the present version and, unless it
    is about the team, the mission is open; then one version more says so.
   */
  lemma TakesEffectExactly(s: State, r: Request)
    ensures var o := Execute(s, r);
      && (o.state != s <==> Timely(s, r))
      && (Timely(s, r) ==>
            && o.state.version == s.version + 1 && o.state.open == s.open && o.state.applied == s.applied + [r]
            && o.state.directive == (if r.kind == Directive then s.directive + 1 else s.directive)
            && o.state.team == (if r.kind == Team then s.team + 1 else s.team)
            && o.answer == Done(Response(o.state.version, o.state.directive, o.state.team))
            && o.state.stored == s.stored[(r.kind, r.key) := Stored(r, Response(o.state.version, o.state.directive, o.state.team))])
  {
    var t := Execute(s, r).state;
    assert Timely(s, r) ==> t.version == s.version + 1;
  }

  /** Why a command that takes no effect is answered as it is; the team is checked for its version first. */
  lemma RefusedExactly(s: State, r: Request)
    requires !Timely(s, r)
    ensures var o, same := Execute(s, r), Taken(s, r) && s.stored[(r.kind, r.key)].request == r;
      && o.state == s
      && (r.kind != Team ==>
            && (same ==> o.answer == Done(s.stored[(r.kind, r.key)].response))
            && (Taken(s, r) && !same ==> o.answer == IdempotencyConflict)
            && (!Taken(s, r) && s.version != r.expectedVersion ==> o.answer == VersionConflict)
            && (!Taken(s, r) && s.version == r.expectedVersion ==> o.answer == NoLongerAccepted))
      && (r.kind == Team ==>
            && (s.version != r.expectedVersion ==> o.answer == VersionConflict)
            && (s.version == r.expectedVersion && same ==> o.answer == Done(s.stored[(r.kind, r.key)].response))
            && (s.version == r.expectedVersion && !same ==> o.answer == IdempotencyConflict))
  {
  }

  // ------------------------------------------------------------------ nothing is lost or counted twice

  function Count(applied: seq<Request>, kind: Kind): nat {
    if applied == [] then 0
    else Count(applied[..|applied| - 1], kind) + if applied[|applied| - 1].kind == kind then 1 else 0
  }

  /** What other writers added to the version. */
  function Bumps(ops: seq<Op>): nat {
    if ops == [] then 0
    else Bumps(ops[..|ops| - 1]) + if ops[|ops| - 1].Elsewhere? then ops[|ops| - 1].bumps else 0
  }

  lemma CountOneMore(applied: seq<Request>, r: Request, kind: Kind)
    ensures Count(applied + [r], kind) == Count(applied, kind) + if r.kind == kind then 1 else 0
  {
    assert (applied + [r])[..|applied|] == applied;
  }

  /** The numbers a mission shows are its first ones and one for each command of the kind that took effect. */
  lemma {:induction false} EffectsAreCounted(s: State, ops: seq<Op>)
    requires Initial(s)
    ensures var t := Run(s, ops);
      && t.directive == s.directive + Count(t.applied, Directive)
      && t.team == s.team + Count(t.applied, Team)
      && t.version == s.version + |t.applied| + Bumps(ops)
  {
    if ops != [] {
      EffectsAreCounted(s, ops[..|ops| - 1]);
      var before, op := Run(s, ops[..|ops| - 1]), ops[|ops| - 1];
      if op.Command? {
        TakesEffectExactly(before, op.request);
        CountOneMore(before.applied, op.request, Directive);
        CountOneMore(before.applied, op.request, Team);
      }
    }
  }

  /** The stored answer of the i-th effect. */
  ghost predicate Recorded(s: State, t: State, i: nat)
    requires i < |t.applied|
  {
    var r := t.applied[i];
    && (r.kind, r.key) in t.stored && t.stored[(r.kind, r.key)].request == r
    && var answer := t.stored[(r.kind, r.key)].response;
    && answer.version == r.expectedVersion + 1
    && answer.directive == s.directive + Count(t.applied[..i + 1], Directive)
    && answer.team == s.team + Count(t.applied[..i + 1], Team)
  }

  lemma RecordedNext(s: State, before: State, r: Request, i: nat)
    requires Inv(before) && Timely(before, r) && i < |before.applied| && Recorded(s, before, i)
    ensures i < |Execute(before, r).state.applied| && Recorded(s, Execute(before, r).state, i)
  {
    TakesEffectExactly(before, r);
    assert (before.applied + [r])[..i + 1] == before.applied[..i + 1];
  }

  lemma RecordedNow(s: State, before: State, r: Request)
    requires Timely(before, r)
    requires before.directive == s.directive + Count(before.applied, Directive) && before.team == s.team + Count(before.applied, Team)
    ensures |before.applied| < |Execute(before, r).state.applied| && Recorded(s, Execute(before, r).state, |before.applied|)
  {
    TakesEffectExactly(before, r);
    CountOneMore(before.applied, r, Directive);
    CountOneMore(before.applied, r, Team);
    assert (before.applied + [r])[..|before.applied| + 1] == before.applied + [r];
  }

  /**
    Every effect keeps, over every run, an answer that tells the version just after the
    expected one, and as many directives and teams as there had been by then.
   */
  lemma {:induction false} AnswersTellTheirMoment(s: State, ops: seq<Op>, i: nat)
    requires Initial(s) && i < |Run(s, ops).applied|
    ensures Recorded(s, Run(s, ops), i)
  {
    if ops != [] {
      var rest := ops[..|ops| - 1];
      var before, op := Run(s, rest), ops[|ops| - 1];
      EachAppliesOnce(s, rest);
      EffectsAreCounted(s, rest);
      if op.Command? && Timely(before, op.request) {
        TakesEffectExactly(before, op.request);
        if i < |before.applied| {
          AnswersTellTheirMoment(s, rest, i);
          RecordedNext(s, before, op.request, i);
        } else {
          RecordedNow(s, before, op.request);
        }
      } else {
        if op.Command? {
          RefusedExactly(before, op.request);
        }
        AnswersTellTheirMoment(s, rest, i);
      }
    }
  }

  class MissionApi {
    var version: nat
    var directive: nat
    var team: nat
    var open: bool
    var stored: map<(Kind, string), Stored>
    ghost var applied: seq<Request>

    ghost function View(): State
      reads this
    {
      State(version, directive, team, open, stored, applied)
    }

    constructor (version: nat)
      ensures Initial(View()) && this.version == version
    {
      this.version, directive, team, open := version, 1, 1, true;
      stored, applied := map[], [];
    }

    method Complete(r: Request) returns (answer: Answer)
      modifies this`version, this`stored, this`applied
      requires (r.kind, r.key) !in stored
      ensures version == old(version) + 1 && applied == old(applied) + [r]
      ensures stored == old(stored)[(r.kind, r.key) := Stored(r, Response(version, directive, team))]
      ensures answer == Done(Response(version, directive, team))
    {
      version := version + 1;
      var response := Response(version, directive, team);
      stored := stored[(r.kind, r.key) := Stored(r, response)];
      applied := applied + [r];
      answer := Done(response);
    }

    /** Directives and messages. */
    method Direct(r: Request) returns (answer: Answer)
      requires r.kind != Team
      modifies this
      ensures View() == Execute(old(View()), r).state && answer == Execute(old(View()), r).answer
    {
      if (r.kind, r.key) in stored {
        return if stored[(r.kind, r.key)].request == r then Done(stored[(r.kind, r.key)].response) else IdempotencyConflict;
      }
      if version != r.expectedVersion {
        return VersionConflict;
      }
      if !open {
        return NoLongerAccepted;
      }
      if r.kind == Directive {
        directive := directive + 1;
      }
      answer := Complete(r);
    }

    method UpdateTeam(r: Request) returns (answer: Answer)
      requires r.kind == Team
      modifies this
      ensures View() == Execute(old(View()), r).state && answer == Execute(old(View()), r).answer
    {
      if version != r.expectedVersion {
        return VersionConflict;
      }
      if (r.kind, r.key) in stored {
        return if stored[(r.kind, r.key)].request == r then Done(stored[(r.kind, r.key)].response) else IdempotencyConflict;
      }
      team := team + 1;
      answer := Complete(r);
    }
  }
}
