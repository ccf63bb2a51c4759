/** What a response does to the backlog, read off its rows. */
module ApplyEffects {
  import opened Wrappers
  import opened Decisions
  import opened Backlog
  import opened DispatchEffects

  /** The turn speaks for the present directive and team, and its wakeup for a run that ended as it says. */
  ghost predicate SpeaksForNow(s: State, turn: Turn) {
    && turn.directive == s.mission.directive && turn.team == s.mission.team
    && forall wk | turn.wakeup == Some(wk) && wk in s.wakeups && wk.RunTerminal? ::
         exists k | k in s.items ::
           && s.wakeups[wk].target == Some(k)
           && s.items[k].run.Some? && s.items[k].run == s.wakeups[wk].source
           && s.items[k].cursor == Some(s.wakeups[wk].cursor)
           && s.items[k].lifecycle in {Accepted, ItemLifecycle.Blocked, ItemLifecycle.Cancelled}
  }

  /** Every row it names may still be planned, and it repeats no dependency. */
  predicate Plannable(s: State, d: Decision) {
    && (forall p | p in d.items && p.key in s.items :: s.items[p.key].lifecycle in {Pending, Ready})
    && (forall p, i, j | p in d.items && 0 <= i < j < |p.dependencies| :: p.dependencies[i] != p.dependencies[j])
  }

  predicate AddsNone(s: State, d: Decision) {
    forall p | p in d.items :: p.key in s.items
  }

  lemma SpeaksForNowIs(s: State, turn: Turn)
    ensures SpeaksForNow(s, turn) <==> Governs(s, turn) && WakeupValid(s, turn)
  {
    if turn.wakeup.Some? && turn.wakeup.value in s.wakeups && turn.wakeup.value.RunTerminal? && WakeupHolds(s, turn.wakeup.value) {
      var k := s.wakeups[turn.wakeup.value].target.value;
      assert s.wakeups[turn.wakeup.value].target == Some(k);
    }
  }

  lemma AddsNoneIs(s: State, d: Decision)
    ensures AddsNone(s, d) <==> Keys(d.items) <= s.items.Keys
  {
    if Keys(d.items) <= s.items.Keys {
      forall p | p in d.items ensures p.key in s.items {
        assert p.key in Keys(d.items);
      }
    }
  }

  lemma VerdictExactly(s: State, turn: Turn, d: Decision, admitted: bool)
    ensures ApplyVerdict(s, turn, d, admitted) == WentStale <==> !SpeaksForNow(s, turn)
    ensures ApplyVerdict(s, turn, d, admitted) == AppliedNow
            <==> SpeaksForNow(s, turn) && (AddsNone(s, d) || admitted) && Plannable(s, d)
  {
    SpeaksForNowIs(s, turn);
    AddsNoneIs(s, d);
    if Plannable(s, d) {
      forall p | p in d.items ensures Updatable(s.items, p) && NoRepeats(p) {}
    } else if forall p | p in d.items :: Updatable(s.items, p) && NoRepeats(p) {
      assert Plannable(s, d);
    }
  }

  /**
    An open turn goes stale exactly when it no longer speaks for the present, takes effect
    exactly when besides its rows may be planned and paid for, and otherwise leaves no trace.
   */
  lemma TakesEffectExactly(s: State, t: TurnId, d: Decision, admitted: bool)
    requires t in s.turns && s.turns[t].status == TurnOpen
    ensures var u := Step(s, Apply(t, d, admitted));
      && t in u.turns
      && (u.turns[t].status == TurnStale <==> !SpeaksForNow(s, s.turns[t]))
      && (u.turns[t].status == TurnApplied
          <==> SpeaksForNow(s, s.turns[t]) && (AddsNone(s, d) || admitted) && Plannable(s, d))
      && (u.turns[t].status !in {TurnStale, TurnApplied} ==> u == s)
  {
    VerdictExactly(s, s.turns[t], d, admitted);
  }

  /** A stale turn is marked, its wakeup with it, and nothing else happens. */
  lemma StaleTurnIsMarked(s: State, t: TurnId, d: Decision, admitted: bool)
    requires t in s.turns && !SpeaksForNow(s, s.turns[t])
    ensures var u := Step(s, Apply(t, d, admitted));
      && u == s.(turns := u.turns, wakeups := u.wakeups, cursor := s.cursor + 1)
      && u.turns == s.turns[t := s.turns[t].(status := TurnStale)]
      && u.wakeups.Keys == s.wakeups.Keys
      && forall wk | wk in s.wakeups ::
           u.wakeups[wk] == if s.turns[t].wakeup == Some(wk) then s.wakeups[wk].(status := WakeupStale) else s.wakeups[wk]
  {
    VerdictExactly(s, s.turns[t], d, admitted);
  }

  /** The response takes effect in this state. */
  ghost predicate TakesEffect(s: State, t: TurnId, d: Decision, admitted: bool) {
    && t in s.turns && DistinctKeys(d.items)
    && SpeaksForNow(s, s.turns[t]) && (AddsNone(s, d) || admitted) && Plannable(s, d)
  }

  lemma EffectIsCommit(s: State, t: TurnId, d: Decision, admitted: bool)
    requires TakesEffect(s, t, d, admitted)
    ensures Step(s, Apply(t, d, admitted)) == Commit(s, t, d)
  {
    VerdictExactly(s, s.turns[t], d, admitted);
  }

  lemma {:induction false} ProposedIs(items: seq<Proposal>, p: Proposal)
    requires DistinctKeys(items) && p in items
    ensures p.key in Keys(items) && Proposed(items, p.key) == p
  {
    var q := Proposed(items, p.key);
    var i :| 0 <= i < |items| && items[i] == p;
    var j :| 0 <= j < |items| && items[j] == q;
    assert !(i < j) && !(j < i);
  }

  /**
    Every proposal of a response that takes effect is written out: its content, the turn it
    comes from, and ready exactly without dependencies. A row that was there keeps its run
    and its event and gets a new version.
   */
  lemma ProposalIsWritten(s: State, t: TurnId, d: Decision, admitted: bool, p: Proposal)
    requires TakesEffect(s, t, d, admitted) && p in d.items
    ensures var u := Step(s, Apply(t, d, admitted));
      && p.key in u.items
      && u.items[p.key].body == p.body && u.items[p.key].priority == p.priority
      && u.items[p.key].directive == s.turns[t].directive && u.items[p.key].team == s.turns[t].team
      && u.items[p.key].sourceWakeup == s.turns[t].wakeup
      && u.items[p.key].lifecycle == (if |p.dependencies| == 0 then Ready else Pending)
      && (p.key in s.items ==>
            && u.items[p.key].run == s.items[p.key].run && u.items[p.key].cursor == s.items[p.key].cursor
            && u.items[p.key].version == s.items[p.key].version + 1)
      && (p.key !in s.items ==> u.items[p.key].run.None? && u.items[p.key].cursor.None? && u.items[p.key].version == 0)
  {
    EffectIsCommit(s, t, d, admitted);
    ProposedIs(d.items, p);
  }

  /** Other rows stay as they were, and a row waits for exactly what its latest proposal says. */
  lemma OnlyProposalsAreWritten(s: State, t: TurnId, d: Decision, admitted: bool)
    requires TakesEffect(s, t, d, admitted)
    ensures var u := Step(s, Apply(t, d, admitted));
      && (forall k :: k in u.items <==> k in s.items || exists p | p in d.items :: p.key == k)
      && (forall k | k in s.items && (forall p | p in d.items :: p.key != k) :: u.items[k] == s.items[k])
      && (forall p, k | p in d.items :: (p.key, k) in u.deps <==> k in p.dependencies)
      && (forall e: (Key, Key) | (forall p | p in d.items :: p.key != e.0) :: e in u.deps <==> e in s.deps)
  {
    EffectIsCommit(s, t, d, admitted);
    var u := Commit(s, t, d);
    forall p, k | p in d.items ensures (p.key, k) in u.deps <==> k in p.dependencies {
      assert p.key in Keys(d.items);
      if (p.key, k) in Edges(d.items) {
        var q, x :| q in d.items && x in q.dependencies && (p.key, k) == (q.key, x);
        ProposedIs(d.items, p);
        ProposedIs(d.items, q);
      }
    }
    forall e: (Key, Key) | (forall p | p in d.items :: p.key != e.0) ensures e in u.deps <==> e in s.deps {
      assert e.0 !in Keys(d.items);
    }
  }

  /** The label is the response's, the wakeup is done with, and a deadline is kept once. */
  lemma TurnIsClosed(s: State, t: TurnId, d: Decision, admitted: bool)
    requires TakesEffect(s, t, d, admitted)
    ensures var u := Step(s, Apply(t, d, admitted));
      && u.mission == s.mission.(lifecycle := d.lifecycle, version := s.mission.version + 1)
      && u.turns == s.turns[t := s.turns[t].(status := TurnApplied)]
      && u.cursor == s.cursor + |d.items| + 1
      && u.runs == s.runs && u.jobs == s.jobs && u.launches == s.launches && u.serial == s.serial
      && (forall wk | wk in s.wakeups ::
            wk in u.wakeups
            && u.wakeups[wk] == if s.turns[t].wakeup == Some(wk) then s.wakeups[wk].(status := Committed) else s.wakeups[wk])
      && (forall wk | wk in u.wakeups && wk !in s.wakeups ::
            && d.scheduledWakeupAt.Some? && wk == Deadline(t, d.scheduledWakeupAt.value)
            && u.wakeups[wk] == Wakeup(s.mission.directive, s.mission.team, s.turns[t].cursor, None, None, WakeupPending))
      && (d.scheduledWakeupAt.Some? ==> Deadline(t, d.scheduledWakeupAt.value) in u.wakeups)
  {
    EffectIsCommit(s, t, d, admitted);
  }

  /**
    Work that waits for nothing can be dispatched at once: in an autonomous mission left
    active or idle, with room for one more, the next dispatch of it starts it.
   */
  lemma ProposedWorkCanStart(s: State, t: TurnId, d: Decision, admitted: bool, p: Proposal, limit: nat)
    requires TakesEffect(s, t, d, admitted) && p in d.items && p.dependencies == []
    requires s.mission.autonomous && d.lifecycle in {Active, Idle}
    ensures var u := Step(s, Apply(t, d, admitted));
      && p.key in u.items && (|AtWork(u)| < limit ==> Starts(u, p.key, Step(u, Dispatch(p.key, Open, limit))))
  {
    ProposalIsWritten(s, t, d, admitted, p);
    TurnIsClosed(s, t, d, admitted);
    var u := Step(s, Apply(t, d, admitted));
    if |AtWork(u)| < limit {
      StartsExactly(u, p.key, Open, limit);
    }
  }
}
