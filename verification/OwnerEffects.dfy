/** What messages, wakeups, failed turns, revisions and labels do to a mission. */
module OwnerEffects {
  import opened Wrappers
  import opened Decisions
  import opened Backlog
  import DispatchEffects

  /** The mission takes no more direction. */
  predicate Over(m: Mission) {
    m.lifecycle in {Cancelling, MissionLifecycle.Cancelled, MissionLifecycle.Completed, Archived}
  }

  /** A message opens a turn under the directive and team of the moment, unless the mission is over. */
  lemma MessageOpensTurn(s: State)
    ensures var u, t := Step(s, Message), ForMessage(s.serial);
      && (Over(s.mission) ==> u == s)
      && (!Over(s.mission) ==>
            && t in u.turns && u.turns == s.turns[t := u.turns[t]]
            && u.turns[t].directive == s.mission.directive && u.turns[t].team == s.mission.team
            && u.turns[t].wakeup == Some(UserDirection(s.serial)) && u.turns[t].cursor == s.cursor && u.turns[t].status == TurnOpen
            && UserDirection(s.serial) in u.wakeups && u.wakeups == s.wakeups[UserDirection(s.serial) := u.wakeups[UserDirection(s.serial)]]
            && u.wakeups[UserDirection(s.serial)].status == TurnQueued
            && u.wakeups[UserDirection(s.serial)].directive == s.mission.directive
            && u.wakeups[UserDirection(s.serial)].team == s.mission.team
            && u == s.(turns := u.turns, wakeups := u.wakeups, serial := s.serial + 1, cursor := s.cursor + 1,
                       mission := s.mission.(version := s.mission.version + 1)))
  {
  }

  /** A pending wakeup that the mission, which is autonomous and not held, may act on. */
  predicate Actable(s: State, wk: WakeupKey) {
    && wk in s.wakeups && s.wakeups[wk].status == WakeupPending
    && s.mission.autonomous && s.mission.lifecycle != Paused && !Over(s.mission)
  }

  predicate Outdated(s: State, wk: WakeupKey)
    requires wk in s.wakeups
  {
    s.wakeups[wk].directive != s.mission.directive || s.wakeups[wk].team != s.mission.team
  }

  predicate Busy(s: State) {
    exists t | t in s.turns :: s.turns[t].status == TurnOpen
  }

  /** Only the status of this wakeup has changed. */
  predicate Marked(s: State, u: State, wk: WakeupKey, status: WakeupStatus)
    requires wk in s.wakeups
  {
    u.wakeups == s.wakeups[wk := s.wakeups[wk].(status := status)]
  }

  /** The wakeup's turn, under the directive and team of the moment and about its event; no other is open. */
  predicate OneTurnOpens(s: State, u: State, wk: WakeupKey)
    requires wk in s.wakeups
  {
    var t := ForWakeup(wk);
    if t in s.turns then u.turns == s.turns
    else
      && u.turns == s.turns[t := Turn(s.mission.directive, s.mission.team, Some(wk), s.wakeups[wk].cursor, TurnOpen)]
      && forall x | x in u.turns && u.turns[x].status == TurnOpen :: x == t
  }

  /**
    A wakeup that may be acted on is dropped if the directive or the team has moved, waits
    while a turn is open, and otherwise becomes the one open turn, about the same event.
   */
  lemma WakeupBecomesTurnExactly(s: State, wk: WakeupKey, admitted: bool)
    ensures var u := Step(s, Materialize(wk, admitted));
      && (!Actable(s, wk) || !admitted ==> u == s)
      && (Actable(s, wk) && admitted && Outdated(s, wk) ==> Marked(s, u, wk, WakeupStale) && u == s.(wakeups := u.wakeups))
      && (Actable(s, wk) && admitted && !Outdated(s, wk) && Busy(s) ==> u == s)
      && (Actable(s, wk) && admitted && !Outdated(s, wk) && !Busy(s) ==>
            Marked(s, u, wk, TurnQueued) && OneTurnOpens(s, u, wk) && u == s.(wakeups := u.wakeups, turns := u.turns))
  {
    assert Step(s, Materialize(wk, admitted)) == MaterializeTx(s, wk, admitted);
    if Actable(s, wk) && admitted && !Outdated(s, wk) && !Busy(s) {
      WakeupOpens(s, wk);
    }
  }

  lemma WakeupOpens(s: State, wk: WakeupKey)
    requires Actable(s, wk) && !Outdated(s, wk) && !Busy(s)
    ensures var u := MaterializeTx(s, wk, true);
      Marked(s, u, wk, TurnQueued) && OneTurnOpens(s, u, wk) && u == s.(wakeups := u.wakeups, turns := u.turns)
  {
  }

  /** A turn that fails for good takes its wakeup with it, and blocks the mission if a budget failed. */
  lemma FailureIsRecorded(s: State, t: TurnId, block: bool)
    ensures var u := Step(s, FailTurn(t, block));
      && (t !in s.turns || s.turns[t].status in {TurnApplied, TurnStale} ==> u == s)
      && (t in s.turns && s.turns[t].status in {TurnOpen, TurnFailed} ==>
            && u.turns == s.turns[t := s.turns[t].(status := TurnFailed)]
            && u.wakeups.Keys == s.wakeups.Keys
            && (forall wk | wk in s.wakeups ::
                  u.wakeups[wk] == if s.turns[t].wakeup == Some(wk) then s.wakeups[wk].(status := WakeupFailed) else s.wakeups[wk])
            && u.mission == s.mission.(lifecycle := if block then MissionLifecycle.Blocked else s.mission.lifecycle)
            && u == s.(turns := u.turns, wakeups := u.wakeups, mission := u.mission, cursor := s.cursor + 1))
  {
    assert Step(s, FailTurn(t, block)) == FailTurnTx(s, t, block);
  }

  /** The owner's revisions change what they name, and a new version says so. */
  lemma RevisionsAreVersioned(s: State, team: nat, l: MissionLifecycle, autonomous: bool)
    ensures Step(s, ReviseDirective)
         == if Over(s.mission) then s
            else s.(mission := Mission(s.mission.lifecycle, s.mission.autonomous, s.mission.directive + 1, s.mission.team, s.mission.version + 1),
                    cursor := s.cursor + 1)
    ensures Step(s, ReviseTeam(team))
         == s.(mission := Mission(s.mission.lifecycle, s.mission.autonomous, s.mission.directive, team, s.mission.version + 1),
               cursor := s.cursor + 1)
    ensures Step(s, Control(l, autonomous))
         == s.(mission := Mission(l, autonomous, s.mission.directive, s.mission.team, s.mission.version + 1), cursor := s.cursor + 1)
  {
  }

  /**
    A revised directive stops the old plan: no dispatch starts an item planned before it,
    and the turn that was open under it goes stale.
   */
  lemma RevisionStopsTheOldPlan(s: State, k: Key, gate: DispatchGate, limit: nat, t: TurnId, d: Decision, admitted: bool)
    requires !Over(s.mission) && k in s.items && s.items[k].directive <= s.mission.directive
    requires t in s.turns && s.turns[t].directive <= s.mission.directive
    ensures var u := Step(s, ReviseDirective);
      && Step(u, Dispatch(k, gate, limit)) == u
      && t in Step(u, Apply(t, d, admitted)).turns && Step(u, Apply(t, d, admitted)).turns[t].status == TurnStale
      && Step(u, Apply(t, d, admitted)).items == s.items
  {
    var u := Step(s, ReviseDirective);
    assert u.mission.directive == s.mission.directive + 1 && u.items == s.items && u.turns == s.turns;
    assert ApplyVerdict(u, u.turns[t], d, admitted) == WentStale;
  }

  /** A worker's run that has not come to an end. */
  predicate Running(s: State, k: Key) {
    && k in s.items && s.items[k].run.Some? && s.items[k].run.value in s.runs
    && s.runs[s.items[k].run.value] in {Queued, RunStatus.Running, ApprovalRequired}
  }

  /** Waiting for a slot labels the mission, and taking it unlabels it. */
  lemma SlotsLabel(s: State, k: Key, stopped: bool)
    ensures Step(s, AwaitSlot(k, stopped))
         == if Running(s, k) && !stopped then s.(mission := s.mission.(lifecycle := WaitingForCapacity)) else s
    ensures Step(s, TakeSlot(k))
         == if Running(s, k) && s.mission.lifecycle == WaitingForCapacity then s.(mission := s.mission.(lifecycle := Active)) else s
  {
    RunningIs(s, k);
  }

  lemma RunningIs(s: State, k: Key)
    ensures Running(s, k) <==> Executing(s, k)
  {
    if k in s.items && s.items[k].run.Some? && s.items[k].run.value in s.runs {
      DispatchEffects.StatusAtWork(s.runs[s.items[k].run.value]);
    }
  }
}
