/** Wakeups for finished runs: exactly one each, and never refused when applied. */
module BacklogWakeups {
  import opened Wrappers
  import opened Decisions
  import opened Backlog
  import opened BacklogSafety
  import opened BacklogTheorems

  /** The wakeup agrees with the row it is about. */
  ghost predicate Matches(s: State, wk: WakeupKey)
    requires wk in s.wakeups && wk.RunTerminal?
  {
    var w := s.wakeups[wk];
    && WakeupHolds(s, wk)
    && w.source == Some(wk.run)
    && s.items[w.target.value].lifecycle == wk.outcome
  }

  ghost predicate WakeInv(s: State) {
    forall wk | wk in s.wakeups && wk.RunTerminal? :: Matches(s, wk)
  }

  /** No new run wakeups, and old ones changed at most in status. */
  ghost predicate WakeupsKept(s: State, t: State) {
    forall wk | wk in t.wakeups && wk.RunTerminal? ::
      wk in s.wakeups && t.wakeups[wk].(status := WakeupPending) == s.wakeups[wk].(status := WakeupPending)
  }

  lemma KeepWakeInv(s: State, t: State)
    requires WakeInv(s) && TerminalKept(s, t) && WakeupsKept(s, t)
    ensures WakeInv(t)
  {
    forall wk | wk in t.wakeups && wk.RunTerminal? ensures Matches(t, wk) {
      assert Matches(s, wk);
      assert t.wakeups[wk] == s.wakeups[wk].(status := t.wakeups[wk].status);
    }
  }

  lemma ApplyWakeupsKept(s: State, t: TurnId, d: Decision, admitted: bool)
    requires t in s.turns
    ensures WakeupsKept(s, ApplyTx(s, t, d, admitted))
  {
  }

  /** What a step that is neither an application nor a reconciliation leads to. */
  function OtherTx(s: State, op: Op): State
    requires !op.Reconcile? && !op.Apply?
  {
    if op.Dispatch? then DispatchTx(s, op.key, op.gate, op.activeLimit)
    else if IsLaunch(op) then LaunchTx(s, op)
    else if IsTurn(op) then TurnTx(s, op) else OwnerTx(s, op)
  }

  lemma TurnWakeupsKept(s: State, op: Op)
    requires IsTurn(op)
    ensures WakeupsKept(s, TurnTx(s, op))
  {
  }

  lemma DispatchWakeupsSame(s: State, k: Key, gate: DispatchGate, limit: nat)
    ensures DispatchTx(s, k, gate, limit).wakeups == s.wakeups
  {
  }

  lemma LaunchWakeupsSame(s: State, op: Op)
    requires IsLaunch(op)
    ensures LaunchTx(s, op).wakeups == s.wakeups
  {
  }

  lemma OwnerWakeupsSame(s: State, op: Op)
    ensures OwnerTx(s, op).wakeups == s.wakeups
  {
  }

  lemma OtherWakeupsSame(s: State, op: Op)
    requires !op.Reconcile? && !op.Apply? && !IsTurn(op)
    ensures OtherTx(s, op).wakeups == s.wakeups
  {
    if op.Dispatch? {
      DispatchWakeupsSame(s, op.key, op.gate, op.activeLimit);
    } else if IsLaunch(op) {
      LaunchWakeupsSame(s, op);
    } else {
      OwnerWakeupsSame(s, op);
    }
  }

  lemma RestWakeupsKept(s: State, op: Op)
    requires !op.Reconcile? && !op.Apply?
    ensures WakeupsKept(s, OtherTx(s, op))
  {
    if IsTurn(op) {
      TurnWakeupsKept(s, op);
    } else {
      OtherWakeupsSame(s, op);
    }
  }

  // ------------------------------------------------------------------ what reconciliation announces

  function KeyOf(s: State, k: Key): WakeupKey
    requires k in s.items && s.items[k].run.Some?
  {
    RunTerminal(s.items[k].run.value, s.items[k].lifecycle)
  }

  /** Rows about to be announced: terminal, with distinct runs nobody has been woken for. */
  ghost predicate Announceable(s: State, done: seq<Key>) {
    && (forall k | k in done :: k in s.items && s.items[k].run.Some? && Terminal(s.items[k].lifecycle))
    && (forall i, j | 0 <= i < j < |done| :: s.items[done[i]].run != s.items[done[j]].run)
    && (forall k, wk | k in done && wk in s.wakeups && wk.RunTerminal? ::
          wk.run != s.items[k].run.value && s.wakeups[wk].target != Some(k))
  }

  ghost predicate Announced(s: State, t: State, done: seq<Key>)
    requires forall k | k in done :: k in s.items && s.items[k].run.Some?
  {
    && WakeInv(t)
    && (forall wk | wk in t.wakeups && wk.RunTerminal? && wk !in s.wakeups ::
          t.wakeups[wk].target.Some? && t.wakeups[wk].target.value in done && wk == KeyOf(s, t.wakeups[wk].target.value))
    && (Wakeable(s.mission) ==> Wakeable(t.mission))
    && (Wakeable(s.mission) ==> forall k | k in done ::
          KeyOf(s, k) in t.wakeups && t.wakeups[KeyOf(s, k)].target == Some(k))
  }

  lemma NotYetTold(s: State, t: State, done: seq<Key>, k: Key)
    requires Announceable(s, done + [k]) && OnlyAnnounced(s, t, done)
    requires forall l | l in done :: l in s.items && s.items[l].run.Some?
    requires Announced(s, t, done)
    ensures k !in done
    ensures forall x | x in t.wakeups && x.RunTerminal? ::
              x.run != s.items[k].run.value && t.wakeups[x].target != Some(k)
  {
    var next := done + [k];
    assert next[|done|] == k && k in next;
    forall i | 0 <= i < |done| ensures done[i] != k && s.items[done[i]].run != s.items[k].run {
      assert next[i] == done[i];
      assert s.items[next[i]].run != s.items[next[|done|]].run;
    }
    forall x | x in t.wakeups && x.RunTerminal?
      ensures x.run != s.items[k].run.value && t.wakeups[x].target != Some(k)
    {
      if x in s.wakeups {
        assert t.wakeups[x] == s.wakeups[x];
      } else {
        var l := t.wakeups[x].target.value;
        var i :| 0 <= i < |done| && done[i] == l;
        assert x == KeyOf(s, l);
      }
    }
  }

  /** Writing one row's cursor and possibly its wakeup keeps every wakeup truthful. */
  lemma TellOne(t: State, k: Key)
    requires WakeInv(t) && k in t.items && t.items[k].run.Some? && Terminal(t.items[k].lifecycle)
    requires forall x | x in t.wakeups && x.RunTerminal? ::
               x.run != t.items[k].run.value && t.wakeups[x].target != Some(k)
    ensures WakeInv(AnnounceOne(t, k))
  {
    var u := AnnounceOne(t, k);
    var wk := KeyOf(t, k);
    assert wk !in t.wakeups;
    forall x | x in u.wakeups && x.RunTerminal? ensures Matches(u, x) {
      if x != wk {
        assert x in t.wakeups && u.wakeups[x] == t.wakeups[x] && Matches(t, x);
      }
    }
  }

  /** The wakeups and the mission after telling one more. */
  ghost predicate ToldOne(t: State, u: State, k: Key)
    requires k in t.items && t.items[k].run.Some?
  {
    && WakeInv(u) && u.mission == MissionAfter(t, k) && u.wakeups == WakeupsAfter(t, k)
  }

  lemma ToldNext(s: State, t: State, u: State, done: seq<Key>, k: Key)
    requires forall l | l in done + [k] :: l in s.items && s.items[l].run.Some?
    requires Announced(s, t, done) && k in t.items && t.items[k] == s.items[k] && ToldOne(t, u, k)
    requires forall x | x in t.wakeups && x.RunTerminal? :: x.run != s.items[k].run.value
    ensures Announced(s, u, done + [k])
  {
    assert forall l | l in done + [k] :: l == k || l in done;
    assert k in done + [k];
    assert KeyOf(t, k) == KeyOf(s, k) && KeyOf(s, k) !in t.wakeups;
  }

  lemma AnnounceNext(s: State, t: State, done: seq<Key>, k: Key)
    requires Announceable(s, done + [k]) && OnlyAnnounced(s, t, done)
    requires forall l | l in done :: l in s.items && s.items[l].run.Some?
    requires Announced(s, t, done)
    requires k in t.items && t.items[k].run.Some?
    ensures Announced(s, AnnounceOne(t, k), done + [k])
  {
    NotYetTold(s, t, done, k);
    assert k in done + [k];
    TellOne(t, k);
    ToldNext(s, t, AnnounceOne(t, k), done, k);
  }

  lemma {:induction false} AnnounceAll(s: State, done: seq<Key>)
    requires WakeInv(s) && Announceable(s, done)
    ensures Announced(s, Announce(s, done), done)
  {
    if done != [] {
      var rest, k := done[..|done| - 1], done[|done| - 1];
      assert done == rest + [k] && k in done;
      assert forall x | x in rest :: x in done;
      assert Announceable(s, rest) by {
        forall i, j | 0 <= i < j < |rest| ensures s.items[rest[i]].run != s.items[rest[j]].run {
          assert rest[i] == done[i] && rest[j] == done[j];
        }
      }
      AnnounceAll(s, rest);
      AnnounceFrame(s, rest);
      AnnounceNext(s, Announce(s, rest), rest, k);
    }
  }

  // ------------------------------------------------------------------ one reconciliation

  /** No two items carry the same run. */
  lemma RunsDistinct(s: State, k: Key, l: Key)
    requires RunDiscipline(s) && JobDiscipline(s)
    requires k in s.items && l in s.items && s.items[k].run.Some? && s.items[k].run == s.items[l].run
    ensures k == l
  {
    var r := s.items[k].run.value;
    assert Owns(s, k, r) && Owns(s, l, r);
  }

  ghost predicate Distinct(keys: seq<Key>) {
    forall i, j | 0 <= i < j < |keys| :: keys[i] != keys[j]
  }

  lemma {:induction false} FinishedDistinct(s: State, order: seq<Key>)
    requires Distinct(order)
    ensures Distinct(FinishedOf(s, order))
  {
    if order != [] {
      var rest, k := order[..|order| - 1], order[|order| - 1];
      assert Distinct(rest) && k !in rest;
      FinishedDistinct(s, rest);
      FinishedOfIs(s, rest);
    }
  }

  ghost predicate SettledFrom(s: State, m: State) {
    && m.items.Keys == s.items.Keys && m.wakeups == s.wakeups
    && (forall k | k in s.items :: m.items[k].run == s.items[k].run && m.items[k].cursor == s.items[k].cursor)
    && (forall k | k in s.items && Finishing(s, k) :: m.items[k].run.Some? && Terminal(m.items[k].lifecycle))
    && (forall k | k in s.items && Terminal(s.items[k].lifecycle) :: m.items[k].lifecycle == s.items[k].lifecycle)
  }

  lemma SettledIs(s: State, order: seq<Key>)
    requires Lists(s, order)
    ensures SettledFrom(s, Settled(s, order))
  {
    forall k | k in s.items
      ensures var m := Settled(s, order);
        && k in m.items && m.items[k].run == s.items[k].run && m.items[k].cursor == s.items[k].cursor
        && (Finishing(s, k) ==> m.items[k].run.Some? && Terminal(m.items[k].lifecycle))
        && (Terminal(s.items[k].lifecycle) ==> m.items[k].lifecycle == s.items[k].lifecycle)
    {
      SettledRow(s, order, k);
    }
  }

  lemma NobodyWokenYet(s: State, k: Key, wk: WakeupKey)
    requires RunDiscipline(s) && JobDiscipline(s) && WakeInv(s)
    requires k in s.items && Finishing(s, k) && wk in s.wakeups && wk.RunTerminal?
    ensures wk.run != s.items[k].run.value && s.wakeups[wk].target != Some(k)
  {
    assert Matches(s, wk);
    if wk.run == s.items[k].run.value {
      RunsDistinct(s, k, s.wakeups[wk].target.value);
    }
  }

  lemma FinishingRunsDistinct(s: State, done: seq<Key>)
    requires RunDiscipline(s) && JobDiscipline(s)
    requires forall k | k in done :: k in s.items && s.items[k].run.Some?
    requires Distinct(done)
    ensures forall i, j | 0 <= i < j < |done| :: s.items[done[i]].run != s.items[done[j]].run
  {
    forall i, j | 0 <= i < j < |done| ensures s.items[done[i]].run != s.items[done[j]].run {
      assert done[i] in done && done[j] in done;
      if s.items[done[i]].run == s.items[done[j]].run {
        RunsDistinct(s, done[i], done[j]);
      }
    }
  }

  lemma SettledWakeInv(s: State, m: State)
    requires WakeInv(s) && SettledFrom(s, m)
    ensures WakeInv(m)
  {
    forall wk | wk in m.wakeups && wk.RunTerminal? ensures Matches(m, wk) {
      assert Matches(s, wk);
    }
  }

  lemma FinishedAnnounceable(s: State, m: State, done: seq<Key>)
    requires RunDiscipline(s) && JobDiscipline(s) && WakeInv(s) && SettledFrom(s, m)
    requires Distinct(done) && forall k | k in done :: k in s.items && Finishing(s, k)
    ensures Announceable(m, done)
  {
    FinishingRunsDistinct(s, done);
    assert forall i | 0 <= i < |done| :: done[i] in done;
    forall k, wk | k in done && wk in m.wakeups && wk.RunTerminal?
      ensures wk.run != m.items[k].run.value && m.wakeups[wk].target != Some(k)
    {
      NobodyWokenYet(s, k, wk);
    }
  }

  lemma SettledAnnounceable(s: State, order: seq<Key>)
    requires Inv(s) && WakeInv(s) && Lists(s, order)
    ensures WakeInv(Settled(s, order)) && Announceable(Settled(s, order), FinishedOf(s, order))
  {
    SettledIs(s, order);
    SettledWakeInv(s, Settled(s, order));
    FinishedOfIs(s, order);
    FinishedDistinct(s, order);
    FinishedAnnounceable(s, Settled(s, order), FinishedOf(s, order));
  }

  /** The run of a terminal item has this wakeup and no other. */
  ghost predicate WokenOnce(s: State, k: Key) {
    && k in s.items && s.items[k].run.Some?
    && var wk := KeyOf(s, k);
    && wk in s.wakeups
    && s.wakeups[wk].target == Some(k) && s.wakeups[wk].source == s.items[k].run
    && s.items[k].cursor == Some(s.wakeups[wk].cursor)
    && forall x | x in s.wakeups && x.RunTerminal? && x.run == wk.run :: x == wk
  }

  lemma OneWakeupPerRun(s: State, x: WakeupKey, y: WakeupKey)
    requires Inv(s) && WakeInv(s)
    requires x in s.wakeups && y in s.wakeups && x.RunTerminal? && y.RunTerminal? && x.run == y.run
    ensures x == y
  {
    assert Matches(s, x) && Matches(s, y);
    RunsDistinct(s, s.wakeups[x].target.value, s.wakeups[y].target.value);
  }

  lemma WokenIsOnce(s: State, k: Key)
    requires Inv(s) && WakeInv(s) && k in s.items && s.items[k].run.Some?
    requires KeyOf(s, k) in s.wakeups && s.wakeups[KeyOf(s, k)].target == Some(k)
    ensures WokenOnce(s, k)
  {
    var wk := KeyOf(s, k);
    assert Matches(s, wk);
    forall x | x in s.wakeups && x.RunTerminal? && x.run == wk.run ensures x == wk {
      OneWakeupPerRun(s, x, wk);
    }
  }

  lemma ReconcileTold(s: State, order: seq<Key>)
    requires Inv(s) && WakeInv(s) && Lists(s, order)
    ensures WakeInv(ReconcileTx(s, order))
    ensures Wakeable(Settled(s, order).mission) ==>
      forall k | k in s.items && Finishing(s, k) ::
        var t := ReconcileTx(s, order);
        && k in t.items && t.items[k].run.Some?
        && KeyOf(t, k) in t.wakeups && t.wakeups[KeyOf(t, k)].target == Some(k)
  {
    var m, done := Settled(s, order), FinishedOf(s, order);
    FinishedOfIs(s, order);
    SettledAnnounceable(s, order);
    AnnounceAll(m, done);
    AnnounceFrame(m, done);
    var t := ReconcileTx(s, order);
    var told := Announce(m, done);
    assert t.items == told.items && t.wakeups == told.wakeups;
    forall wk | wk in t.wakeups && wk.RunTerminal? ensures Matches(t, wk) {
      assert Matches(told, wk);
    }
    if Wakeable(m.mission) {
      forall k | k in s.items && Finishing(s, k)
        ensures k in t.items && t.items[k].run.Some? && KeyOf(t, k) in t.wakeups && t.wakeups[KeyOf(t, k)].target == Some(k)
      {
        assert k in done && k in m.items;
        assert t.items[k] == m.items[k].(cursor := t.items[k].cursor);
        assert KeyOf(t, k) == KeyOf(m, k);
      }
    }
  }

  /** Each item that turns terminal under a running autonomous mission gets exactly one wakeup. */
  lemma ReconcileWakesOnce(s: State, order: seq<Key>, k: Key)
    requires Inv(s) && WakeInv(s) && Lists(s, order)
    requires Finishing(s, k) && Wakeable(Settled(s, order).mission)
    ensures WokenOnce(ReconcileTx(s, order), k)
  {
    ReconcileTold(s, order);
    ReconcileInv(s, order);
    WokenIsOnce(ReconcileTx(s, order), k);
  }

  // ------------------------------------------------------------------ over whole runs

  lemma StepWakeInv(s: State, op: Op)
    requires Inv(s) && DepSafe(s) && WakeInv(s) && Legal(op) && FinishesInTime(s, op)
    ensures WakeInv(Step(s, op))
  {
    if op.Reconcile? {
      if Lists(s, op.order) {
        ReconcileTold(s, op.order);
      }
    } else {
      StepTerminalKept(s, op);
      if op.Apply? {
        if op.turn in s.turns {
          ApplyWakeupsKept(s, op.turn, op.decision, op.admitted);
        }
      } else {
        RestWakeupsKept(s, op);
      }
      KeepWakeInv(s, Step(s, op));
    }
  }

  lemma {:induction false} TimelyRunsKeepWakeInv(s: State, ops: seq<Op>)
    requires Initial(s) && TimelyRun(s, ops)
    ensures WakeInv(Run(s, ops))
  {
    if ops != [] {
      var n := |ops| - 1;
      TimelyPrefix(s, ops, n);
      TimelyRunsKeepWakeInv(s, ops[..n]);
      TimelyRunsAreDepSafe(s, ops[..n]);
      EveryRunKeepsInv(s, ops[..n]);
      StepWakeInv(Run(s, ops[..n]), ops[n]);
    }
  }

  /**
    Applying a decision never fails the target, source and cursor check of a wakeup:
    the turn goes stale exactly when the directive or the team was revised.
   */
  lemma StaleOnlyByRevision(s: State, ops: seq<Op>, turn: Turn, d: Decision, admitted: bool)
    requires Initial(s) && TimelyRun(s, ops)
    ensures ApplyVerdict(Run(s, ops), turn, d, admitted) == WentStale <==> !Governs(Run(s, ops), turn)
  {
    TimelyRunsKeepWakeInv(s, ops);
    var t := Run(s, ops);
    if turn.wakeup.Some? && turn.wakeup.value in t.wakeups && turn.wakeup.value.RunTerminal? {
      assert Matches(t, turn.wakeup.value);
    }
  }

  /** Wakeups about finished runs are never deleted or redirected. */
  ghost predicate WakeupStays(s: State, t: State, wk: WakeupKey)
    requires wk in s.wakeups
  {
    wk in t.wakeups && t.wakeups[wk].(status := WakeupPending) == s.wakeups[wk].(status := WakeupPending)
  }

  lemma ApplyWakeupStays(s: State, t: TurnId, d: Decision, admitted: bool, wk: WakeupKey)
    requires t in s.turns && wk in s.wakeups
    ensures WakeupStays(s, ApplyTx(s, t, d, admitted), wk)
  {
  }

  lemma TurnWakeupStays(s: State, op: Op, wk: WakeupKey)
    requires IsTurn(op) && wk in s.wakeups && wk.RunTerminal?
    ensures WakeupStays(s, TurnTx(s, op), wk)
  {
  }

  lemma RestWakeupStays(s: State, op: Op, wk: WakeupKey)
    requires !op.Reconcile? && !op.Apply? && wk in s.wakeups && wk.RunTerminal?
    ensures WakeupStays(s, OtherTx(s, op), wk)
  {
    if IsTurn(op) {
      TurnWakeupStays(s, op, wk);
    } else {
      OtherWakeupsSame(s, op);
    }
  }

  lemma StepWakeupStays(s: State, op: Op, wk: WakeupKey)
    requires wk in s.wakeups && wk.RunTerminal?
    ensures WakeupStays(s, Step(s, op), wk)
  {
    if op.Reconcile? {
      if Lists(s, op.order) {
        ReconcileFrame(s, op.order);
      }
    } else if op.Apply? {
      if op.turn in s.turns {
        ApplyWakeupStays(s, op.turn, op.decision, op.admitted, wk);
      }
    } else {
      RestWakeupStays(s, op, wk);
    }
  }

  lemma StepKeepsWoken(s: State, op: Op, k: Key)
    requires Inv(s) && DepSafe(s) && WakeInv(s) && Legal(op) && FinishesInTime(s, op)
    requires WokenOnce(s, k)
    ensures WokenOnce(Step(s, op), k)
  {
    var t, wk := Step(s, op), KeyOf(s, k);
    assert Matches(s, wk);
    StepTerminalKept(s, op);
    StepWakeupStays(s, op, wk);
    StepInv(s, op);
    StepWakeInv(s, op);
    assert t.wakeups[wk].target == s.wakeups[wk].(status := WakeupPending).target;
    WokenIsOnce(t, k);
  }

  /** This step is a reconciliation that finds `k` finished while its mission is running and autonomous. */
  ghost predicate FinishesUnder(s: State, op: Op, k: Key) {
    op.Reconcile? && Lists(s, op.order) && Finishing(s, k) && Wakeable(Settled(s, op.order).mission)
  }

  lemma WokenByStep(s: State, op: Op, k: Key)
    requires Inv(s) && WakeInv(s) && FinishesUnder(s, op, k)
    ensures WokenOnce(Step(s, op), k)
  {
    ReconcileWakesOnce(s, op.order, k);
  }

  lemma StaysWoken(s: State, ops: seq<Op>, k: Key)
    requires Initial(s) && TimelyRun(s, ops) && ops != []
    requires WokenOnce(Run(s, ops[..|ops| - 1]), k)
    ensures WokenOnce(Run(s, ops), k)
  {
    var n := |ops| - 1;
    TimelyPrefix(s, ops, n);
    TimelyRunsKeepWakeInv(s, ops[..n]);
    EveryRunKeepsInv(s, ops[..n]);
    TimelyRunsAreDepSafe(s, ops[..n]);
    StepKeepsWoken(Run(s, ops[..n]), ops[n], k);
  }

  lemma WokenByLastStep(s: State, ops: seq<Op>, k: Key)
    requires Initial(s) && TimelyRun(s, ops) && ops != []
    requires FinishesUnder(Run(s, ops[..|ops| - 1]), ops[|ops| - 1], k)
    ensures WokenOnce(Run(s, ops), k)
  {
    var n := |ops| - 1;
    TimelyPrefix(s, ops, n);
    TimelyRunsKeepWakeInv(s, ops[..n]);
    EveryRunKeepsInv(s, ops[..n]);
    WokenByStep(Run(s, ops[..n]), ops[n], k);
  }

  lemma {:induction false} StillWoken(s: State, ops: seq<Op>, i: nat, k: Key)
    requires Initial(s) && TimelyRun(s, ops) && i <= |ops|
    requires WokenOnce(Run(s, ops[..i]), k)
    ensures WokenOnce(Run(s, ops), k)
    decreases |ops|
  {
    var n := |ops| - 1;
    if i <= n {
      TimelyPrefix(s, ops, n);
      assert ops[..n][..i] == ops[..i];
      StillWoken(s, ops[..n], i, k);
      StaysWoken(s, ops, k);
    } else {
      assert ops[..i] == ops;
    }
  }

  /**
    Along a whole run: an item that a reconciliation finds finished, while its mission is
    running and autonomous, has exactly one wakeup for its run, then and for ever after.
   */
  lemma WokenOnceForEver(s: State, ops: seq<Op>, i: nat, k: Key)
    requires Initial(s) && TimelyRun(s, ops) && i < |ops|
    requires FinishesUnder(Run(s, ops[..i]), ops[i], k)
    ensures WokenOnce(Run(s, ops), k)
  {
    TimelyPrefix(s, ops, i + 1);
    var upTo := ops[..i + 1];
    assert upTo[..|upTo| - 1] == ops[..i];
    WokenByLastStep(s, upTo, k);
    StillWoken(s, ops, i + 1, k);
  }
}
