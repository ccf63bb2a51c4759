/**
  The backlog transactions as the service runs them: rows updated one by one in loops.
  Each is proved to end in exactly the state its one-step specification names.
 */
module MissionStore {
  import opened Wrappers
  import opened Decisions
  import opened Backlog

  lemma ReplanOneMore(before: map<Key, Item>, done: seq<Proposal>, p: Proposal, turn: Turn)
    requires p.key !in Keys(done)
    ensures Keys(done + [p]) == Keys(done) + {p.key}
    ensures Replan(before, done + [p], turn) == Replan(before, done, turn)[p.key := ReplanItem(Find(before, p.key), p, turn)]
  {
    var all := done + [p];
    assert all[|done|] == p;
    assert forall q :: q in all <==> q in done || q == p;
    assert all[..|all| - 1] == done;
    assert Proposed(all, p.key) == p;
    forall k | k in Keys(done) ensures Proposed(all, k) == Proposed(done, k) {}
  }

  lemma EdgesOneMore(done: seq<Proposal>, p: Proposal)
    ensures Edges(done + [p]) == Edges(done) + Edges([p])
  {
    assert forall q :: q in done + [p] <==> q in done || q in [p];
  }

  lemma EdgesOfOne(p: Proposal, j: nat)
    requires j <= |p.dependencies|
    ensures Edges([p.(dependencies := p.dependencies[..j])]) == set d | d in p.dependencies[..j] :: (p.key, d)
  {
    var q := p.(dependencies := p.dependencies[..j]);
    assert [q][0] == q;
    assert q in [q];
  }

  /** The rows when all but the remaining ones have been looked at. */
  function Unlocking(items: map<Key, Item>, deps: set<(Key, Key)>, rest: set<Key>): map<Key, Item> {
    map k | k in items ::
      if k !in rest && Unlocks(items, deps, k) then items[k].(lifecycle := Ready, version := items[k].version + 1) else items[k]
  }

  lemma UnlockingEnds(items: map<Key, Item>, deps: set<(Key, Key)>, rest: set<Key>)
    ensures rest == {} ==> Unlocking(items, deps, rest) == Unlock(items, deps)
    ensures (forall k | k in items && items[k].lifecycle == Pending :: k in rest) ==> Unlocking(items, deps, rest) == items
  {
  }

  /** Unlocking others never changes whether this row's dependencies are accepted. */
  lemma UnlockingOneMore(items: map<Key, Item>, deps: set<(Key, Key)>, rest: set<Key>, k: Key)
    requires k in rest && k in items && items[k].lifecycle == Pending
    ensures var now := Unlocking(items, deps, rest);
      && now[k] == items[k]
      && (DepsAccepted(now, deps, k) <==> Unlocks(items, deps, k))
      && Unlocking(items, deps, rest - {k})
         == if Unlocks(items, deps, k) then now[k := items[k].(lifecycle := Ready, version := items[k].version + 1)] else now
  {
    var now := Unlocking(items, deps, rest);
    forall e | e in deps && e.0 == k
      ensures (e.1 in now && now[e.1].lifecycle == Accepted) <==> (e.1 in items && items[e.1].lifecycle == Accepted)
    {
    }
  }

  lemma SettledParts(s: State, order: seq<Key>, m: State)
    requires Lists(s, order) && m.items == Unlock(FinishItems(s), s.deps)
    requires m == s.(items := m.items, mission := s.mission.(lifecycle := Relabel(s, order)))
    ensures m == Settled(s, order)
    ensures forall k | k in FinishedOf(s, order) :: k in m.items && m.items[k].run.Some?
  {
    FinishedOfIs(s, order);
  }

  lemma AnnouncedParts(s: State, order: seq<Key>, t: State, unlocked: nat)
    requires Lists(s, order)
    requires forall k | k in FinishedOf(s, order) :: k in Settled(s, order).items && Settled(s, order).items[k].run.Some?
    requires t == Announce(Settled(s, order), FinishedOf(s, order))
    requires unlocked == |set k | k in s.items && Unlocks(FinishItems(s), s.deps, k)|
    ensures ReconcileTx(s, order) == t.(cursor := t.cursor + unlocked)
  {
  }

  /** A ready row under the current directive that no other transaction holds. */
  predicate Candidate(s: State, locked: set<Key>, k: Key) {
    Dispatchable(s, k) && k !in locked
  }

  /** Of higher priority, or of the same and with the smaller id. */
  predicate Precedes(items: map<Key, Item>, ids: map<Key, nat>, a: Key, b: Key)
    requires a in items && b in items && a in ids && b in ids
  {
    items[a].priority > items[b].priority || (items[a].priority == items[b].priority && ids[a] < ids[b])
  }

  /** Ready under the present directive of an autonomous mission, and not held by others. */
  predicate Served(s: State, locked: set<Key>, k: Key) {
    && s.mission.autonomous && s.mission.lifecycle in {Active, Idle, WaitingForCapacity}
    && k in s.items && s.items[k].lifecycle == Ready && s.items[k].directive == s.mission.directive && k !in locked
  }

  class MissionStore {
    var items: map<Key, Item>
    var deps: set<(Key, Key)>
    var runs: map<RunId, RunStatus>
    var jobs: map<Key, StoredJob>
    var launches: map<nat, Launch>
    var wakeups: map<WakeupKey, Wakeup>
    var turns: map<TurnId, Turn>
    var mission: Mission
    var cursor: nat
    var serial: nat

    function View(): State
      reads this
    {
      State(items, deps, runs, jobs, launches, wakeups, turns, mission, cursor, serial)
    }

    constructor (directive: nat, team: nat, autonomous: bool)
      ensures Initial(View())
      ensures mission == Mission(Active, autonomous, directive, team, 1)
    {
      items, deps, runs, jobs, launches := map[], {}, map[], map[], map[];
      wakeups, turns, cursor, serial := map[], map[], 0, 0;
      mission := Mission(Active, autonomous, directive, team, 1);
    }

    /** Rewrites the proposed rows one by one; false if some row may not be updated. */
    method WriteItems(proposals: seq<Proposal>, turn: Turn) returns (ok: bool)
      requires DistinctKeys(proposals) && forall e | e in deps :: e.0 in items
      modifies this`items, this`deps, this`cursor
      ensures ok <==> forall p | p in proposals :: Updatable(old(items), p)
      ensures ok ==> items == Replan(old(items), proposals, turn)
      ensures ok ==> deps == set e | e in old(deps) && e.0 !in Keys(proposals)
      ensures ok ==> cursor == old(cursor) + |proposals|
    {
      var existing := items;
      assert Replan(items, [], turn) == items;
      for i := 0 to |proposals|
        invariant items == Replan(existing, proposals[..i], turn)
        invariant deps == set e | e in old(deps) && e.0 !in Keys(proposals[..i])
        invariant cursor == old(cursor) + i
        invariant forall p | p in proposals[..i] :: Updatable(existing, p)
      {
        var p := proposals[i];
        assert proposals[..i + 1] == proposals[..i] + [p];
        assert p.key !in Keys(proposals[..i]) by {
          forall q | q in proposals[..i] ensures q.key != p.key {
            var j :| 0 <= j < i && proposals[j] == q;
          }
        }
        ReplanOneMore(existing, proposals[..i], p, turn);
        var created := p.key !in existing;
        if !created && existing[p.key].lifecycle !in {Pending, Ready} {
          assert p in proposals && !Updatable(existing, p);
          return false;
        }
        items := items[p.key := ReplanItem(Find(existing, p.key), p, turn)];
        if !created {
          deps := set e | e in deps && e.0 != p.key;
        }
        cursor := cursor + 1;
      }
      assert proposals[..|proposals|] == proposals;
      ok := true;
    }

    /** Inserts the new dependency rows; false if one would repeat a primary key. */
    method WriteDependencies(proposals: seq<Proposal>) returns (ok: bool)
      requires DistinctKeys(proposals) && forall e | e in deps :: e.0 !in Keys(proposals)
      modifies this`deps
      ensures ok <==> forall p | p in proposals :: NoRepeats(p)
      ensures ok ==> deps == old(deps) + Edges(proposals)
    {
      assert Edges([]) == {};
      for i := 0 to |proposals|
        invariant deps == old(deps) + Edges(proposals[..i])
        invariant forall p | p in proposals[..i] :: NoRepeats(p)
      {
        var p := proposals[i];
        assert proposals[..i + 1] == proposals[..i] + [p];
        assert p in proposals;
        EdgesOneMore(proposals[..i], p);
        assert forall e | e in Edges(proposals[..i]) :: e.0 != p.key by {
          forall e | e in Edges(proposals[..i]) ensures e.0 != p.key {
            var q, d :| q in proposals[..i] && d in q.dependencies && e == (q.key, d);
            var j :| 0 <= j < i && proposals[j] == q;
          }
        }
        ok := WriteRow(p);
        if !ok {
          return;
        }
      }
      assert proposals[..|proposals|] == proposals;
      ok := true;
    }

    method WriteRow(p: Proposal) returns (ok: bool)
      requires forall e | e in deps :: e.0 != p.key
      modifies this`deps
      ensures ok <==> NoRepeats(p)
      ensures ok ==> deps == old(deps) + Edges([p])
    {
      for j := 0 to |p.dependencies|
        invariant deps == old(deps) + set d | d in p.dependencies[..j] :: (p.key, d)
        invariant forall a, b | 0 <= a < b < j :: p.dependencies[a] != p.dependencies[b]
      {
        var d := p.dependencies[j];
        if (p.key, d) in deps {
          var a :| 0 <= a < j && p.dependencies[a] == d;
          return false;
        }
        deps := deps + {(p.key, d)};
      }
      EdgesOfOne(p, |p.dependencies|);
      assert p.dependencies[..|p.dependencies|] == p.dependencies;
      assert p.(dependencies := p.dependencies) == p;
      ok := true;
    }

    /** How many proposals name no existing row. */
    method CountNew(proposals: seq<Proposal>) returns (added: nat)
      ensures added > 0 <==> !(Keys(proposals) <= items.Keys)
    {
      added := 0;
      for i := 0 to |proposals|
        invariant added > 0 <==> exists j | 0 <= j < i :: proposals[j].key !in items
      {
        if proposals[i].key !in items {
          added := added + 1;
        }
      }
      if added > 0 {
        var j :| 0 <= j < |proposals| && proposals[j].key !in items;
        assert proposals[j] in proposals && proposals[j].key in Keys(proposals);
      }
    }

    method FinishTurn(t: TurnId, d: Decision)
      requires t in turns
      modifies this`turns, this`wakeups, this`mission, this`cursor
      ensures turns == old(turns)[t := old(turns[t]).(status := TurnApplied)]
      ensures wakeups == AddDeadline(old(View()), t, old(turns[t]), d.scheduledWakeupAt)
      ensures mission == old(mission).(lifecycle := d.lifecycle, version := old(mission.version) + 1)
      ensures cursor == old(cursor) + 1
    {
      var turn := turns[t];
      turns := turns[t := turn.(status := TurnApplied)];
      wakeups := MarkWakeup(wakeups, turn.wakeup, Committed);
      if d.scheduledWakeupAt.Some? {
        var wk := Deadline(t, d.scheduledWakeupAt.value);
        if wk !in wakeups {
          wakeups := wakeups[wk := Wakeup(mission.directive, mission.team, turn.cursor, None, None, WakeupPending)];
        }
      }
      mission := mission.(lifecycle := d.lifecycle, version := mission.version + 1);
      cursor := cursor + 1;
    }

    /** The part of `Apply` that writes rows; a refusal leaves everything as it was. */
    method WriteDecision(t: TurnId, d: Decision) returns (outcome: ApplyOutcome)
      requires t in turns && DistinctKeys(d.items) && forall e | e in deps :: e.0 in items
      modifies this
      ensures outcome == if exists p | p in d.items :: !Updatable(old(items), p) then UpdateNotAllowed
                         else if exists p | p in d.items :: !NoRepeats(p) then DependencyRepeated else AppliedNow
      ensures View() == if outcome == AppliedNow then Commit(old(View()), t, d) else old(View())
    {
      var savedItems, savedDeps, savedCursor := items, deps, cursor;
      var ok := WriteItems(d.items, turns[t]);
      if !ok {
        items, deps, cursor := savedItems, savedDeps, savedCursor;
        return UpdateNotAllowed;
      }
      ok := WriteDependencies(d.items);
      if !ok {
        items, deps, cursor := savedItems, savedDeps, savedCursor;
        return DependencyRepeated;
      }
      FinishTurn(t, d);
      outcome := AppliedNow;
    }

    /** Applies one validated decision, or marks its turn stale, or rolls everything back. */
    method Apply(t: TurnId, d: Decision, admitted: bool) returns (outcome: ApplyOutcome)
      requires t in turns && DistinctKeys(d.items) && forall e | e in deps :: e.0 in items
      modifies this
      ensures outcome == ApplyVerdict(old(View()), old(turns[t]), d, admitted)
      ensures View() == ApplyTx(old(View()), t, d, admitted)
    {
      var turn := turns[t];
      if !Governs(View(), turn) || !WakeupValid(View(), turn) {
        turns := turns[t := turn.(status := TurnStale)];
        wakeups := MarkWakeup(wakeups, turn.wakeup, WakeupStale);
        cursor := cursor + 1;
        return WentStale;
      }
      var added := CountNew(d.items);
      if added > 0 && !admitted {
        return BudgetDenied;
      }
      outcome := WriteDecision(t, d);
    }

    /**
      Picks the ready item of highest priority under the current directive, the smallest
      id among equals, passing over rows that others hold, and starts its run.
     */
    method DispatchReady(ids: map<Key, nat>, locked: set<Key>, gate: DispatchGate, activeLimit: nat) returns (picked: Option<Key>)
      requires items.Keys <= ids.Keys && gate != AllLocked
      modifies this
      ensures picked.Some? ==> MayDispatch(old(mission)) && Candidate(old(View()), locked, picked.value)
      ensures picked.Some? ==> forall k | k in old(items) && Candidate(old(View()), locked, k) ::
                !Precedes(old(items), ids, k, picked.value)
      ensures picked.Some? ==> Served(old(View()), locked, picked.value)
      ensures picked.Some? ==> forall k | Served(old(View()), locked, k) ::
                && old(items)[k].priority <= old(items)[picked.value].priority
                && (old(items)[k].priority == old(items)[picked.value].priority ==> ids[picked.value] <= ids[k])
      ensures picked.Some? ==> View() == DispatchTx(old(View()), picked.value, gate, activeLimit)
      ensures picked.None? && MayDispatch(old(mission)) ==> forall k | k in old(items) :: !Candidate(old(View()), locked, k)
      ensures picked.None? && (forall k | k in old(items) :: !Dispatchable(old(View()), k)) ==> View() == old(View())
      ensures picked.None? ==> forall k | k in old(items) && Dispatchable(old(View()), k) ::
                View() == DispatchTx(old(View()), k, if gate == AdmissionDenied then gate else AllLocked, activeLimit)
    {
      picked := None;
      if !MayDispatch(mission) || !(exists k | k in items :: Dispatchable(View(), k)) {
        return;
      }
      picked := BestReady(ids, locked);
      if gate == AdmissionDenied {
        return;
      }
      if picked.None? {
        if mission.lifecycle == Active {
          mission := mission.(lifecycle := Idle);
        }
        return;
      }
      StartItem(picked.value, gate, activeLimit);
    }

    /** What happens to the item that was picked. */
    method StartItem(k: Key, gate: DispatchGate, activeLimit: nat)
      requires MayDispatch(mission) && Dispatchable(View(), k) && gate !in {AdmissionDenied, AllLocked}
      modifies this
      ensures View() == DispatchTx(old(View()), k, gate, activeLimit)
    {
      if gate == TeamMissing {
        mission := mission.(lifecycle := MissionLifecycle.Blocked);
      } else if |ActiveKeys(View())| >= activeLimit {
        mission := mission.(lifecycle := WaitingForCapacity);
      } else if gate != Open {
        mission := mission.(lifecycle := MissionLifecycle.Blocked);
      } else {
        StartRun(k);
      }
    }

    method StartRun(k: Key)
      requires k in items
      modifies this
      ensures View() == StartTx(old(View()), k)
    {
      var run := AutoRun(k);
      if run !in runs {
        runs := runs[run := Queued];
        cursor := cursor + 2;
      }
      items := items[k := items[k].(run := Some(run), lifecycle := Started, version := items[k].version + 1)];
      mission := mission.(lifecycle := Active, version := mission.version + 1);
      cursor := cursor + 1;
    }

    method BestReady(ids: map<Key, nat>, locked: set<Key>) returns (best: Option<Key>)
      requires items.Keys <= ids.Keys
      ensures best.None? ==> forall k | k in items :: !Candidate(View(), locked, k)
      ensures best.Some? ==> Candidate(View(), locked, best.value)
      ensures best.Some? ==> forall k | k in items && Candidate(View(), locked, k) :: !Precedes(items, ids, k, best.value)
    {
      best := None;
      var rest := items.Keys;
      while rest != {}
        invariant rest <= items.Keys
        invariant best.None? ==> forall k | k in items && k !in rest :: !Candidate(View(), locked, k)
        invariant best.Some? ==> Candidate(View(), locked, best.value)
        invariant best.Some? ==> forall k | k in items && k !in rest && Candidate(View(), locked, k) ::
                    !Precedes(items, ids, k, best.value)
        decreases rest
      {
        var k :| k in rest;
        if Candidate(View(), locked, k) && (best.None? || Precedes(items, ids, k, best.value)) {
          best := Some(k);
        }
        rest := rest - {k};
      }
    }

    /** Relabels, finishes, unlocks and announces, row by row, in the order the rows were read. */
    method ReconcileItems(order: seq<Key>)
      requires Lists(View(), order)
      modifies this
      ensures View() == ReconcileTx(old(View()), order)
    {
      ghost var s := View();
      var finished, unlocked := SettleRows(order);
      AnnounceRows(finished);
      AnnouncedParts(s, order, View(), unlocked);
      cursor := cursor + unlocked;
    }

    /** The rows that finish and those that unlock, and the mission's label. */
    method SettleRows(order: seq<Key>) returns (finished: seq<Key>, unlocked: nat)
      requires Lists(View(), order)
      modifies this`items, this`mission
      ensures View() == Settled(old(View()), order) && finished == FinishedOf(old(View()), order)
      ensures forall k | k in finished :: k in items && items[k].run.Some?
      ensures unlocked == |set k | k in old(items) && Unlocks(FinishItems(old(View())), old(deps), k)|
    {
      ghost var s := View();
      RelabelRows(order);
      finished := FinishRows(s, order);
      var ready := UnlockRows();
      assert ready == set k | k in s.items && Unlocks(FinishItems(s), s.deps, k);
      unlocked := |ready|;
      SettledParts(s, order, View());
    }

    method RelabelRows(order: seq<Key>)
      requires Lists(View(), order)
      modifies this`mission
      ensures mission == old(mission).(lifecycle := Relabel(old(View()), order))
    {
      ghost var s := View();
      for i := 0 to |order|
        invariant forall k | k in order :: Joined(s, k)
        invariant mission == s.mission.(lifecycle := Relabel(s, order[..i]))
      {
        assert order[..i + 1][..i] == order[..i];
        assert order[i] in order;
        var status := runs[items[order[i]].run.value];
        if RunActive(status) {
          if status == ApprovalRequired {
            mission := mission.(lifecycle := WaitingForApproval);
          } else if mission.lifecycle == WaitingForApproval {
            mission := mission.(lifecycle := Active);
          }
        }
      }
      assert order[..|order|] == order;
    }

    method FinishRows(ghost s: State, order: seq<Key>) returns (finished: seq<Key>)
      requires Lists(s, order) && items == s.items && runs == s.runs
      modifies this`items
      ensures items == FinishItems(s)
      ensures finished == FinishedOf(s, order)
    {
      finished := [];
      for i := 0 to |order|
        invariant items.Keys == s.items.Keys
        invariant forall k | k in s.items :: items[k] == if k in order[..i] then FinishItem(s, k) else s.items[k]
        invariant finished == FinishedOf(s, order[..i])
      {
        var k := order[i];
        assert k in order && Joined(s, k);
        assert order[..i + 1][..i] == order[..i];
        assert k !in order[..i];
        var status := runs[items[k].run.value];
        if !RunActive(status) {
          items := items[k := items[k].(lifecycle := Outcome(status), version := items[k].version + 1)];
          finished := finished + [k];
        }
      }
      assert order[..|order|] == order;
    }

    method UnlockRows() returns (unlocked: set<Key>)
      modifies this`items
      ensures items == Unlock(old(items), deps)
      ensures unlocked == set k | k in old(items) && Unlocks(old(items), deps, k)
    {
      ghost var before := items;
      unlocked := {};
      var rest := set k | k in items && items[k].lifecycle == Pending;
      UnlockingEnds(before, deps, rest);
      while rest != {}
        invariant rest <= set k | k in before && before[k].lifecycle == Pending
        invariant items == Unlocking(before, deps, rest)
        invariant unlocked == set k | k in before && k !in rest && Unlocks(before, deps, k)
        decreases rest
      {
        var k :| k in rest;
        UnlockingOneMore(before, deps, rest, k);
        if DepsAccepted(items, deps, k) {
          items := items[k := items[k].(lifecycle := Ready, version := items[k].version + 1)];
          unlocked := unlocked + {k};
        }
        rest := rest - {k};
      }
      UnlockingEnds(before, deps, rest);
    }

    method AnnounceRows(done: seq<Key>)
      requires forall k | k in done :: k in items && items[k].run.Some?
      modifies this`items, this`wakeups, this`mission, this`cursor
      ensures View() == Announce(old(View()), done)
    {
      ghost var s := View();
      assert Announce(s, []) == s;
      for i := 0 to |done|
        invariant forall k | k in done :: k in s.items && s.items[k].run.Some?
        invariant View() == Announce(s, done[..i])
      {
        assert done[..i + 1][..i] == done[..i] && done[i] in done;
        AnnounceRow(done[i]);
      }
      assert done[..|done|] == done;
    }

    method AnnounceRow(k: Key)
      requires k in items && items[k].run.Some?
      modifies this`items, this`wakeups, this`mission, this`cursor
      ensures View() == AnnounceOne(old(View()), k)
    {
      cursor := cursor + 1;
      items := items[k := items[k].(cursor := Some(cursor))];
      if mission.lifecycle == Cancelling {
        mission := mission.(lifecycle := MissionLifecycle.Cancelled);
      } else if Wakeable(mission) {
        var run := items[k].run.value;
        var wk := RunTerminal(run, items[k].lifecycle);
        if wk !in wakeups {
          wakeups := wakeups[wk := Wakeup(mission.directive, mission.team, cursor, Some(k), Some(run), WakeupPending)];
          mission := mission.(version := mission.version + 1);
        }
      }
    }

    /** The guards of a launch; only the launch itself is remembered. */
    method CheckLaunch(pid: nat, k: Key, admitted: bool) returns (ok: bool)
      requires pid !in launches
      modifies this`launches
      ensures View() == LaunchCheckTx(old(View()), pid, k, admitted)
      ensures ok <==> pid in launches
    {
      ok := false;
      if k !in items || items[k].run.Some? {
        return;
      }
      if items[k].lifecycle != Ready || items[k].directive != mission.directive {
        return;
      }
      if !DepsAccepted(items, deps, k) || !admitted {
        return;
      }
      launches := launches[pid := Checked(k, JobRequest(items[k].body, items[k].priority, mission.team))];
      ok := true;
    }

    method EnqueueJob(pid: nat, available: bool)
      requires pid in launches && launches[pid].Checked?
      modifies this
      ensures View() == LaunchEnqueueTx(old(View()), pid, available)
    {
      var k, request := launches[pid].key, launches[pid].request;
      if !available {
        launches := launches - {pid};
        return;
      }
      if k in jobs {
        if jobs[k].request != request {
          launches := launches - {pid};
        } else {
          launches := launches[pid := Enqueued(k, jobs[k].run)];
        }
        return;
      }
      var run := EnqueuedRun(serial);
      serial := serial + 1;
      runs := runs[run := Queued];
      jobs := jobs[k := StoredJob(request, run)];
      launches := launches[pid := Enqueued(k, run)];
      cursor := cursor + 3;
    }

    method FinishLaunch(pid: nat) returns (ok: bool)
      requires pid in launches && launches[pid].Enqueued? && launches[pid].key in items
      modifies this
      ensures View() == LaunchFinishTx(old(View()), pid)
      ensures ok <==> MayFinish(old(View()), pid)
    {
      var k, run := launches[pid].key, launches[pid].run;
      launches := launches - {pid};
      if items[k].run.Some? && items[k].run.value != run {
        return false;
      }
      items := items[k := items[k].(run := Some(run), lifecycle := Started, version := items[k].version + 1)];
      mission := mission.(version := mission.version + 1);
      cursor := cursor + 1;
      ok := true;
    }
  }
}
