/** What a reconciliation does, read off the runs, the rows and the wakeups. */
module ReconcileEffects {
  import opened Wrappers
  import opened Decisions
  import opened Backlog
  import opened BacklogSafety
  import BacklogWakeups

  /** The item is started on this run. */
  predicate On(s: State, k: Key, r: RunId) {
    k in s.items && s.items[k].lifecycle == Started && s.items[k].run == Some(r) && r in s.runs
  }

  predicate Ended(status: RunStatus) {
    status in {RunStatus.Completed, RunBlocked, Failed, RunCancelled}
  }

  lemma EndedIs(status: RunStatus)
    ensures Ended(status) <==> !RunActive(status)
    ensures !Ended(status) <==> status in {Queued, RunStatus.Running, ApprovalRequired}
    ensures Outcome(status) == Accepted <==> status == RunStatus.Completed
    ensures Outcome(status) == ItemLifecycle.Blocked <==> status in {RunBlocked, Failed}
  {
    match status
    case _ =>
  }

  /**
    The run decides what becomes of a started item: completed, it is accepted; blocked or
    failed, blocked; cancelled, cancelled; and while it goes on nothing changes.
   */
  lemma RunDecides(s: State, order: seq<Key>, k: Key, r: RunId)
    requires Lists(s, order) && On(s, k, r)
    ensures var t := ReconcileTx(s, order);
      && k in t.items && t.items[k].run == Some(r)
      && (s.runs[r] == RunStatus.Completed ==> t.items[k].lifecycle == Accepted)
      && (s.runs[r] == RunBlocked || s.runs[r] == Failed ==> t.items[k].lifecycle == ItemLifecycle.Blocked)
      && (s.runs[r] == RunCancelled ==> t.items[k].lifecycle == ItemLifecycle.Cancelled)
      && (Ended(s.runs[r]) ==>
            t.items[k] == s.items[k].(lifecycle := t.items[k].lifecycle, cursor := t.items[k].cursor, version := s.items[k].version + 1))
      && (!Ended(s.runs[r]) ==> t.items[k] == s.items[k])
  {
    EndedIs(s.runs[r]);
    RowVersion(s, order, k);
    ReconcileFrame(s, order);
    assert ReconciledRow(s, ReconcileTx(s, order), k);
  }

  lemma SettledVersion(s: State, order: seq<Key>, k: Key)
    requires Lists(s, order) && k in s.items
    ensures k in Settled(s, order).items
    ensures Settled(s, order).items[k].version
         == s.items[k].version + if Finishing(s, k) || Unlocks(FinishItems(s), s.deps, k) then 1 else 0
  {
  }

  lemma AnnouncedVersion(m: State, t: State, done: seq<Key>, k: Key)
    requires OnlyAnnounced(m, t, done) && k in m.items
    ensures k in t.items && t.items[k].version == m.items[k].version
  {
    assert t.items[k] == m.items[k].(cursor := t.items[k].cursor);
  }

  lemma RowVersion(s: State, order: seq<Key>, k: Key)
    requires Lists(s, order) && k in s.items
    ensures k in ReconcileTx(s, order).items
    ensures ReconcileTx(s, order).items[k].version
         == s.items[k].version + if Finishing(s, k) || Unlocks(FinishItems(s), s.deps, k) then 1 else 0
  {
    FinishedOfIs(s, order);
    SettledVersion(s, order, k);
    AnnounceFrame(Settled(s, order), FinishedOf(s, order));
    AnnouncedVersion(Settled(s, order), Announce(Settled(s, order), FinishedOf(s, order)), FinishedOf(s, order), k);
  }

  /** What it depends on is done: accepted before, or by a run that has completed. */
  predicate DoneBy(s: State, k: Key) {
    && k in s.items
    && (s.items[k].lifecycle == Accepted
        || (s.items[k].lifecycle == Started && s.items[k].run.Some? && s.items[k].run.value in s.runs
            && s.runs[s.items[k].run.value] == RunStatus.Completed))
  }

  /** Pending items whose dependencies are all done. */
  function Unlocked(s: State): set<Key> {
    set k | k in s.items && s.items[k].lifecycle == Pending && forall e | e in s.deps && e.0 == k :: DoneBy(s, e.1)
  }

  lemma DoneIsAccepted(s: State, k: Key)
    requires k in s.items
    ensures FinishItems(s)[k].lifecycle == Accepted <==> DoneBy(s, k)
  {
    if Joined(s, k) {
      EndedIs(s.runs[s.items[k].run.value]);
    }
  }

  /** A pending item becomes ready exactly when everything it depends on is done; no other row moves. */
  lemma PendingIsUnlockedExactly(s: State, order: seq<Key>, k: Key)
    requires Lists(s, order) && k in s.items && (forall r :: !On(s, k, r))
    ensures var t := ReconcileTx(s, order);
      && k in t.items
      && t.items[k] == if k in Unlocked(s) then s.items[k].(lifecycle := Ready, version := s.items[k].version + 1) else s.items[k]
  {
    RowVersion(s, order, k);
    ReconcileFrame(s, order);
    assert ReconciledRow(s, ReconcileTx(s, order), k);
    if Joined(s, k) {
      assert On(s, k, s.items[k].run.value);
    }
    UnlocksIs(s, k);
  }

  // ------------------------------------------------------------------ the mission's label

  predicate AtWorkAt(s: State, order: seq<Key>, i: nat)
    requires i < |order|
  {
    exists r | r in s.runs :: On(s, order[i], r) && !Ended(s.runs[r])
  }

  predicate AwaitsAt(s: State, order: seq<Key>, i: nat)
    requires i < |order|
  {
    exists r | r in s.runs :: On(s, order[i], r) && s.runs[r] == ApprovalRequired
  }

  predicate LastAtWork(s: State, order: seq<Key>, i: nat)
    requires i < |order|
  {
    AtWorkAt(s, order, i) && forall j | i < j < |order| :: !AtWorkAt(s, order, j)
  }

  /** A running row says so if it waits for approval, and otherwise ends a wait seen before it. */
  predicate Says(s: State, order: seq<Key>, i: nat, l: MissionLifecycle)
    requires i < |order|
  {
    l == if AwaitsAt(s, order, i) then WaitingForApproval
         else if s.mission.lifecycle == WaitingForApproval || (exists j | 0 <= j < i :: AwaitsAt(s, order, j)) then Active
         else s.mission.lifecycle
  }

  /** The last running row speaks; if there is none the label stays. */
  ghost predicate LabelAfter(s: State, order: seq<Key>, l: MissionLifecycle) {
    && ((forall i | 0 <= i < |order| :: !AtWorkAt(s, order, i)) ==> l == s.mission.lifecycle)
    && forall i | 0 <= i < |order| && LastAtWork(s, order, i) :: Says(s, order, i, l)
  }

  lemma PlaceAtWork(s: State, order: seq<Key>, i: nat)
    requires i < |order| && Joined(s, order[i])
    ensures AtWorkAt(s, order, i) <==> RunActive(s.runs[s.items[order[i]].run.value])
    ensures AwaitsAt(s, order, i) <==> s.runs[s.items[order[i]].run.value] == ApprovalRequired
  {
    var r := s.items[order[i]].run.value;
    EndedIs(s.runs[r]);
    assert On(s, order[i], r);
  }

  lemma PlacesBefore(s: State, order: seq<Key>, i: nat)
    requires i < |order| - 1
    ensures AtWorkAt(s, order[..|order| - 1], i) <==> AtWorkAt(s, order, i)
    ensures AwaitsAt(s, order[..|order| - 1], i) <==> AwaitsAt(s, order, i)
  {
  }

  /** Whether a wait for approval is seen at all, and by the last running row. */
  ghost predicate Waits(s: State, order: seq<Key>) {
    s.mission.lifecycle == WaitingForApproval || exists j | 0 <= j < |order| :: AwaitsAt(s, order, j)
  }

  lemma LastBefore(s: State, order: seq<Key>, rest: seq<Key>, i: nat)
    requires order != [] && rest == order[..|order| - 1] && i < |rest| && !AtWorkAt(s, order, |order| - 1)
    ensures LastAtWork(s, order, i) ==> LastAtWork(s, rest, i)
  {
    PlacesBefore(s, order, i);
    forall j | i < j < |rest| && LastAtWork(s, order, i) ensures !AtWorkAt(s, rest, j) {
      PlacesBefore(s, order, j);
      assert !AtWorkAt(s, order, j);
    }
  }

  lemma SaysBefore(s: State, order: seq<Key>, rest: seq<Key>, i: nat, l: MissionLifecycle)
    requires order != [] && rest == order[..|order| - 1] && i < |rest| && Says(s, rest, i, l)
    ensures Says(s, order, i, l)
  {
    PlacesBefore(s, order, i);
    forall j | 0 <= j < i ensures AwaitsAt(s, rest, j) <==> AwaitsAt(s, order, j) {
      PlacesBefore(s, order, j);
    }
  }

  lemma NoneBefore(s: State, order: seq<Key>, rest: seq<Key>)
    requires order != [] && rest == order[..|order| - 1] && forall i | 0 <= i < |order| :: !AtWorkAt(s, order, i)
    ensures forall i | 0 <= i < |rest| :: !AtWorkAt(s, rest, i)
  {
    forall i | 0 <= i < |rest| ensures !AtWorkAt(s, rest, i) {
      PlacesBefore(s, order, i);
      assert !AtWorkAt(s, order, i);
    }
  }

  /** A row that is not running leaves the label to those before it. */
  lemma LabelPasses(s: State, order: seq<Key>, l: MissionLifecycle)
    requires order != [] && !AtWorkAt(s, order, |order| - 1) && LabelAfter(s, order[..|order| - 1], l)
    ensures LabelAfter(s, order, l)
  {
    var rest := order[..|order| - 1];
    if forall i | 0 <= i < |order| :: !AtWorkAt(s, order, i) {
      NoneBefore(s, order, rest);
    }
    forall i | 0 <= i < |order| && LastAtWork(s, order, i) ensures Says(s, order, i, l) {
      LastBefore(s, order, rest, i);
      SaysBefore(s, order, rest, i, l);
    }
  }

  /** A running row decides by itself and by what was seen before it. */
  lemma LabelDecides(s: State, order: seq<Key>, l: MissionLifecycle)
    requires order != [] && AtWorkAt(s, order, |order| - 1)
    requires l == if AwaitsAt(s, order, |order| - 1) then WaitingForApproval
                  else if Waits(s, order[..|order| - 1]) then Active else s.mission.lifecycle
    ensures LabelAfter(s, order, l)
  {
    var n := |order| - 1;
    WaitsBefore(s, order);
    forall i | 0 <= i < |order| && LastAtWork(s, order, i) ensures i == n {}
  }

  lemma WaitsBefore(s: State, order: seq<Key>)
    requires order != []
    ensures Waits(s, order[..|order| - 1])
            <==> s.mission.lifecycle == WaitingForApproval || exists j | 0 <= j < |order| - 1 :: AwaitsAt(s, order, j)
  {
    var n := |order| - 1;
    forall i | 0 <= i < n ensures AwaitsAt(s, order[..n], i) <==> AwaitsAt(s, order, i) {
      PlacesBefore(s, order, i);
    }
  }

  lemma {:induction false} LabelIs(s: State, order: seq<Key>)
    requires forall k | k in order :: Joined(s, k)
    ensures LabelAfter(s, order, Relabel(s, order))
    ensures Waits(s, order) ==> Relabel(s, order) in {WaitingForApproval, Active}
    ensures !Waits(s, order) ==> Relabel(s, order) == s.mission.lifecycle != WaitingForApproval
  {
    if order != [] {
      var rest, n := order[..|order| - 1], |order| - 1;
      assert forall k | k in rest :: k in order;
      assert order[n] in order;
      LabelIs(s, rest);
      PlaceAtWork(s, order, n);
      WaitsOneMore(s, order);
      if AtWorkAt(s, order, n) {
        LabelDecides(s, order, Relabel(s, order));
      } else {
        LabelPasses(s, order, Relabel(s, order));
      }
    }
  }

  lemma WaitsOneMore(s: State, order: seq<Key>)
    requires order != []
    ensures Waits(s, order) <==> Waits(s, order[..|order| - 1]) || AwaitsAt(s, order, |order| - 1)
  {
    var n := |order| - 1;
    forall i | 0 <= i < n ensures AwaitsAt(s, order[..n], i) <==> AwaitsAt(s, order, i) {
      PlacesBefore(s, order, i);
    }
  }

  // ------------------------------------------------------------------ events and wakeups

  predicate EndedAt(s: State, order: seq<Key>, i: nat)
    requires i < |order|
  {
    exists r | r in s.runs :: On(s, order[i], r) && Ended(s.runs[r])
  }

  /** How many of the first rows have come to an end. */
  function EndedBefore(s: State, order: seq<Key>, n: nat): nat
    requires n <= |order|
  {
    if n == 0 then 0 else EndedBefore(s, order, n - 1) + if EndedAt(s, order, n - 1) then 1 else 0
  }

  lemma EndedAtIs(s: State, order: seq<Key>, i: nat)
    requires i < |order|
    ensures EndedAt(s, order, i) <==> Finishing(s, order[i])
  {
    if Joined(s, order[i]) {
      var r := s.items[order[i]].run.value;
      EndedIs(s.runs[r]);
      assert On(s, order[i], r);
    }
  }

  /** The finished rows are those at which a run has ended, in the same order. */
  lemma {:induction false} FinishedAt(s: State, order: seq<Key>, n: nat)
    requires n <= |order|
    ensures |FinishedOf(s, order[..n])| == EndedBefore(s, order, n)
    ensures forall i | 0 <= i < n && EndedAt(s, order, i) ::
              EndedBefore(s, order, i) < |FinishedOf(s, order[..n])|
              && FinishedOf(s, order[..n])[EndedBefore(s, order, i)] == order[i]
  {
    if n > 0 {
      var rest, now := FinishedOf(s, order[..n - 1]), FinishedOf(s, order[..n]);
      FinishedAt(s, order, n - 1);
      EndedAtIs(s, order, n - 1);
      assert order[..n][..n - 1] == order[..n - 1] && order[..n][n - 1] == order[n - 1];
      assert now == if EndedAt(s, order, n - 1) then rest + [order[n - 1]] else rest;
    }
  }

  /** The rows carry consecutive cursors after the one before. */
  ghost predicate Numbered(m: State, t: State, done: seq<Key>) {
    forall i | 0 <= i < |done| :: done[i] in t.items && t.items[done[i]].cursor == Some(m.cursor + i + 1)
  }

  lemma NumberedNext(m: State, t: State, rest: seq<Key>, k: Key)
    requires Numbered(m, t, rest) && k in t.items && t.items[k].run.Some? && k !in rest && t.cursor == m.cursor + |rest|
    ensures Numbered(m, AnnounceOne(t, k), rest + [k])
  {
    var done, u := rest + [k], AnnounceOne(t, k);
    forall i | 0 <= i < |done| ensures done[i] in u.items && u.items[done[i]].cursor == Some(m.cursor + i + 1) {
      assert i < |rest| ==> done[i] == rest[i];
    }
  }

  /** Announcing counts on from the mission's cursor, row after row. */
  lemma {:induction false} AnnouncedCursors(m: State, done: seq<Key>)
    requires forall k | k in done :: k in m.items && m.items[k].run.Some?
    requires forall j, l | 0 <= j < l < |done| :: done[j] != done[l]
    ensures Numbered(m, Announce(m, done), done)
  {
    if done != [] {
      var rest, k := done[..|done| - 1], done[|done| - 1];
      assert done == rest + [k] && k in done && k !in rest;
      assert forall x | x in rest :: x in done;
      AnnouncedCursors(m, rest);
      AnnounceFrame(m, rest);
      NumberedNext(m, Announce(m, rest), rest, k);
    }
  }

  /** The mission as it is told: only its label, if it was being cancelled, and its version move. */
  lemma {:induction false} AnnouncedMission(m: State, done: seq<Key>)
    requires forall k | k in done :: k in m.items && m.items[k].run.Some?
    ensures var t := Announce(m, done);
      && t.mission == m.mission.(lifecycle := t.mission.lifecycle, version := t.mission.version)
      && t.mission.lifecycle == (if m.mission.lifecycle == Cancelling && done != [] then MissionLifecycle.Cancelled else m.mission.lifecycle)
      && t.mission.version == m.mission.version + (|t.wakeups| - |m.wakeups|)
  {
    if done != [] {
      assert done[|done| - 1] in done;
      AnnouncedMission(m, done[..|done| - 1]);
    }
  }

  lemma {:induction false} FinishedDiffer(s: State, order: seq<Key>)
    requires forall i, j | 0 <= i < j < |order| :: order[i] != order[j]
    ensures forall i, j | 0 <= i < j < |FinishedOf(s, order)| :: FinishedOf(s, order)[i] != FinishedOf(s, order)[j]
  {
    if order != [] {
      var rest := order[..|order| - 1];
      FinishedDiffer(s, rest);
      FinishedOfIs(s, rest);
    }
  }

  /** A reconciliation is the announcement of the settled rows, and an event for each unlocked one. */
  lemma AnnouncementIs(s: State, order: seq<Key>)
    requires Lists(s, order)
    ensures forall k | k in FinishedOf(s, order) :: k in Settled(s, order).items && Settled(s, order).items[k].run.Some?
    ensures var u, t := Announce(Settled(s, order), FinishedOf(s, order)), ReconcileTx(s, order);
      t.items == u.items && t.wakeups == u.wakeups && t.mission == u.mission && t.cursor == u.cursor + |Unlocked(s)|
  {
    FinishedOfIs(s, order);
    UnlockedSet(s);
  }

  ghost predicate Counted(s: State, t: State, done: seq<Key>) {
    t.cursor == s.cursor + |done| + |Unlocked(s)| && Numbered(s, t, done)
  }

  lemma CountedIs(s: State, m: State, u: State, t: State, done: seq<Key>)
    requires m.cursor == s.cursor && Numbered(m, u, done) && u.cursor == m.cursor + |done|
    requires t.items == u.items && t.cursor == u.cursor + |Unlocked(s)|
    ensures Counted(s, t, done)
  {
  }

  lemma RowsAreCounted(s: State, order: seq<Key>)
    requires Lists(s, order)
    ensures Counted(s, ReconcileTx(s, order), FinishedOf(s, order))
  {
    AnnouncementIs(s, order);
    FinishedDiffer(s, order);
    AnnouncedCursors(Settled(s, order), FinishedOf(s, order));
    AnnounceFrame(Settled(s, order), FinishedOf(s, order));
    CountedIs(s, Settled(s, order), Announce(Settled(s, order), FinishedOf(s, order)), ReconcileTx(s, order), FinishedOf(s, order));
  }

  /** One event for each ended run in turn, then one for each row unlocked. */
  ghost predicate EventsFollow(s: State, order: seq<Key>, t: State) {
    && t.cursor == s.cursor + EndedBefore(s, order, |order|) + |Unlocked(s)|
    && forall i | 0 <= i < |order| && EndedAt(s, order, i) ::
         order[i] in t.items && t.items[order[i]].cursor == Some(s.cursor + 1 + EndedBefore(s, order, i))
  }

  lemma FinishedInOrder(s: State, order: seq<Key>)
    ensures |FinishedOf(s, order)| == EndedBefore(s, order, |order|)
    ensures forall i | 0 <= i < |order| && EndedAt(s, order, i) ::
              EndedBefore(s, order, i) < |FinishedOf(s, order)| && FinishedOf(s, order)[EndedBefore(s, order, i)] == order[i]
  {
    FinishedAt(s, order, |order|);
    assert order[..|order|] == order;
  }

  lemma CountedAt(s: State, order: seq<Key>, t: State, done: seq<Key>)
    requires Counted(s, t, done) && |done| == EndedBefore(s, order, |order|)
    requires forall i | 0 <= i < |order| && EndedAt(s, order, i) ::
               EndedBefore(s, order, i) < |done| && done[EndedBefore(s, order, i)] == order[i]
    ensures EventsFollow(s, order, t)
  {
  }

  /** The events of one reconciliation, and the cursor each ended row is left with. */
  lemma EventsAreCounted(s: State, order: seq<Key>)
    requires Lists(s, order)
    ensures EventsFollow(s, order, ReconcileTx(s, order))
  {
    RowsAreCounted(s, order);
    FinishedInOrder(s, order);
    CountedAt(s, order, ReconcileTx(s, order), FinishedOf(s, order));
  }

  lemma UnlockedSet(s: State)
    ensures (set k | k in s.items && Unlocks(FinishItems(s), s.deps, k)) == Unlocked(s)
  {
    forall k | k in s.items
      ensures Unlocks(FinishItems(s), s.deps, k)
              <==> s.items[k].lifecycle == Pending && forall e | e in s.deps && e.0 == k :: DoneBy(s, e.1)
    {
      UnlocksIs(s, k);
    }
  }

  lemma UnlocksIs(s: State, k: Key)
    requires k in s.items
    ensures Unlocks(FinishItems(s), s.deps, k)
            <==> s.items[k].lifecycle == Pending && forall e | e in s.deps && e.0 == k :: DoneBy(s, e.1)
  {
    if Joined(s, k) {
      EndedIs(s.runs[s.items[k].run.value]);
    }
    forall e | e in s.deps && e.0 == k
      ensures (e.1 in FinishItems(s) && FinishItems(s)[e.1].lifecycle == Accepted) <==> DoneBy(s, e.1)
    {
      if e.1 in s.items {
        DoneIsAccepted(s, e.1);
      }
    }
  }

  /**
    The mission's label: what the last running row says, and cancelled if it was being
    cancelled and a run has ended. Its version counts the new wakeups.
   */
  lemma MissionIsLabelled(s: State, order: seq<Key>) returns (l: MissionLifecycle)
    requires Lists(s, order)
    ensures LabelAfter(s, order, l)
    ensures var t := ReconcileTx(s, order);
      && t.mission == s.mission.(lifecycle := t.mission.lifecycle, version := t.mission.version)
      && t.mission.lifecycle == (if l == Cancelling && EndedBefore(s, order, |order|) > 0 then MissionLifecycle.Cancelled else l)
      && t.mission.version == s.mission.version + (|t.wakeups| - |s.wakeups|)
  {
    l := Relabel(s, order);
    LabelIs(s, order);
    FinishedOfIs(s, order);
    AnnouncedMission(Settled(s, order), FinishedOf(s, order));
    FinishedInOrder(s, order);
  }

  predicate Wakes(m: Mission, l: MissionLifecycle) {
    m.autonomous && l !in {Cancelling, Paused, MissionLifecycle.Cancelled, MissionLifecycle.Completed, Archived}
  }

  /** Who has been told so far, and that nobody else has. */
  ghost predicate Told(m: State, t: State, done: seq<Key>)
    requires forall k | k in done :: k in m.items && m.items[k].run.Some?
  {
    if !Wakes(m.mission, m.mission.lifecycle) then t.wakeups == m.wakeups
    else
      && (forall i | 0 <= i < |done| ::
            var wk := RunTerminal(m.items[done[i]].run.value, m.items[done[i]].lifecycle);
            && wk in t.wakeups
            && (wk !in m.wakeups ==>
                  t.wakeups[wk] == Wakeup(m.mission.directive, m.mission.team, m.cursor + i + 1, Some(done[i]), m.items[done[i]].run, WakeupPending)))
      && (forall wk | wk in t.wakeups && wk !in m.wakeups ::
            exists i :: 0 <= i < |done| && wk == RunTerminal(m.items[done[i]].run.value, m.items[done[i]].lifecycle))
  }

  lemma ToldOneMore(m: State, t: State, rest: seq<Key>, k: Key)
    requires forall x | x in rest + [k] :: x in m.items && m.items[x].run.Some?
    requires k in m.items && forall x | x in rest :: x in m.items && m.items[x].run.Some? && m.items[x].run != m.items[k].run
    requires Told(m, t, rest) && k in t.items && t.items[k] == m.items[k] && t.items[k].run.Some?
    requires t.cursor == m.cursor + |rest| && Wakes(t.mission, t.mission.lifecycle) == Wakes(m.mission, m.mission.lifecycle)
    requires t.mission.directive == m.mission.directive && t.mission.team == m.mission.team
    requires forall wk | wk in m.wakeups :: wk in t.wakeups
    ensures Told(m, AnnounceOne(t, k), rest + [k])
  {
    var done, u := rest + [k], AnnounceOne(t, k);
    assert u.wakeups == WakeupsAfter(t, k);
    if Wakes(m.mission, m.mission.lifecycle) {
      forall i | 0 <= i < |done|
        ensures var wk := RunTerminal(m.items[done[i]].run.value, m.items[done[i]].lifecycle);
          && wk in u.wakeups
          && (wk !in m.wakeups ==>
                u.wakeups[wk] == Wakeup(m.mission.directive, m.mission.team, m.cursor + i + 1, Some(done[i]), m.items[done[i]].run, WakeupPending))
      {
        if i < |rest| {
          assert done[i] == rest[i] && rest[i] in rest;
        } else {
          NotTold(m, t, rest, k);
        }
      }
      forall wk | wk in u.wakeups && wk !in m.wakeups
        ensures exists i :: 0 <= i < |done| && wk == RunTerminal(m.items[done[i]].run.value, m.items[done[i]].lifecycle)
      {
        if wk in t.wakeups {
          var i :| 0 <= i < |rest| && wk == RunTerminal(m.items[rest[i]].run.value, m.items[rest[i]].lifecycle);
          assert done[i] == rest[i];
        } else {
          assert done[|rest|] == k;
        }
      }
    }
  }

  lemma NotTold(m: State, t: State, rest: seq<Key>, k: Key)
    requires k in m.items && forall x | x in rest :: x in m.items && m.items[x].run.Some? && m.items[x].run != m.items[k].run
    requires m.items[k].run.Some? && Told(m, t, rest) && Wakes(m.mission, m.mission.lifecycle)
    ensures var wk := RunTerminal(m.items[k].run.value, m.items[k].lifecycle); wk !in m.wakeups ==> wk !in t.wakeups
  {
    var wk := RunTerminal(m.items[k].run.value, m.items[k].lifecycle);
    forall i | 0 <= i < |rest| ensures wk != RunTerminal(m.items[rest[i]].run.value, m.items[rest[i]].lifecycle) {
      assert rest[i] in rest;
    }
  }

  lemma {:induction false} AnnouncedWakeups(m: State, done: seq<Key>)
    requires forall k | k in done :: k in m.items && m.items[k].run.Some?
    requires forall i, j | 0 <= i < j < |done| :: done[i] != done[j]
    requires forall i, j | 0 <= i < j < |done| && done[i] in m.items && done[j] in m.items :: m.items[done[i]].run != m.items[done[j]].run
    ensures Told(m, Announce(m, done), done)
  {
    if done != [] {
      var rest, k := done[..|done| - 1], done[|done| - 1];
      assert done == rest + [k] && k in done && k !in rest;
      assert forall x | x in rest :: x in done;
      forall x | x in rest ensures m.items[x].run != m.items[k].run {
        var i :| 0 <= i < |rest| && rest[i] == x;
        assert done[i] == x && done[|rest|] == k;
      }
      AnnouncedWakeups(m, rest);
      AnnounceFrame(m, rest);
      AnnouncedMission(m, rest);
      ToldOneMore(m, Announce(m, rest), rest, k);
    }
  }

  lemma FinishedRunsDiffer(s: State, order: seq<Key>)
    requires Inv(s) && Lists(s, order)
    ensures forall i, j | 0 <= i < j < |FinishedOf(s, order)| ::
              && FinishedOf(s, order)[i] in s.items && FinishedOf(s, order)[j] in s.items
              && s.items[FinishedOf(s, order)[i]].run != s.items[FinishedOf(s, order)[j]].run
  {
    var done := FinishedOf(s, order);
    FinishedOfIs(s, order);
    FinishedDiffer(s, order);
    forall i, j | 0 <= i < j < |done|
      ensures done[i] in s.items && done[j] in s.items && s.items[done[i]].run != s.items[done[j]].run
    {
      assert done[i] in done && done[j] in done;
      if s.items[done[i]].run == s.items[done[j]].run {
        BacklogWakeups.RunsDistinct(s, done[i], done[j]);
      }
    }
  }

  lemma ReconcileTold(s: State, order: seq<Key>)
    requires Inv(s) && Lists(s, order)
    ensures forall k | k in FinishedOf(s, order) :: k in Settled(s, order).items && Settled(s, order).items[k].run.Some?
    ensures Told(Settled(s, order), ReconcileTx(s, order), FinishedOf(s, order))
  {
    FinishedOfIs(s, order);
    FinishedDiffer(s, order);
    FinishedRunsDiffer(s, order);
    AnnouncedWakeups(Settled(s, order), FinishedOf(s, order));
  }

  /** The wakeup is about this row as it was left, under the directive and team of the moment. */
  predicate IsAbout(s: State, t: State, wk: WakeupKey, k: Key) {
    && k in t.items && t.items[k].run.Some? && t.items[k].cursor.Some? && wk in t.wakeups
    && wk == RunTerminal(t.items[k].run.value, t.items[k].lifecycle)
    && t.wakeups[wk] == Wakeup(s.mission.directive, s.mission.team, t.items[k].cursor.value, Some(k), t.items[k].run, WakeupPending)
  }

  /** The manager is woken for exactly the runs that ended, if at all. */
  ghost predicate WakesFor(s: State, order: seq<Key>, l: MissionLifecycle, t: State) {
    && (forall wk | wk in s.wakeups :: wk in t.wakeups && t.wakeups[wk] == s.wakeups[wk])
    && if !Wakes(s.mission, l) then t.wakeups == s.wakeups
       else
         && (forall i | 0 <= i < |order| && EndedAt(s, order, i) ::
               && order[i] in t.items && t.items[order[i]].run.Some?
               && RunTerminal(t.items[order[i]].run.value, t.items[order[i]].lifecycle) in t.wakeups)
         && (forall wk | wk in t.wakeups && wk !in s.wakeups ::
               exists i :: 0 <= i < |order| && EndedAt(s, order, i) && IsAbout(s, t, wk, order[i]))
  }

  /** What the pieces of a reconciliation say about its finished rows. */
  ghost predicate Piecewise(s: State, m: State, t: State, done: seq<Key>) {
    && m.wakeups == s.wakeups && m.cursor == s.cursor && Numbered(m, t, done)
    && m.mission.directive == s.mission.directive && m.mission.team == s.mission.team && m.mission.autonomous == s.mission.autonomous
    && (forall wk | wk in s.wakeups :: wk in t.wakeups && t.wakeups[wk] == s.wakeups[wk])
    && (forall k | k in done ::
          && k in m.items && k in t.items && m.items[k].run.Some?
          && t.items[k].run == m.items[k].run && t.items[k].lifecycle == m.items[k].lifecycle)
    && Told(m, t, done)
  }

  predicate RowAgrees(m: State, t: State, k: Key) {
    && k in m.items && k in t.items && m.items[k].run.Some?
    && t.items[k].run == m.items[k].run && t.items[k].lifecycle == m.items[k].lifecycle
  }

  lemma FinishedRow(s: State, order: seq<Key>, k: Key)
    requires Lists(s, order) && Finishing(s, k)
    ensures RowAgrees(Settled(s, order), ReconcileTx(s, order), k)
  {
    ReconcileFrame(s, order);
    assert ReconciledRow(s, ReconcileTx(s, order), k);
    SettledRow(s, order, k);
  }

  lemma SettledKeeps(s: State, order: seq<Key>)
    requires Lists(s, order)
    ensures var m := Settled(s, order);
      m.wakeups == s.wakeups && m.cursor == s.cursor && m.mission == s.mission.(lifecycle := m.mission.lifecycle)
  {
  }

  lemma Assemble(s: State, m: State, t: State, done: seq<Key>)
    requires m.wakeups == s.wakeups && m.cursor == s.cursor && m.mission == s.mission.(lifecycle := m.mission.lifecycle)
    requires Counted(s, t, done) && (forall wk | wk in s.wakeups :: wk in t.wakeups && t.wakeups[wk] == s.wakeups[wk])
    requires forall k | k in done :: RowAgrees(m, t, k)
    requires forall k | k in done :: k in m.items && m.items[k].run.Some?
    requires Told(m, t, done)
    ensures Piecewise(s, m, t, done)
  {
  }

  lemma PiecesAre(s: State, order: seq<Key>)
    requires Inv(s) && Lists(s, order)
    ensures Piecewise(s, Settled(s, order), ReconcileTx(s, order), FinishedOf(s, order))
  {
    ReconcileTold(s, order);
    RowsAreCounted(s, order);
    ReconcileFrame(s, order);
    SettledKeeps(s, order);
    FinishedOfIs(s, order);
    forall k | k in FinishedOf(s, order) ensures RowAgrees(Settled(s, order), ReconcileTx(s, order), k) {
      FinishedRow(s, order, k);
    }
    Assemble(s, Settled(s, order), ReconcileTx(s, order), FinishedOf(s, order));
  }

  lemma PiecesWake(s: State, order: seq<Key>, m: State, t: State, done: seq<Key>)
    requires Piecewise(s, m, t, done)
    requires forall k :: k in done <==> exists i :: 0 <= i < |order| && order[i] == k && EndedAt(s, order, i)
    ensures WakesFor(s, order, m.mission.lifecycle, t)
  {
    if Wakes(s.mission, m.mission.lifecycle) {
      forall i | 0 <= i < |order| && EndedAt(s, order, i)
        ensures order[i] in t.items && t.items[order[i]].run.Some?
        ensures RunTerminal(t.items[order[i]].run.value, t.items[order[i]].lifecycle) in t.wakeups
      {
        assert order[i] in done;
      }
      forall wk | wk in t.wakeups && wk !in s.wakeups
        ensures exists i :: 0 <= i < |order| && EndedAt(s, order, i) && IsAbout(s, t, wk, order[i])
      {
        var j :| 0 <= j < |done| && wk == RunTerminal(m.items[done[j]].run.value, m.items[done[j]].lifecycle);
        assert done[j] in done && IsAbout(s, t, wk, done[j]);
      }
    }
  }

  lemma FinishedExactly(s: State, order: seq<Key>)
    ensures forall k :: k in FinishedOf(s, order) <==> exists i :: 0 <= i < |order| && order[i] == k && EndedAt(s, order, i)
  {
    FinishedOfIs(s, order);
    forall i | 0 <= i < |order| ensures EndedAt(s, order, i) <==> Finishing(s, order[i]) {
      EndedAtIs(s, order, i);
    }
  }

  /**
    The manager is woken for exactly the runs that ended, unless the mission is manual, over
    or on its way out: under the directive and team of the moment, about the item, its run
    and the event just written, and once for a run and its outcome.
   */
  lemma WakeupsAreWritten(s: State, order: seq<Key>) returns (l: MissionLifecycle)
    requires Inv(s) && Lists(s, order)
    ensures LabelAfter(s, order, l) && WakesFor(s, order, l, ReconcileTx(s, order))
  {
    l := Relabel(s, order);
    LabelIs(s, order);
    PiecesAre(s, order);
    FinishedExactly(s, order);
    PiecesWake(s, order, Settled(s, order), ReconcileTx(s, order), FinishedOf(s, order));
  }
}
