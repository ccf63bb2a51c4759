/** Work never gets stuck: why acyclicity and reconciliation together guarantee progress. */
module BacklogProgress {
  import opened Graphs
  import opened Decisions
  import opened Backlog
  import opened BacklogSafety

  function Unaccepted(s: State): set<Key> {
    set k | k in s.items && s.items[k].lifecycle != Accepted
  }

  /** No item has failed or been cancelled. */
  predicate NothingLost(s: State) {
    forall k | k in s.items :: s.items[k].lifecycle !in {ItemLifecycle.Blocked, ItemLifecycle.Cancelled}
  }

  predicate CanMove(s: State, k: Key) {
    k in s.items && s.items[k].lifecycle in {Ready, Started}
  }

  /** What stays pending after a reconciliation still waits for something unaccepted. */
  lemma StillPending(s: State, t: State, k: Key)
    requires ForeignKeys(s) && k in s.items && t.items.Keys == s.items.Keys
    requires forall l | l in s.items :: ReconciledRow(s, t, l)
    requires t.items[k].lifecycle == Pending
    ensures exists e :: e in s.deps && e.0 == k && e.1 in Unaccepted(t)
  {
    assert ReconciledRow(s, t, k);
    assert !DepsAccepted(FinishItems(s), s.deps, k);
    var e :| e in s.deps && e.0 == k && !(e.1 in FinishItems(s) && FinishItems(s)[e.1].lifecycle == Accepted);
    assert ReconciledRow(s, t, e.1);
    assert e.1 in Unaccepted(t);
  }

  /** What a reconciled backlog looks like: pending items wait for something unaccepted. */
  ghost predicate WaitsForReason(t: State) {
    forall k | k in t.items && t.items[k].lifecycle == Pending ::
      exists e :: e in t.deps && e.0 == k && e.1 in Unaccepted(t)
  }

  lemma AcyclicBacklogMoves(t: State)
    requires Acyclic(t.deps) && NothingLost(t) && WaitsForReason(t) && Unaccepted(t) != {}
    ensures exists k :: CanMove(t, k)
  {
    var start :| start in Unaccepted(t);
    var k := FindSink(t.deps, Unaccepted(t), [start]);
    assert forall e | e in t.deps && e.0 == k :: (k, e.1) == e;
    assert CanMove(t, k);
  }

  /**
    Progress: unless every item is accepted, a reconciliation of a backlog with nothing
    lost leaves some item ready or started.
   */
  lemma SomethingCanMove(s: State, order: seq<Key>)
    requires Inv(s) && Lists(s, order)
    requires NothingLost(ReconcileTx(s, order)) && Unaccepted(ReconcileTx(s, order)) != {}
    ensures exists k :: CanMove(ReconcileTx(s, order), k)
  {
    var t := ReconcileTx(s, order);
    ReconcileFrame(s, order);
    forall k | k in t.items && t.items[k].lifecycle == Pending
      ensures exists e :: e in t.deps && e.0 == k && e.1 in Unaccepted(t)
    {
      StillPending(s, t, k);
    }
    AcyclicBacklogMoves(t);
  }

  /** Every dispatched run has come to a successful end. */
  predicate AllRunsCompleted(s: State) {
    forall k | k in s.items && s.items[k].lifecycle == Started ::
      s.items[k].run.Some? && s.items[k].run.value in s.runs && s.runs[s.items[k].run.value] == RunStatus.Completed
  }

  lemma ReconcileAccepts(s: State, order: seq<Key>, k: Key)
    requires Lists(s, order) && AllRunsCompleted(s) && k in s.items && s.items[k].lifecycle in {Started, Accepted}
    ensures k in ReconcileTx(s, order).items && ReconcileTx(s, order).items[k].lifecycle == Accepted
  {
    ReconcileFrame(s, order);
    assert ReconciledRow(s, ReconcileTx(s, order), k);
  }

  lemma ReconcileLosesNothing(s: State, order: seq<Key>)
    requires Lists(s, order) && AllRunsCompleted(s) && NothingLost(s)
    ensures NothingLost(ReconcileTx(s, order))
  {
    ReconcileFrame(s, order);
    forall k | k in s.items
      ensures ReconcileTx(s, order).items[k].lifecycle !in {ItemLifecycle.Blocked, ItemLifecycle.Cancelled}
    {
      assert ReconciledRow(s, ReconcileTx(s, order), k);
    }
  }

  /** If every dispatched run completes, a reconciliation accepts all started items: the measure drops. */
  lemma CompletedWorkIsAccepted(s: State, order: seq<Key>)
    requires Inv(s) && Lists(s, order) && AllRunsCompleted(s) && NothingLost(s)
    ensures var t := ReconcileTx(s, order);
      && NothingLost(t)
      && Unaccepted(t) <= Unaccepted(s)
      && ((exists k :: k in s.items && s.items[k].lifecycle == Started) ==> |Unaccepted(t)| < |Unaccepted(s)|)
      && (Unaccepted(t) == {} || exists k :: CanMove(t, k))
  {
    var t := ReconcileTx(s, order);
    ReconcileFrame(s, order);
    ReconcileLosesNothing(s, order);
    forall k | k in Unaccepted(t) ensures k in Unaccepted(s) && s.items[k].lifecycle != Started {
      if s.items[k].lifecycle in {Started, Accepted} {
        ReconcileAccepts(s, order, k);
      }
    }
    if k :| k in s.items && s.items[k].lifecycle == Started {
      Smaller(Unaccepted(t), Unaccepted(s), k);
    }
    if Unaccepted(t) != {} {
      SomethingCanMove(s, order);
    }
  }

  lemma Smaller(x: set<Key>, y: set<Key>, k: Key)
    requires x <= y && k in y && k !in x
    ensures |x| < |y|
  {
    assert x <= y - {k};
    SubsetSize(x, y - {k});
  }

  lemma {:induction false} SubsetSize(x: set<Key>, y: set<Key>)
    requires x <= y
    ensures |x| <= |y|
  {
    if k :| k in x {
      SubsetSize(x - {k}, y - {k});
    }
  }

  lemma {:induction false} Enumerate(keys: set<Key>) returns (order: seq<Key>)
    ensures forall k :: k in order <==> k in keys
    ensures forall i, j | 0 <= i < j < |order| :: order[i] != order[j]
    decreases keys
  {
    if keys == {} {
      order := [];
    } else {
      var k :| k in keys;
      var rest := Enumerate(keys - {k});
      order := rest + [k];
    }
  }

  lemma StartedRows(s: State) returns (order: seq<Key>)
    ensures Lists(s, order)
  {
    order := Enumerate(set k | k in s.items && Joined(s, k));
  }

  /** The owner's latest direction covers the whole backlog. */
  predicate AllCurrent(s: State) {
    forall k | k in s.items :: s.items[k].directive == s.mission.directive
  }

  lemma {:induction false} AnnounceMission(s: State, done: seq<Key>)
    requires forall k | k in done :: k in s.items && s.items[k].run.Some?
    requires s.mission.lifecycle != Cancelling
    ensures Announce(s, done).mission == s.mission.(version := Announce(s, done).mission.version)
  {
    if done != [] {
      AnnounceMission(s, done[..|done| - 1]);
    }
  }
}
