/** What each of the three transactions of a launch does, and which request governs an item. */
module LaunchEffects {
  import opened Wrappers
  import opened Decisions
  import opened Backlog
  import BacklogSafety

  /** Never run, ready under the present directive, and everything it depends on accepted. */
  predicate Launchable(s: State, k: Key) {
    && k in s.items && s.items[k].run.None? && s.items[k].lifecycle == Ready && s.items[k].directive == s.mission.directive
    && forall e | e in s.deps && e.0 == k :: e.1 in s.items && s.items[e.1].lifecycle == Accepted
  }

  /** The guards pass exactly for a launchable item that is admitted; its content is what will be asked for. */
  lemma CheckPassesExactly(s: State, pid: nat, k: Key, admitted: bool)
    requires pid !in s.launches
    ensures var u := Step(s, LaunchCheck(pid, k, admitted));
      && (pid in u.launches <==> Launchable(s, k) && admitted)
      && (pid in u.launches ==>
            && u.launches[pid].Checked? && u.launches[pid].key == k
            && u.launches[pid].request.body == s.items[k].body && u.launches[pid].request.priority == s.items[k].priority
            && u.launches[pid].request.team == s.mission.team)
      && u.launches - {pid} == s.launches && u == s.(launches := u.launches)
  {
    var u := LaunchCheckTx(s, pid, k, admitted);
    assert u == Step(s, LaunchCheck(pid, k, admitted));
    assert u.launches - {pid} == s.launches;
  }

  /** The same content under the same team. */
  predicate SameWork(a: JobRequest, b: JobRequest) {
    a.body == b.body && a.priority == b.priority && a.team == b.team
  }

  /** A fresh run for this request, remembered under the item. */
  predicate Fresh(s: State, pid: nat, k: Key, r: JobRequest, u: State) {
    var run := EnqueuedRun(s.serial);
    && u.runs == s.runs[run := Queued] && u.jobs == s.jobs[k := StoredJob(r, run)]
    && u.launches == s.launches[pid := Enqueued(k, run)]
    && u == s.(launches := u.launches, runs := u.runs, jobs := u.jobs, serial := s.serial + 1, cursor := s.cursor + 3)
  }

  /** The first request draws a fresh run; the same one again gets that run; another is refused. */
  lemma EnqueueAnswers(s: State, pid: nat, available: bool)
    requires pid in s.launches && s.launches[pid].Checked?
    ensures var k, r, u := s.launches[pid].key, s.launches[pid].request, Step(s, LaunchEnqueue(pid, available));
      && (available && k !in s.jobs ==> Fresh(s, pid, k, r, u))
      && (available && k in s.jobs && SameWork(s.jobs[k].request, r) ==>
            u == s.(launches := s.launches[pid := Enqueued(k, s.jobs[k].run)]))
      && (!available || (k in s.jobs && !SameWork(s.jobs[k].request, r)) ==> u == s.(launches := s.launches - {pid}))
  {
    assert Step(s, LaunchEnqueue(pid, available)) == LaunchEnqueueTx(s, pid, available);
  }

  /** The item is started on the enqueued run exactly if it has no other; the launch is over either way. */
  lemma FinishStartsExactly(s: State, pid: nat)
    requires pid in s.launches && s.launches[pid].Enqueued? && s.launches[pid].key in s.items
    ensures var k, r, u := s.launches[pid].key, s.launches[pid].run, Step(s, LaunchFinish(pid));
      && u.launches == s.launches - {pid}
      && (s.items[k].run.None? || s.items[k].run.value == r ==>
            && u.items == s.items[k := s.items[k].(run := Some(r), lifecycle := Started, version := s.items[k].version + 1)]
            && u.mission == s.mission.(version := s.mission.version + 1)
            && u == s.(launches := u.launches, items := u.items, mission := u.mission, cursor := s.cursor + 1))
      && (!(s.items[k].run.None? || s.items[k].run.value == r) ==> u == s.(launches := u.launches))
  {
    assert Step(s, LaunchFinish(pid)) == LaunchFinishTx(s, pid);
  }

  /** A launch nobody interferes with starts the item on a fresh queued run. */
  lemma WholeLaunchStarts(s: State, pid: nat, k: Key)
    requires pid !in s.launches && Launchable(s, k) && k !in s.jobs
    ensures var u := Step(Step(Step(s, LaunchCheck(pid, k, true)), LaunchEnqueue(pid, true)), LaunchFinish(pid));
      && u.items == s.items[k := s.items[k].(run := Some(EnqueuedRun(s.serial)), lifecycle := Started, version := s.items[k].version + 1)]
      && EnqueuedRun(s.serial) in u.runs && u.runs[EnqueuedRun(s.serial)] == Queued
      && u.launches == s.launches
  {
    CheckPassesExactly(s, pid, k, true);
    var c := Step(s, LaunchCheck(pid, k, true));
    EnqueueAnswers(c, pid, true);
    FinishStartsExactly(Step(c, LaunchEnqueue(pid, true)), pid);
  }

  // ------------------------------------------------------------------ the first request governs

  lemma LaunchKeepsJobs(s: State, op: Op, k: Key)
    requires IsLaunch(op) && k in s.jobs
    ensures k in LaunchTx(s, op).jobs && LaunchTx(s, op).jobs[k] == s.jobs[k]
  {
  }

  lemma RestKeepsJobs(s: State, op: Op)
    requires !op.Apply? && !op.Dispatch? && !op.Reconcile? && !IsLaunch(op)
    ensures (if IsTurn(op) then TurnTx(s, op) else OwnerTx(s, op)).jobs == s.jobs
  {
  }

  lemma StepKeepsJobs(s: State, op: Op, k: Key)
    requires k in s.jobs
    ensures k in Step(s, op).jobs && Step(s, op).jobs[k] == s.jobs[k]
  {
    match op
    case Apply(t, d, admitted) => if t in s.turns { assert ApplyTx(s, t, d, admitted).jobs == s.jobs; }
    case Dispatch(l, gate, limit) => BacklogSafety.DispatchIs(s, l, gate, limit);
    case Reconcile(order) => if Lists(s, order) { BacklogSafety.ReconcileFrame(s, order); }
    case _ => if IsLaunch(op) { LaunchKeepsJobs(s, op, k); } else { RestKeepsJobs(s, op); }
  }

  lemma {:induction false} JobsAreForGood(s: State, ops: seq<Op>, k: Key)
    requires k in s.jobs
    ensures k in Run(s, ops).jobs && Run(s, ops).jobs[k] == s.jobs[k]
  {
    if ops != [] {
      JobsAreForGood(s, ops[..|ops| - 1], k);
      StepKeepsJobs(Run(s, ops[..|ops| - 1]), ops[|ops| - 1], k);
    }
  }

  /**
    The first request enqueued for an item governs it for good: after any run a launch of
    it gets the run of that request exactly if it asks for the same work under the same
    team, and is refused otherwise.
   */
  lemma FirstRequestGoverns(s: State, ops: seq<Op>, k: Key, pid: nat)
    requires k in s.jobs
    requires pid in Run(s, ops).launches && Run(s, ops).launches[pid].Checked? && Run(s, ops).launches[pid].key == k
    ensures var t := Run(s, ops);
      var u := Step(t, LaunchEnqueue(pid, true));
      && u.runs == t.runs
      && if SameWork(s.jobs[k].request, t.launches[pid].request)
         then pid in u.launches && u.launches[pid] == Enqueued(k, s.jobs[k].run)
         else pid !in u.launches
  {
    JobsAreForGood(s, ops, k);
    EnqueueAnswers(Run(s, ops), pid, true);
  }
}
