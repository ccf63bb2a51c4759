/** The legacy task graph: develop, verify, review, and at most seven attempts at each task. */
module LegacyGraph {
  const MAX_ATTEMPTS := 7

  datatype Task = Task(commands: seq<string>)

  datatype Verdict = Pass | Fail

  datatype Status = Working | Complete | Blocked

  datatype Node = SelectTask | Developer | Verify | Reviewer | Advance | BlockedNode | End

  /**
    Everything from outside: what each command of a task exits with after each attempt,
    and the reviewer's answer, stripped and in capitals.
   */
  datatype World = World(exit: (nat, nat, nat) -> int, answer: (nat, nat) -> string)

  datatype State = State(
    node: Node, tasks: seq<Task>, index: nat, attempt: nat, results: seq<int>, verdict: Verdict, status: Status)

  function Start(tasks: seq<Task>): State {
    State(SelectTask, tasks, 0, 0, [], Fail, Working)
  }

  /** The exit codes of one verification; a task without commands fails it. */
  function Results(w: World, task: Task, index: nat, attempt: nat): seq<int> {
    if task.commands == [] then [1] else seq(|task.commands|, k requires 0 <= k => w.exit(index, attempt, k))
  }

  /** A failed command decides; otherwise anything but PASS is a failure. */
  function Review(w: World, s: State): Verdict {
    if exists r | r in s.results :: r != 0 then Fail
    else if w.answer(s.index, s.attempt) == "PASS" then Pass else Fail
  }

  function RouteReview(s: State): Node {
    if s.verdict == Pass then Advance
    else if s.attempt >= MAX_ATTEMPTS then BlockedNode
    else Developer
  }

  function RouteAdvance(s: State): Node {
    if s.status == Complete then End else SelectTask
  }

  function Step(w: World, s: State): State
    requires s.index < |s.tasks| || s.node == End
  {
    match s.node
    case SelectTask => s.(attempt := 0, node := Developer)
    case Developer => s.(attempt := s.attempt + 1, node := Verify)
    case Verify => s.(results := Results(w, s.tasks[s.index], s.index, s.attempt), node := Reviewer)
    case Reviewer =>
      var t := s.(verdict := Review(w, s));
      t.(node := RouteReview(t))
    case Advance =>
      var t := if s.index + 1 >= |s.tasks| then s.(index := s.index + 1, status := Complete)
               else s.(index := s.index + 1, attempt := 0, status := Working);
      t.(node := RouteAdvance(t))
    case BlockedNode => s.(status := Blocked, node := End)
    case End => s
  }

  // ------------------------------------------------------------------ what a run is judged by

  /** After this attempt the task had commands, all of them exited with zero, and the review passed. */
  predicate Passes(w: World, tasks: seq<Task>, index: nat, attempt: nat)
    requires index < |tasks|
  {
    && tasks[index].commands != []
    && (forall k | 0 <= k < |tasks[index].commands| :: w.exit(index, attempt, k) == 0)
    && w.answer(index, attempt) == "PASS"
  }

  /** Some attempt up to the limit passes. */
  predicate Feasible(w: World, tasks: seq<Task>, index: nat)
    requires index < |tasks|
  {
    exists a | 1 <= a <= MAX_ATTEMPTS :: Passes(w, tasks, index, a)
  }

  predicate AllFail(w: World, tasks: seq<Task>, index: nat, upTo: nat)
    requires index < |tasks|
  {
    forall a | 1 <= a <= upTo :: !Passes(w, tasks, index, a)
  }

  lemma VerdictIsPassing(w: World, s: State)
    requires s.index < |s.tasks| && s.results == Results(w, s.tasks[s.index], s.index, s.attempt)
    ensures Review(w, s) == Pass <==> Passes(w, s.tasks, s.index, s.attempt)
  {
    var task := s.tasks[s.index];
    if task.commands == [] {
      assert s.results[0] == 1 && s.results[0] in s.results;
    } else {
      assert forall k | 0 <= k < |task.commands| :: s.results[k] == w.exit(s.index, s.attempt, k) && s.results[k] in s.results;
    }
  }

  lemma FailsAll(w: World, tasks: seq<Task>, index: nat)
    requires index < |tasks|
    ensures AllFail(w, tasks, index, MAX_ATTEMPTS) <==> !Feasible(w, tasks, index)
  {
  }

  predicate Inv(w: World, s: State) {
    && s.index <= |s.tasks|
    && (forall i | 0 <= i < s.index :: Feasible(w, s.tasks, i))
    && match s.node
       case End =>
         || (s.status == Complete && s.index == |s.tasks|)
         || (s.status == Blocked && s.index < |s.tasks| && s.attempt == MAX_ATTEMPTS && AllFail(w, s.tasks, s.index, MAX_ATTEMPTS))
       case SelectTask => s.status == Working && s.index < |s.tasks|
       case Developer =>
         s.status == Working && s.index < |s.tasks| && s.attempt < MAX_ATTEMPTS && AllFail(w, s.tasks, s.index, s.attempt)
       case Verify =>
         s.status == Working && s.index < |s.tasks| && 1 <= s.attempt <= MAX_ATTEMPTS && AllFail(w, s.tasks, s.index, s.attempt - 1)
       case Reviewer =>
         && s.status == Working && s.index < |s.tasks| && 1 <= s.attempt <= MAX_ATTEMPTS
         && AllFail(w, s.tasks, s.index, s.attempt - 1)
         && s.results == Results(w, s.tasks[s.index], s.index, s.attempt)
       case Advance =>
         s.status == Working && s.index < |s.tasks| && 1 <= s.attempt <= MAX_ATTEMPTS && Passes(w, s.tasks, s.index, s.attempt)
       case BlockedNode =>
         s.status == Working && s.index < |s.tasks| && s.attempt == MAX_ATTEMPTS && AllFail(w, s.tasks, s.index, MAX_ATTEMPTS)
  }

  /** Tasks left, then attempts left, then the nodes of one attempt. */
  function StepsLeft(s: State): int {
    var budget := 23 * (|s.tasks| - s.index);
    match s.node
    case SelectTask => budget
    case Developer => budget - 1 - 3 * s.attempt
    case Verify => budget + 1 - 3 * s.attempt
    case Reviewer => budget - 3 * s.attempt
    case Advance => budget - 22
    case BlockedNode => budget - 22
    case End => 0
  }

  lemma ReviewKeeps(w: World, s: State)
    requires Inv(w, s) && s.node == Reviewer
    ensures Inv(w, Step(w, s)) && 0 <= StepsLeft(Step(w, s)) < StepsLeft(s)
  {
    VerdictIsPassing(w, s);
  }

  lemma StepKeeps(w: World, s: State)
    requires Inv(w, s) && s.node != End
    ensures Inv(w, Step(w, s)) && 0 <= StepsLeft(Step(w, s)) < StepsLeft(s)
  {
    if s.node == Reviewer {
      ReviewKeeps(w, s);
    }
  }

  function After(w: World, s: State, n: nat): (t: State)
    requires Inv(w, s)
    ensures Inv(w, t)
    decreases n
  {
    if n == 0 || s.node == End then s
    else
      StepKeeps(w, s);
      After(w, Step(w, s), n - 1)
  }

  lemma {:induction false} HaltsInTime(w: World, s: State, n: nat)
    requires Inv(w, s) && StepsLeft(s) <= n
    ensures After(w, s, n).node == End
    decreases n
  {
    if s.node != End {
      StepKeeps(w, s);
      HaltsInTime(w, Step(w, s), n - 1);
    }
  }

  /**
    Whatever the commands and the reviewer answer, the graph stops within twenty-three
    steps a task. It ends complete exactly when every task passes on one of its first
    seven attempts, and otherwise blocked at the first task whose seven attempts all fail.
   */
  lemma EveryProjectEnds(w: World, tasks: seq<Task>)
    requires tasks != []
    ensures Inv(w, Start(tasks))
    ensures var t := After(w, Start(tasks), 23 * |tasks|);
      && t.node == End && t.tasks == tasks
      && (t.status == Complete <==> forall i | 0 <= i < |tasks| :: Feasible(w, tasks, i))
      && (t.status == Blocked <==> exists i | 0 <= i < |tasks| :: AllFail(w, tasks, i, MAX_ATTEMPTS))
      && (t.status == Blocked ==>
            t.index < |tasks| && AllFail(w, tasks, t.index, MAX_ATTEMPTS) && forall i | 0 <= i < t.index :: Feasible(w, tasks, i))
  {
    HaltsInTime(w, Start(tasks), 23 * |tasks|);
    TasksStay(w, Start(tasks), 23 * |tasks|);
    forall i | 0 <= i < |tasks| ensures AllFail(w, tasks, i, MAX_ATTEMPTS) <==> !Feasible(w, tasks, i) {
      FailsAll(w, tasks, i);
    }
  }

  lemma {:induction false} TasksStay(w: World, s: State, n: nat)
    requires Inv(w, s)
    ensures After(w, s, n).tasks == s.tasks
    decreases n
  {
    if n > 0 && s.node != End {
      StepKeeps(w, s);
      TasksStay(w, Step(w, s), n - 1);
    }
  }

  /** How often the developer node runs for this task in the next steps. */
  function Attempts(w: World, s: State, n: nat, index: nat): nat
    requires Inv(w, s)
    decreases n
  {
    if n == 0 || s.node == End then 0
    else
      StepKeeps(w, s);
      (if s.node == Developer && s.index == index then 1 else 0) + Attempts(w, Step(w, s), n - 1, index)
  }

  function Allowance(s: State, index: nat): int {
    if s.node == End || index < s.index then 0
    else if index > s.index || s.node == SelectTask then MAX_ATTEMPTS
    else MAX_ATTEMPTS - s.attempt
  }

  lemma {:induction false} AttemptsAllowed(w: World, s: State, n: nat, index: nat)
    requires Inv(w, s)
    ensures Attempts(w, s, n, index) <= Allowance(s, index)
    decreases n
  {
    if n > 0 && s.node != End {
      StepKeeps(w, s);
      AttemptsAllowed(w, Step(w, s), n - 1, index);
    }
  }

  /** No run, however long, attempts a task an eighth time. */
  lemma SevenAttempts(w: World, tasks: seq<Task>, n: nat, index: nat)
    requires tasks != []
    ensures Inv(w, Start(tasks)) && Attempts(w, Start(tasks), n, index) <= MAX_ATTEMPTS
  {
    AttemptsAllowed(w, Start(tasks), n, index);
  }

  // ------------------------------------------------------------------ the loops

  /** Runs every command in order, or reports that there is none. */
  method VerifyTask(w: World, task: Task, index: nat, attempt: nat) returns (results: seq<int>)
    ensures results == Results(w, task, index, attempt)
  {
    results := [];
    if task.commands == [] {
      return results + [1];
    }
    for k := 0 to |task.commands|
      invariant |results| == k && forall j | 0 <= j < k :: results[j] == w.exit(index, attempt, j)
    {
      results := results + [w.exit(index, attempt, k)];
    }
  }

  /** The graph as its engine runs it, node after node. */
  method Invoke(w: World, tasks: seq<Task>) returns (s: State)
    requires tasks != []
    ensures s.node == End && s.tasks == tasks
    ensures s.status == Complete <==> forall i | 0 <= i < |tasks| :: Feasible(w, tasks, i)
    ensures s.status != Complete ==>
              s.status == Blocked && s.index < |tasks| && AllFail(w, tasks, s.index, MAX_ATTEMPTS)
              && forall i | 0 <= i < s.index :: Feasible(w, tasks, i)
  {
    s := Start(tasks);
    while s.node != End
      invariant Inv(w, s) && s.tasks == tasks && StepsLeft(s) >= 0
      decreases StepsLeft(s)
    {
      StepKeeps(w, s);
      if s.node == Verify {
        var results := VerifyTask(w, s.tasks[s.index], s.index, s.attempt);
        s := s.(results := results, node := Reviewer);
      } else {
        s := Step(w, s);
      }
    }
    if s.status == Blocked {
      FailsAll(w, tasks, s.index);
    }
  }
}
