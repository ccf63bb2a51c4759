/**
  The manager's response contract: which proposals may reach the backlog.
  The depth-first cycle search is proved to reject exactly the cyclic ones.
 */
module Decisions {
  import opened Wrappers
  import opened Graphs

  type Key = string

  datatype Action = Explain | Propose | Clarify | Wait | Complete

  datatype MissionLifecycle =
    | Active | Idle | WaitingForCapacity | WaitingForApproval | Blocked
    | Paused | Cancelling | Cancelled | Completed | Archived

  /** One proposed work item; `body` stands for title, objective and criteria. */
  datatype Proposal = Proposal(key: Key, body: string, priority: int, dependencies: seq<Key>)

  datatype Decision = Decision(
    action: Action,
    lifecycle: MissionLifecycle,
    items: seq<Proposal>,
    scheduledWakeupAt: Option<int>)

  datatype Verdict =
    | NoFault | ForbiddenLifecycle | ActionMismatch | LifecycleMismatch
    | DuplicateKey | OutsideDependency | CyclicDependency

  function Keys(items: seq<Proposal>): set<Key> {
    set p | p in items :: p.key
  }

  predicate DistinctKeys(items: seq<Proposal>) {
    forall i, j | 0 <= i < j < |items| :: items[i].key != items[j].key
  }

  function DependencySet(p: Proposal): set<Key> {
    set d | d in p.dependencies
  }

  predicate DependenciesInside(items: seq<Proposal>) {
    forall p | p in items :: DependencySet(p) <= Keys(items)
  }

  /** The dependency rows a response asks for: (item, item it waits for). */
  function Edges(items: seq<Proposal>): set<(Key, Key)> {
    set p, d | p in items && d in p.dependencies :: (p.key, d)
  }

  /** The lifecycles a response may ask for. */
  predicate Permitted(l: MissionLifecycle) {
    l in {Active, Idle, WaitingForApproval, Blocked, Completed}
  }

  /** The first rule a response breaks, with cycles meant literally. */
  ghost function Judge(d: Decision): Verdict {
    if !Permitted(d.lifecycle) then ForbiddenLifecycle
    else if (d.action == Propose) != (d.items != []) then ActionMismatch
    else if d.action == Complete && d.lifecycle != Completed then LifecycleMismatch
    else if !DistinctKeys(d.items) then DuplicateKey
    else if !DependenciesInside(d.items) then OutsideDependency
    else if !Acyclic(Edges(d.items)) then CyclicDependency
    else NoFault
  }

  /** The depth-first search over one response, with its two working sets. */
  class CycleSearch {
    const edges: map<Key, set<Key>>
    var visiting: set<Key>
    var visited: set<Key>
    ghost var finished: seq<Key>

    constructor (edges: map<Key, set<Key>>)
      requires forall k | k in edges :: edges[k] <= edges.Keys
      ensures this.edges == edges && Valid() && visiting == {} && visited == {}
    {
      this.edges := edges;
      visiting, visited, finished := {}, {}, [];
    }

    ghost function Pairs(): set<(Key, Key)> {
      set k, d | k in edges && d in edges[k] :: (k, d)
    }

    ghost predicate Valid()
      reads this
    {
      && (forall k | k in edges :: edges[k] <= edges.Keys)
      && visiting !! visited
      && visiting <= edges.Keys
      && (forall k :: k in visited <==> k in finished)
      && visited <= edges.Keys
      && Topological(Pairs(), finished)
    }

    /** `trail` is the walk that led to `key`; its nodes are those in progress. */
    method Visit(key: Key, ghost trail: seq<Key>) returns (ok: bool)
      requires Valid() && key in edges
      requires forall k :: k in trail <==> k in visiting
      requires IsPath(Pairs(), trail + [key])
      modifies this`visiting, this`visited, this`finished
      ensures ok ==> Valid() && visiting == old(visiting) && old(visited) + {key} <= visited
      ensures !ok ==> !Acyclic(Pairs())
      decreases edges.Keys - visiting
    {
      if key in visiting {
        ghost var i :| 0 <= i < |trail| && trail[i] == key;
        ghost var cycle := (trail + [key])[i..];
        SubpathIsPath(Pairs(), trail + [key], i, |trail| + 1);
        assert cycle == (trail + [key])[i..|trail| + 1];
        assert IsPath(Pairs(), cycle) && |cycle| > 1 && cycle[0] == cycle[|cycle| - 1];
        return false;
      }
      if key in visited {
        return true;
      }
      visiting := visiting + {key};
      var pending := edges[key];
      while pending != {}
        invariant pending <= edges[key]
        invariant Valid() && visiting == old(visiting) + {key}
        invariant old(visited) <= visited && edges[key] - pending <= visited
        decreases pending
      {
        var dependency :| dependency in pending;
        assert (key, dependency) in Pairs();
        ExtendPath(Pairs(), trail + [key], dependency);
        ok := Visit(dependency, trail + [key]);
        if !ok {
          return;
        }
        pending := pending - {dependency};
      }
      visiting := visiting - {key};
      FinishTopological(Pairs(), finished, key);
      visited, finished := visited + {key}, finished + [key];
      ok := true;
    }
  }

  lemma FinishTopological(edges: set<(Key, Key)>, order: seq<Key>, key: Key)
    requires Topological(edges, order)
    requires forall e | e in edges && e.0 == key :: e.1 in order
    ensures Topological(edges, order + [key])
  {
    var longer := order + [key];
    forall i, e | 0 <= i < |longer| && e in edges && e.0 == longer[i]
      ensures e.1 in longer[..i]
    {
      if i < |order| {
        assert e.1 in order[..i];
        assert longer[..i] == order[..i];
      } else {
        assert longer[..i] == order;
      }
    }
  }

  /** Validates a manager response; the verdict names the first broken rule. */
  method BoundedAction(d: Decision) returns (verdict: Verdict)
    ensures verdict == Judge(d)
  {
    if !Permitted(d.lifecycle) {
      return ForbiddenLifecycle;
    }
    if (d.action == Propose) != (d.items != []) {
      return ActionMismatch;
    }
    if d.action == Complete && d.lifecycle != Completed {
      return LifecycleMismatch;
    }
    var keys := Keys(d.items);
    KeyCount(d.items);
    if |keys| != |d.items| {
      return DuplicateKey;
    }
    if exists p | p in d.items :: DependencySet(p) - keys != {} {
      assert !DependenciesInside(d.items);
      return OutsideDependency;
    }
    forall p | p in d.items ensures DependencySet(p) <= keys {
      forall dep | dep in DependencySet(p) ensures dep in keys {
        assert dep in keys || dep in DependencySet(p) - keys;
      }
    }
    assert DependenciesInside(d.items);
    var edges := map k | k in keys :: set p, dep | p in d.items && p.key == k && dep in p.dependencies :: dep;
    forall k, dep | k in edges && dep in edges[k] ensures dep in keys {
      var p :| p in d.items && p.key == k && dep in p.dependencies;
      assert dep in DependencySet(p);
    }
    var search := new CycleSearch(edges);
    assert search.Pairs() == Edges(d.items);
    var pending := keys;
    while pending != {}
      invariant pending <= keys
      invariant search.Valid() && search.visiting == {} && keys - pending <= search.visited
      decreases pending
    {
      var key :| key in pending;
      var ok := search.Visit(key, []);
      if !ok {
        return CyclicDependency;
      }
      pending := pending - {key};
    }
    TopologicalIsAcyclic(search.Pairs(), search.finished);
    verdict := NoFault;
  }

  lemma KeysSplit(rest: seq<Proposal>, last: Proposal)
    ensures Keys(rest + [last]) == Keys(rest) + {last.key}
    ensures DistinctKeys(rest + [last]) <==> DistinctKeys(rest) && last.key !in Keys(rest)
  {
    var items := rest + [last];
    assert forall i | 0 <= i < |rest| :: items[i] == rest[i] && items[i] in rest;
    assert items[|rest|] == last;
    if DistinctKeys(rest) && last.key !in Keys(rest) {
      forall i, j | 0 <= i < j < |items| ensures items[i].key != items[j].key {
        assert items[i].key in Keys(rest);
      }
    }
    if DistinctKeys(items) {
      forall i, j | 0 <= i < j < |rest| ensures rest[i].key != rest[j].key {
        assert items[i].key != items[j].key;
      }
      forall i | 0 <= i < |rest| ensures rest[i].key != last.key {
        assert items[i].key != items[|rest|].key;
      }
    }
  }

  /** Counting keys detects duplicates: the set is as large as the list only without them. */
  lemma {:induction false} KeyCount(items: seq<Proposal>)
    ensures |Keys(items)| <= |items|
    ensures |Keys(items)| == |items| <==> DistinctKeys(items)
  {
    if items != [] {
      var rest, last := items[..|items| - 1], items[|items| - 1];
      KeyCount(rest);
      assert items == rest + [last];
      KeysSplit(rest, last);
      if last.key in Keys(rest) {
        assert Keys(rest) + {last.key} == Keys(rest);
      }
    }
  }

  /** The lifecycles a manager has no say in. */
  predicate OwnersOnly(l: MissionLifecycle) {
    l == WaitingForCapacity || l == Paused || l == Cancelling || l == Cancelled || l == Archived
  }

  /** Some key is proposed twice, or some item depends on a key that is not proposed. */
  predicate Repeats(d: Decision) {
    exists i, j | 0 <= i < j < |d.items| :: d.items[i].key == d.items[j].key
  }

  predicate ReachesOut(d: Decision) {
    exists p, k | p in d.items && k in p.dependencies :: forall q | q in d.items :: q.key != k
  }

  predicate DependsOn(d: Decision, a: Key, b: Key) {
    exists p | p in d.items :: p.key == a && b in p.dependencies
  }

  /** A cycle of proposals, each depending on the next. */
  ghost predicate Circular(d: Decision) {
    exists path: seq<Key> :: Chain(d, path) && |path| > 1 && path[0] == path[|path| - 1]
  }

  ghost predicate Chain(d: Decision, path: seq<Key>) {
    |path| > 0 && forall i | 0 < i < |path| :: DependsOn(d, path[i - 1], path[i])
  }

  lemma DependsOnIs(d: Decision, a: Key, b: Key)
    ensures DependsOn(d, a, b) <==> (a, b) in Edges(d.items)
  {
    if (a, b) in Edges(d.items) {
      var p, k :| p in d.items && k in p.dependencies && (a, b) == (p.key, k);
    }
    if p :| p in d.items && p.key == a && b in p.dependencies {
      assert (p.key, b) in Edges(d.items);
    }
  }

  lemma ChainIs(d: Decision, path: seq<Key>)
    ensures Chain(d, path) <==> IsPath(Edges(d.items), path)
  {
    forall i | 0 < i < |path| ensures DependsOn(d, path[i - 1], path[i]) <==> (path[i - 1], path[i]) in Edges(d.items) {
      DependsOnIs(d, path[i - 1], path[i]);
    }
  }

  lemma CircularIs(d: Decision)
    ensures Circular(d) <==> !Acyclic(Edges(d.items))
  {
    forall path ensures Chain(d, path) <==> IsPath(Edges(d.items), path) {
      ChainIs(d, path);
    }
  }

  lemma ReachesOutIs(d: Decision)
    ensures ReachesOut(d) <==> !DependenciesInside(d.items)
  {
    if p, k :| p in d.items && k in p.dependencies && forall q | q in d.items :: q.key != k {
      assert k in DependencySet(p) && k !in Keys(d.items);
    }
    if !DependenciesInside(d.items) {
      var p :| p in d.items && !(DependencySet(p) <= Keys(d.items));
      var k :| k in DependencySet(p) && k !in Keys(d.items);
      assert forall q | q in d.items :: q.key in Keys(d.items);
    }
  }

  /** What is checked, in which order, and when a response passes. */
  lemma FaultsExactly(d: Decision)
    ensures Judge(d) == ForbiddenLifecycle <==> OwnersOnly(d.lifecycle)
    ensures !OwnersOnly(d.lifecycle) ==> (Judge(d) == ActionMismatch <==> !(d.action == Propose <==> |d.items| > 0))
    ensures Judge(d) !in {ForbiddenLifecycle, ActionMismatch} ==>
              (Judge(d) == LifecycleMismatch <==> d.action == Complete && d.lifecycle != Completed)
    ensures Judge(d) !in {ForbiddenLifecycle, ActionMismatch, LifecycleMismatch} ==> (Judge(d) == DuplicateKey <==> Repeats(d))
    ensures Judge(d) in {NoFault, OutsideDependency, CyclicDependency} ==> (Judge(d) == OutsideDependency <==> ReachesOut(d))
    ensures Judge(d) == NoFault
            <==> !OwnersOnly(d.lifecycle) && (d.action == Propose <==> |d.items| > 0) && (d.action == Complete ==> d.lifecycle == Completed)
                 && !Repeats(d) && !ReachesOut(d) && !Circular(d)
  {
    CircularIs(d);
    ReachesOutIs(d);
    match d.lifecycle
    case _ =>
  }
}
