/**
  Paths and cycles in a finite directed graph given by its edge set.
  Shared by the manager-response check and by the mission backlog.
 */
module Graphs {

  /** A non-empty walk: every two neighbours are joined by an edge. */
  ghost predicate IsPath<T>(edges: set<(T, T)>, p: seq<T>) {
    && |p| > 0
    && forall i {:trigger p[i]} :: 0 < i < |p| ==> (p[i - 1], p[i]) in edges
  }

  /** No walk of positive length returns to where it began. */
  ghost predicate Acyclic<T(!new)>(edges: set<(T, T)>) {
    forall p: seq<T> :: IsPath(edges, p) && |p| > 1 ==> p[0] != p[|p| - 1]
  }

  /** Every element's successors are listed before it. */
  ghost predicate Topological<T>(edges: set<(T, T)>, order: seq<T>) {
    forall i, e | 0 <= i < |order| && e in edges && e.0 == order[i] :: e.1 in order[..i]
  }

  lemma {:induction false} PathFallsBack<T>(edges: set<(T, T)>, order: seq<T>, p: seq<T>, i: nat) returns (j: nat)
    requires Topological(edges, order)
    requires IsPath(edges, p) && |p| > 1
    requires i < |order| && order[i] == p[0]
    ensures j < i && order[j] == p[|p| - 1]
    decreases |p|
  {
    assert (p[0], p[1]) in edges;
    var k :| 0 <= k < i && order[k] == p[1];
    if |p| == 2 {
      j := k;
    } else {
      assert IsPath(edges, p[1..]) by {
        forall n | 0 < n < |p[1..]| ensures (p[1..][n - 1], p[1..][n]) in edges {
          assert (p[n], p[n + 1]) in edges;
        }
      }
      j := PathFallsBack(edges, order, p[1..], k);
    }
  }

  /** A topological listing of all sources rules out cycles. */
  lemma TopologicalIsAcyclic<T(!new)>(edges: set<(T, T)>, order: seq<T>)
    requires Topological(edges, order)
    requires forall e | e in edges :: e.0 in order
    ensures Acyclic(edges)
  {
    forall p: seq<T> | IsPath(edges, p) && |p| > 1
      ensures p[0] != p[|p| - 1]
    {
      if p[0] == p[|p| - 1] {
        assert (p[0], p[1]) in edges;
        var i: nat :| i < |order| && order[i] == p[0];
        // every trip around the cycle finds a strictly earlier occurrence
        NoReturn(edges, order, p, i);
      }
    }
  }

  lemma {:induction false} NoReturn<T>(edges: set<(T, T)>, order: seq<T>, p: seq<T>, i: nat)
    requires Topological(edges, order)
    requires IsPath(edges, p) && |p| > 1 && p[0] == p[|p| - 1]
    requires i < |order| && order[i] == p[0]
    ensures false
    decreases i
  {
    var j := PathFallsBack(edges, order, p, i);
    NoReturn(edges, order, p, j);
  }

  lemma SubpathIsPath<T>(edges: set<(T, T)>, p: seq<T>, i: nat, j: nat)
    requires IsPath(edges, p) && i < j <= |p|
    ensures IsPath(edges, p[i..j])
  {
    forall n | 0 < n < j - i ensures (p[i..j][n - 1], p[i..j][n]) in edges {
      assert (p[i + n - 1], p[i + n]) in edges;
    }
  }

  lemma ExtendPath<T>(edges: set<(T, T)>, p: seq<T>, x: T)
    requires p == [] || (IsPath(edges, p) && (p[|p| - 1], x) in edges)
    ensures IsPath(edges, p + [x])
  {
    forall n | 0 < n < |p + [x]| ensures ((p + [x])[n - 1], (p + [x])[n]) in edges {
      if n < |p| {
        assert (p[n - 1], p[n]) in edges;
      }
    }
  }

  lemma {:induction false} DistinctFits<T>(p: seq<T>, s: set<T>)
    requires forall i, j | 0 <= i < j < |p| :: p[i] != p[j]
    requires forall i | 0 <= i < |p| :: p[i] in s
    ensures |p| <= |s|
  {
    if p != [] {
      var last := p[|p| - 1];
      DistinctFits(p[..|p| - 1], s - {last});
    }
  }

  /** A walk in an acyclic graph never meets a node twice. */
  lemma AcyclicPathDistinct<T(!new)>(edges: set<(T, T)>, p: seq<T>, i: nat, j: nat)
    requires Acyclic(edges) && IsPath(edges, p) && i < j < |p|
    ensures p[i] != p[j]
  {
    SubpathIsPath(edges, p, i, j + 1);
    assert p[i..j + 1][0] == p[i] && p[i..j + 1][j - i] == p[j];
  }

  /** Following edges inside a finite set of an acyclic graph must get stuck. */
  lemma {:induction false} FindSink<T(!new)>(edges: set<(T, T)>, s: set<T>, p: seq<T>) returns (x: T)
    requires Acyclic(edges) && IsPath(edges, p)
    requires forall i | 0 <= i < |p| :: p[i] in s
    ensures x in s && forall y | y in s :: (x, y) !in edges
    decreases |s| - |p|
  {
    x := p[|p| - 1];
    if y :| y in s && (x, y) in edges {
      var q := p + [y];
      ExtendPath(edges, p, y);
      forall i, j | 0 <= i < j < |q| ensures q[i] != q[j] {
        AcyclicPathDistinct(edges, q, i, j);
      }
      DistinctFits(q, s);
      x := FindSink(edges, s, q);
    }
  }

  lemma {:induction false} StaysInside<T>(edges: set<(T, T)>, inside: set<T>, p: seq<T>, i: nat)
    requires IsPath(edges, p) && i < |p| && p[0] in inside
    requires forall e | e in edges && e.0 in inside :: e.1 in inside
    ensures p[i] in inside
  {
    if i > 0 {
      StaysInside(edges, inside, p, i - 1);
      assert (p[i - 1], p[i]) in edges;
    }
  }

  lemma {:induction false} NeverEnters<T>(edges: set<(T, T)>, inside: set<T>, p: seq<T>, i: nat)
    requires IsPath(edges, p) && i < |p| && p[|p| - 1] !in inside
    requires forall e | e in edges && e.0 in inside :: e.1 in inside
    ensures p[i] !in inside
    decreases |p| - i
  {
    if i < |p| - 1 {
      NeverEnters(edges, inside, p, i + 1);
      assert (p[i + 1 - 1], p[i + 1]) in edges;
    }
  }

  /**
    Re-planning a set of nodes: their outgoing edges are replaced by edges that
    stay inside the set. If both the old graph and the replacement are acyclic,
    so is the result.
   */
  lemma ReplanKeepsAcyclic<T(!new)>(edges: set<(T, T)>, inside: set<T>, added: set<(T, T)>, result: set<(T, T)>)
    requires Acyclic(edges) && Acyclic(added)
    requires forall e | e in added :: e.0 in inside && e.1 in inside
    requires forall e | e in result :: e in added || (e in edges && e.0 !in inside)
    ensures Acyclic(result)
  {
    forall p: seq<T> | IsPath(result, p) && |p| > 1
      ensures p[0] != p[|p| - 1]
    {
      if p[0] == p[|p| - 1] {
        var within := if p[0] in inside then added else edges;
        forall i | 0 < i < |p| ensures (p[i - 1], p[i]) in within {
          if p[0] in inside {
            StaysInside(result, inside, p, i - 1);
          } else {
            NeverEnters(result, inside, p, i - 1);
          }
        }
        assert IsPath(within, p);
      }
    }
  }
}
