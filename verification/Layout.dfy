/** The run view's layout: a depth-first order over the connections a run can follow. */
module Layout {
  import opened Graphs

  datatype Kind = Always | OnResult | Retry | Iterate | OnFailure

  datatype Edge = Edge(source: string, target: string, kind: Kind, fallback: bool)

  datatype Spec = Spec(nodes: seq<string>, edges: seq<Edge>, entrypoint: string)

  predicate Kept(e: Edge) {
    e.kind != Retry && !e.fallback
  }

  /** Where the kept edges of a node lead, in the order of the edges. */
  function Targets(edges: seq<Edge>, id: string): seq<string> {
    if edges == [] then []
    else Targets(edges[..|edges| - 1], id)
         + (if edges[|edges| - 1].source == id && Kept(edges[|edges| - 1]) then [edges[|edges| - 1].target] else [])
  }

  ghost function KeptEdges(spec: Spec): set<(string, string)> {
    set e | e in spec.edges && Kept(e) :: (e.source, e.target)
  }

  ghost function Universe(spec: Spec): set<string> {
    (set id | id in spec.nodes) + (set e | e in spec.edges :: e.target) + {spec.entrypoint}
  }

  ghost function Unseen(spec: Spec, order: seq<string>): set<string> {
    Universe(spec) - set id | id in order
  }

  lemma UnseenShrinks(spec: Spec, order: seq<string>, longer: seq<string>)
    requires order <= longer
    ensures |Unseen(spec, longer)| <= |Unseen(spec, order)|
    ensures (exists id | id in longer :: id in Universe(spec) && id !in order) ==> |Unseen(spec, longer)| < |Unseen(spec, order)|
  {
    SubsetSize(Unseen(spec, longer), Unseen(spec, order));
    if exists id | id in longer :: id in Universe(spec) && id !in order {
      var id :| id in longer && id in Universe(spec) && id !in order;
      assert id in Unseen(spec, order) && id !in Unseen(spec, longer);
    }
  }

  lemma SubsetSize(a: set<string>, b: set<string>)
    requires a <= b
    ensures |a| <= |b| && (a != b ==> |a| < |b|)
  {
    assert |b| == |a| + |b - a| by {
      assert b == a + (b - a);
    }
  }

  lemma {:induction false} TargetsInside(spec: Spec, edges: seq<Edge>, id: string)
    requires forall e | e in edges :: e in spec.edges
    ensures forall t | t in Targets(edges, id) :: t in Universe(spec) && (id, t) in KeptEdges(spec)
  {
    if edges != [] {
      var e := edges[|edges| - 1];
      assert e in edges;
      TargetsInside(spec, edges[..|edges| - 1], id);
      assert e.target in Universe(spec);
    }
  }

  lemma {:induction false} TargetsComplete(edges: seq<Edge>, e: Edge)
    requires e in edges && Kept(e)
    ensures e.target in Targets(edges, e.source)
  {
    if edges[|edges| - 1] != e {
      TargetsComplete(edges[..|edges| - 1], e);
    }
  }

  /** An edge a run can follow: no retry and no fallback. */
  predicate Followed(e: Edge) {
    (e.kind == Always || e.kind == OnResult || e.kind == Iterate || e.kind == OnFailure) && !e.fallback
  }

  lemma FollowedIsKept(e: Edge)
    ensures Followed(e) <==> Kept(e)
  {
    match e.kind
    case _ =>
  }

  lemma EdgesAreFollowed(spec: Spec, a: string, b: string)
    ensures (a, b) in KeptEdges(spec) <==> exists e | e in spec.edges :: Followed(e) && e.source == a && e.target == b
  {
    if (a, b) in KeptEdges(spec) {
      var e :| e in spec.edges && Kept(e) && (e.source, e.target) == (a, b);
      FollowedIsKept(e);
    }
    if e :| e in spec.edges && Followed(e) && e.source == a && e.target == b {
      FollowedIsKept(e);
    }
  }

  /** Places in the list of edges, increasing, at which followed edges of this node stand. */
  ghost predicate Picks(edges: seq<Edge>, id: string, at: seq<nat>) {
    && (forall i | 0 <= i < |at| :: at[i] < |edges| && Followed(edges[at[i]]) && edges[at[i]].source == id)
    && (forall i, j | 0 <= i < j < |at| :: at[i] < at[j])
    && (forall k: nat | k < |edges| && Followed(edges[k]) && edges[k].source == id :: k in at)
  }

  /** A node's targets are those of its followed edges, all of them and in the order of the list. */
  lemma {:induction false} TargetsInOrder(edges: seq<Edge>, id: string) returns (at: seq<nat>)
    ensures Picks(edges, id, at) && |at| == |Targets(edges, id)|
    ensures forall i | 0 <= i < |at| :: Targets(edges, id)[i] == edges[at[i]].target
  {
    at := [];
    if edges != [] {
      var n := |edges| - 1;
      at := TargetsInOrder(edges[..n], id);
      FollowedIsKept(edges[n]);
      PicksNext(edges, id, at);
      if Followed(edges[n]) && edges[n].source == id {
        at := at + [n];
      }
    }
  }

  lemma PicksNext(edges: seq<Edge>, id: string, at: seq<nat>)
    requires edges != [] && Picks(edges[..|edges| - 1], id, at)
    ensures var n := |edges| - 1;
      Picks(edges, id, if Followed(edges[n]) && edges[n].source == id then at + [n] else at)
  {
    var n := |edges| - 1;
    var now := if Followed(edges[n]) && edges[n].source == id then at + [n] else at;
    forall i | 0 <= i < |at| ensures at[i] < n && Followed(edges[at[i]]) && edges[at[i]].source == id {
      assert edges[..n][at[i]] == edges[at[i]];
    }
    assert forall i | 0 <= i < |now| :: now[i] == if i < |at| then at[i] else n;
    forall k: nat | k < |edges| && Followed(edges[k]) && edges[k].source == id ensures k in now {
      if k < n {
        assert edges[..n][k] == edges[k];
      } else {
        assert now[|at|] == n;
      }
    }
  }

  // ------------------------------------------------------------------ the order

  /** The order after visiting a node: what was there, then what the visit adds. */
  ghost function Visited(spec: Spec, order: seq<string>, id: string): (r: seq<string>)
    requires id in Universe(spec)
    ensures order <= r
    decreases |Unseen(spec, order)|, 0
  {
    if id in order then order
    else
      UnseenShrinks(spec, order, order + [id]);
      assert id in order + [id];
      TargetsInside(spec, spec.edges, id);
      VisitedAll(spec, order + [id], Targets(spec.edges, id))
  }

  ghost function VisitedAll(spec: Spec, order: seq<string>, ids: seq<string>): (r: seq<string>)
    requires forall id | id in ids :: id in Universe(spec)
    ensures order <= r
    decreases |Unseen(spec, order)|, |ids|
  {
    if ids == [] then order
    else
      var next := Visited(spec, order, ids[0]);
      UnseenShrinks(spec, order, next);
      VisitedAll(spec, next, ids[1..])
  }

  ghost predicate NoRepeats(order: seq<string>) {
    forall i, j | 0 <= i < j < |order| :: order[i] != order[j]
  }

  /** Every kept successor of what was added is in the order too. */
  ghost predicate Closed(spec: Spec, before: seq<string>, after: seq<string>) {
    forall e | e in KeptEdges(spec) && e.0 in after && e.0 !in before :: e.1 in after
  }

  lemma {:induction false} VisitCloses(spec: Spec, order: seq<string>, id: string)
    requires id in Universe(spec) && NoRepeats(order)
    ensures NoRepeats(Visited(spec, order, id)) && id in Visited(spec, order, id)
    ensures Closed(spec, order, Visited(spec, order, id))
    decreases |Unseen(spec, order)|, 0
  {
    if id !in order {
      UnseenShrinks(spec, order, order + [id]);
      assert id in order + [id];
      TargetsInside(spec, spec.edges, id);
      VisitAllCloses(spec, order + [id], Targets(spec.edges, id));
      forall e | e in KeptEdges(spec) && e.0 == id ensures e.1 in Targets(spec.edges, id) {
        var edge :| edge in spec.edges && Kept(edge) && (edge.source, edge.target) == e;
        TargetsComplete(spec.edges, edge);
      }
    }
  }

  lemma {:induction false} VisitAllCloses(spec: Spec, order: seq<string>, ids: seq<string>)
    requires (forall id | id in ids :: id in Universe(spec)) && NoRepeats(order)
    ensures NoRepeats(VisitedAll(spec, order, ids)) && forall id | id in ids :: id in VisitedAll(spec, order, ids)
    ensures Closed(spec, order, VisitedAll(spec, order, ids))
    decreases |Unseen(spec, order)|, |ids|
  {
    if ids != [] {
      var next := Visited(spec, order, ids[0]);
      UnseenShrinks(spec, order, next);
      VisitCloses(spec, order, ids[0]);
      VisitAllCloses(spec, next, ids[1..]);
      assert ids == [ids[0]] + ids[1..];
    }
  }

  /** A walk over kept edges that meets nothing already in the order. */
  ghost predicate Reaches(spec: Spec, order: seq<string>, a: string, b: string) {
    exists p: seq<string> :: IsPath(KeptEdges(spec), p) && p[0] == a && p[|p| - 1] == b && Avoids(p, order)
  }

  ghost predicate Avoids(p: seq<string>, order: seq<string>) {
    forall i | 0 <= i < |p| :: p[i] !in order
  }

  lemma ReachesItself(spec: Spec, order: seq<string>, id: string)
    requires id !in order
    ensures Reaches(spec, order, id, id)
  {
    assert IsPath(KeptEdges(spec), [id]) && Avoids([id], order);
  }

  lemma ReachesThrough(spec: Spec, order: seq<string>, a: string, b: string, x: string)
    requires a !in order && (a, b) in KeptEdges(spec) && Reaches(spec, order, b, x)
    ensures Reaches(spec, order, a, x)
  {
    var p :| IsPath(KeptEdges(spec), p) && p[0] == b && p[|p| - 1] == x && Avoids(p, order);
    var q := [a] + p;
    assert IsPath(KeptEdges(spec), q) by {
      forall i | 0 < i < |q| ensures (q[i - 1], q[i]) in KeptEdges(spec) {
        assert i > 1 ==> q[i - 1] == p[i - 2] && q[i] == p[i - 1];
      }
    }
    assert Avoids(q, order);
  }

  lemma ReachesLess(spec: Spec, order: seq<string>, longer: seq<string>, a: string, b: string)
    requires order <= longer && Reaches(spec, longer, a, b)
    ensures Reaches(spec, order, a, b)
  {
    var p :| IsPath(KeptEdges(spec), p) && p[0] == a && p[|p| - 1] == b && Avoids(p, longer);
    assert Avoids(p, order);
  }

  lemma {:induction false} AddedIsReached(spec: Spec, order: seq<string>, id: string, x: string)
    requires id in Universe(spec) && x in Visited(spec, order, id) && x !in order
    ensures Reaches(spec, order, id, x)
    decreases |Unseen(spec, order)|, 0
  {
    if x == id {
      ReachesItself(spec, order, id);
    } else {
      UnseenShrinks(spec, order, order + [id]);
      assert id in order + [id];
      TargetsInside(spec, spec.edges, id);
      var via := AddedByOne(spec, order + [id], Targets(spec.edges, id), x);
      ReachesLess(spec, order, order + [id], via, x);
      ReachesThrough(spec, order, id, via, x);
    }
  }

  lemma {:induction false} AddedByOne(spec: Spec, order: seq<string>, ids: seq<string>, x: string) returns (via: string)
    requires forall id | id in ids :: id in Universe(spec)
    requires x in VisitedAll(spec, order, ids) && x !in order
    ensures via in ids && Reaches(spec, order, via, x)
    decreases |Unseen(spec, order)|, |ids|
  {
    var next := Visited(spec, order, ids[0]);
    UnseenShrinks(spec, order, next);
    if x in next {
      via := ids[0];
      AddedIsReached(spec, order, via, x);
    } else {
      via := AddedByOne(spec, next, ids[1..], x);
      ReachesLess(spec, order, next, via, x);
    }
  }

  lemma {:induction false} WalkStaysInside(spec: Spec, order: seq<string>, after: seq<string>, p: seq<string>)
    requires IsPath(KeptEdges(spec), p) && Avoids(p, order) && Closed(spec, order, after) && p[0] in after
    ensures p[|p| - 1] in after
  {
    if |p| > 1 {
      assert (p[0], p[1]) in KeptEdges(spec);
      assert IsPath(KeptEdges(spec), p[1..]) by {
        forall i | 0 < i < |p[1..]| ensures (p[1..][i - 1], p[1..][i]) in KeptEdges(spec) {
          assert (p[i], p[i + 1]) in KeptEdges(spec);
        }
      }
      assert Avoids(p[1..], order);
      WalkStaysInside(spec, order, after, p[1..]);
    }
  }

  /**
    A visit ends on every graph, cycles included, and adds exactly the nodes that a walk
    from its start meets before it meets anything already in the order, each once.
   */
  lemma VisitAddsWhatItCanReach(spec: Spec, order: seq<string>, id: string, x: string)
    requires id in Universe(spec) && NoRepeats(order)
    ensures NoRepeats(Visited(spec, order, id))
    ensures x in Visited(spec, order, id) && x !in order <==> Reaches(spec, order, id, x)
  {
    VisitCloses(spec, order, id);
    if x in Visited(spec, order, id) && x !in order {
      AddedIsReached(spec, order, id, x);
    }
    if Reaches(spec, order, id, x) {
      var p :| IsPath(KeptEdges(spec), p) && p[0] == id && p[|p| - 1] == x && Avoids(p, order);
      WalkStaysInside(spec, order, Visited(spec, order, id), p);
    }
  }

  /** Nodes are visited one after the other. */
  lemma {:induction false} VisitsInTurn(spec: Spec, order: seq<string>, ids: seq<string>, id: string)
    requires (forall x | x in ids :: x in Universe(spec)) && id in Universe(spec)
    ensures forall x | x in ids + [id] :: x in Universe(spec)
    ensures VisitedAll(spec, order, ids + [id]) == Visited(spec, VisitedAll(spec, order, ids), id)
    decreases |ids|
  {
    if ids == [] {
      assert [] + [id] == [id] && [id][1..] == [];
    } else {
      assert (ids + [id])[0] == ids[0] && (ids + [id])[1..] == ids[1..] + [id];
      VisitsInTurn(spec, Visited(spec, order, ids[0]), ids[1..], id);
    }
  }

  lemma {:induction false} FirstNewIsNext(spec: Spec, order: seq<string>, ids: seq<string>, i: nat)
    requires (forall x | x in ids :: x in Universe(spec)) && i < |ids|
    requires ids[i] !in order && forall j | 0 <= j < i :: ids[j] in order
    ensures order + [ids[i]] <= VisitedAll(spec, order, ids)
    decreases i
  {
    if i == 0 {
      var next := Visited(spec, order, ids[0]);
      assert order + [ids[0]] <= next;
    } else {
      assert Visited(spec, order, ids[0]) == order;
      FirstNewIsNext(spec, order, ids[1..], i - 1);
    }
  }

  /**
    Depth first: right after a new node comes the target of the first of its followed edges,
    in the order of the list, that leads to something new.
   */
  lemma FirstTargetFollows(spec: Spec, order: seq<string>, id: string, k: nat)
    requires id in Universe(spec) && id !in order && k < |spec.edges|
    requires Followed(spec.edges[k]) && spec.edges[k].source == id && spec.edges[k].target !in order + [id]
    requires forall j | 0 <= j < k && Followed(spec.edges[j]) && spec.edges[j].source == id :: spec.edges[j].target in order + [id]
    ensures order + [id] + [spec.edges[k].target] <= Visited(spec, order, id)
  {
    var at := TargetsInOrder(spec.edges, id);
    var i :| 0 <= i < |at| && at[i] == k;
    TargetsInside(spec, spec.edges, id);
    forall j | 0 <= j < i ensures Targets(spec.edges, id)[j] in order + [id] {
      assert at[j] < at[i];
    }
    FirstNewIsNext(spec, order + [id], Targets(spec.edges, id), i);
  }

  // ------------------------------------------------------------------ the whole layout

  ghost function FirstVisit(spec: Spec): seq<string> {
    Visited(spec, [], spec.entrypoint)
  }

  ghost function Order(spec: Spec): seq<string> {
    VisitedAll(spec, FirstVisit(spec), spec.nodes)
  }

  datatype Position = Position(x: nat, y: nat)

  function Place(index: nat): Position {
    Position(index % 4 * 240, index / 4 * 170)
  }

  lemma PlacesDiffer(i: nat, j: nat)
    requires Place(i) == Place(j)
    ensures i == j
  {
  }

  /**
    Every node of the spec is in the order once, and what the entrypoint reaches comes
    before everything else.
   */
  lemma OrderIsComplete(spec: Spec)
    ensures NoRepeats(Order(spec)) && forall id | id in spec.nodes :: id in Order(spec)
    ensures FirstVisit(spec) <= Order(spec)
    ensures forall i | 0 <= i < |Order(spec)| :: Reaches(spec, [], spec.entrypoint, Order(spec)[i]) <==> i < |FirstVisit(spec)|
  {
    VisitCloses(spec, [], spec.entrypoint);
    VisitAllCloses(spec, FirstVisit(spec), spec.nodes);
    forall i | 0 <= i < |Order(spec)|
      ensures Reaches(spec, [], spec.entrypoint, Order(spec)[i]) <==> i < |FirstVisit(spec)|
    {
      VisitAddsWhatItCanReach(spec, [], spec.entrypoint, Order(spec)[i]);
    }
  }

  class LayoutBuilder {
    const spec: Spec
    var order: seq<string>

    constructor (spec: Spec)
      ensures this.spec == spec && order == []
    {
      this.spec := spec;
      order := [];
    }

    method Visit(id: string)
      requires id in Universe(spec)
      modifies this`order
      ensures order == Visited(spec, old(order), id)
      decreases |Unseen(spec, order)|
    {
      if id in order {
        return;
      }
      TargetsInside(spec, spec.edges, id);
      UnseenShrinks(spec, order, order + [id]);
      assert id in order + [id];
      order := order + [id];
      ghost var pushed := order;
      var targets := Targets(spec.edges, id);
      for i := 0 to |targets|
        invariant pushed <= order
        invariant forall t | t in targets[i..] :: t in Universe(spec)
        invariant VisitedAll(spec, pushed, targets) == VisitedAll(spec, order, targets[i..])
      {
        assert targets[i..][0] == targets[i] && targets[i..][1..] == targets[i + 1..];
        UnseenShrinks(spec, pushed, order);
        Visit(targets[i]);
      }
    }

    method VisitNodes()
      modifies this`order
      ensures order == VisitedAll(spec, old(order), spec.nodes)
    {
      for i := 0 to |spec.nodes|
        invariant VisitedAll(spec, old(order), spec.nodes) == VisitedAll(spec, order, spec.nodes[i..])
      {
        assert spec.nodes[i..][0] == spec.nodes[i] && spec.nodes[i..][1..] == spec.nodes[i + 1..];
        Visit(spec.nodes[i]);
      }
    }
  }

  /** The grid, four to a row, as an object keyed by node. */
  method PlaceAll(order: seq<string>) returns (places: map<string, Position>)
    requires NoRepeats(order)
    ensures forall i | 0 <= i < |order| :: order[i] in places && places[order[i]] == Place(i)
    ensures forall a | a in places :: a in order
    ensures forall a, b | a in places && b in places && places[a] == places[b] :: a == b
  {
    places := map[];
    for index := 0 to |order|
      invariant forall i | 0 <= i < index :: order[i] in places && places[order[i]] == Place(i)
      invariant forall a | a in places :: a in order[..index]
    {
      places := places[order[index] := Place(index)];
    }
    forall a, b | a in places && b in places && places[a] == places[b] ensures a == b {
      var i :| 0 <= i < |order| && order[i] == a;
      var j :| 0 <= j < |order| && order[j] == b;
      PlacesDiffer(i, j);
    }
  }

  /** Every node gets a place of its own, numbered through in the depth-first order. */
  method RuntimeLayout(spec: Spec) returns (places: map<string, Position>)
    ensures forall id | id in spec.nodes :: id in places
    ensures forall a, b | a in places && b in places && places[a] == places[b] :: a == b
    ensures forall i | 0 <= i < |Order(spec)| ::
              && Order(spec)[i] in places
              && places[Order(spec)[i]].x == 240 * (i % 4) && places[Order(spec)[i]].y == 170 * (i / 4)
  {
    var builder := new LayoutBuilder(spec);
    builder.Visit(spec.entrypoint);
    builder.VisitNodes();
    OrderIsComplete(spec);
    places := PlaceAll(builder.order);
  }
}
