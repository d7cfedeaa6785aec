/** `local_graph`: the edges and nodes within a number of hops of a seed, read off the traversal. */
module LocalGraph {
  import opened SecurityGraph
  import opened GraphTraversal

  const MAX_GRAPH_DEPTH := 3

  const VALID_NODE_TYPES: set<string> := {"ASSET", "FINDING", "CVE", "SERVICE", "TECHNOLOGY"}

  datatype QueryError = UnknownNodeType | InvalidDepth

  datatype Result<+T> = Ok(value: T) | Err(error: QueryError)

  datatype Neighbourhood = Neighbourhood(edgeIds: set<nat>, nodes: set<Node>)

  /** `SELECT DISTINCT id`: the edge each row arrived by. */
  function EdgeIds(t: EdgeTable, seed: Node, depth: nat): set<nat> {
    set r | r in PathRows(t, seed, depth) && r.path != [] :: r.path[|r.path| - 1]
  }

  function TouchedNodes(t: EdgeTable, seed: Node, ids: set<nat>): set<Node> {
    {seed} + (set e | e in t && e.id in ids :: e.source) + (set e | e in t && e.id in ids :: e.target)
  }

  function Query(t: EdgeTable, seed: Node, depth: int): Result<Neighbourhood> {
    if seed.kind !in VALID_NODE_TYPES then Err(UnknownNodeType)
    else if depth < 1 || depth > MAX_GRAPH_DEPTH then Err(InvalidDepth)
    else
      var ids := EdgeIds(t, seed, depth);
      Ok(Neighbourhood(ids, TouchedNodes(t, seed, ids)))
  }

  /** The edges a walk of at most `depth` hops can arrive by: one endpoint strictly inside the
      ball, and not a self-loop unless it sits on the seed itself. */
  ghost predicate Returned(t: EdgeTable, seed: Node, depth: nat, e: Edge)
    requires depth >= 1
  {
    if e.source == e.target then e.source == seed
    else e.source in Ball(t, seed, depth - 1) || e.target in Ball(t, seed, depth - 1)
  }

  function Reversed(a: Arc): Arc { Arc(a.id, a.dst, a.src) }

  lemma ReversedArc(t: EdgeTable, a: Arc)
    requires a in Bidirectional(t)
    ensures Reversed(a) in Bidirectional(t)
  {
    var e := EdgeOfArc(t, a);
    ArcsOfEdge(t, e);
  }

  /** A simple path to the start of an arc either extends by that arc, or already met the far end
      and can be cut there and left by the same edge read backwards. */
  lemma LeaveBy(arcs: seq<Arc>, seed: Node, p: seq<Arc>, a: Arc) returns (q: seq<Arc>)
    requires SimplePath(arcs, seed, p) && NodeAt(seed, p, |p|) == a.src
    requires a in arcs && Reversed(a) in arcs && (a.src != a.dst || a.src == seed)
    ensures Walk(arcs, seed, q) && Guarded(seed, q) && 1 <= |q| <= |p| + 1 && q[|q| - 1].id == a.id
  {
    if a.dst in Nodes(seed, p) {
      var j :| 0 <= j <= |p| && Nodes(seed, p)[j] == a.dst;
      q := p[..j] + [Reversed(a)];
      forall i | 0 <= i <= j
        ensures NodeAt(seed, q, i) == NodeAt(seed, p, i)
      {
      }
      assert NodeAt(seed, p, j) == a.dst;
      if j == |p| {
        assert NodeAt(seed, p, 0) == NodeAt(seed, p, j);
      }
      assert j < |p| || j == 0;
      assert NodeAt(seed, q, |q|) == NodeAt(seed, p, |p|);
    } else {
      ExtendSimplePath(arcs, seed, p, a);
      q := p + [a];
    }
  }

  lemma EdgeReached(t: EdgeTable, seed: Node, depth: nat, a: Arc)
    requires ColonFreeKinds(t) && ':' !in seed.kind && depth >= 1
    requires a in Bidirectional(t) && a.src in Ball(t, seed, depth - 1)
    requires a.src != a.dst || a.src == seed
    ensures a.id in EdgeIds(t, seed, depth)
  {
    var arcs := Bidirectional(t);
    var p := BallHasSimplePath(t, seed, depth - 1, a.src);
    ReversedArc(t, a);
    var q := LeaveBy(arcs, seed, p, a);
    var r := RowOf(seed, q);
    assert Records(arcs, seed, r, q);
    RowsAreGuardedWalks(t, seed, depth, r);
    assert r.path[|r.path| - 1] == a.id;
  }

  /** The edge a row arrived by satisfies the description. */
  lemma RowEdgeReturned(t: EdgeTable, seed: Node, depth: nat, r: Row) returns (e: Edge)
    requires ColonFreeKinds(t) && ':' !in seed.kind && depth >= 1
    requires r in PathRows(t, seed, depth)
    ensures r.path != [] && e in t && e.id == r.path[|r.path| - 1] && Returned(t, seed, depth, e)
  {
    var arcs := Bidirectional(t);
    RowsAreGuardedWalks(t, seed, depth, r);
    var p: seq<Arc> :| Records(arcs, seed, r, p);
    var n := |p| - 1;
    assert r.path == Ids(p) && p[n] in arcs;
    e := EdgeOfArc(t, p[n]);
    LastArcLeavesTheBall(t, seed, depth, p);
    assert e.source == e.target ==> p[n].src == p[n].dst;
  }

  lemma LastArcLeavesTheBall(t: EdgeTable, seed: Node, depth: nat, p: seq<Arc>)
    requires Walk(Bidirectional(t), seed, p) && Guarded(seed, p) && 1 <= |p| <= depth
    ensures
      var a := p[|p| - 1];
      a.src in Ball(t, seed, depth - 1) && (a.src == a.dst ==> a.src == seed)
  {
    var n := |p| - 1;
    assert p[n].src == NodeAt(seed, p, n) && p[n].dst == NodeAt(seed, p, |p|);
    WalkStaysInBall(t, seed, p, n);
    BallGrows(t, seed, n, depth - 1);
    assert n > 0 ==> NodeAt(seed, p, n) != NodeAt(seed, p, |p|);
  }

  /** The distinct edge ids of the traversal are exactly the edges with an endpoint at distance at
      most `depth - 1`; of the self-loops only those on the seed are kept. Holds for every table. */
  lemma TraversalReturnsTheBallsEdges(t: EdgeTable, seed: Node, depth: nat, e: Edge)
    requires PrimaryKey(t) && ColonFreeKinds(t) && ':' !in seed.kind && depth >= 1 && e in t
    ensures e.id in EdgeIds(t, seed, depth) <==> Returned(t, seed, depth, e)
  {
    if e.id in EdgeIds(t, seed, depth) {
      var r :| r in PathRows(t, seed, depth) && r.path != [] && r.path[|r.path| - 1] == e.id;
      var e' := RowEdgeReturned(t, seed, depth, r);
      var i, j :| 0 <= i < |t| && 0 <= j < |t| && t[i] == e && t[j] == e';
    }
    if Returned(t, seed, depth, e) {
      ArcsOfEdge(t, e);
      if e.source == e.target {
        BallGrows(t, seed, 0, depth - 1);
        EdgeReached(t, seed, depth, Forward(e));
      } else if e.source in Ball(t, seed, depth - 1) {
        EdgeReached(t, seed, depth, Forward(e));
      } else {
        EdgeReached(t, seed, depth, Backward(e));
      }
    }
  }

  /** Every id the traversal returns belongs to a stored edge. */
  lemma ReturnedIdsAreStored(t: EdgeTable, seed: Node, depth: nat, id: nat) returns (e: Edge)
    requires ColonFreeKinds(t) && ':' !in seed.kind && depth >= 1 && id in EdgeIds(t, seed, depth)
    ensures e in t && e.id == id && Returned(t, seed, depth, e)
  {
    var r :| r in PathRows(t, seed, depth) && r.path != [] && r.path[|r.path| - 1] == id;
    e := RowEdgeReturned(t, seed, depth, r);
  }

  lemma EndpointsInBall(t: EdgeTable, seed: Node, depth: nat, e: Edge)
    requires e in t && depth >= 1 && Returned(t, seed, depth, e)
    ensures e.source in Ball(t, seed, depth) && e.target in Ball(t, seed, depth)
  {
    BallGrows(t, seed, depth - 1, depth);
    BallGrows(t, seed, 0, depth);
    ArcsOfEdge(t, e);
    if e.source in Ball(t, seed, depth - 1) {
      BallStep(t, seed, depth - 1, Forward(e));
    }
    if e.target in Ball(t, seed, depth - 1) {
      BallStep(t, seed, depth - 1, Backward(e));
    }
  }

  lemma LastArc(t: EdgeTable, seed: Node, depth: nat, p: seq<Arc>) returns (a: Arc)
    requires SimplePath(Bidirectional(t), seed, p) && 1 <= |p| <= depth
    ensures a in Bidirectional(t) && a.dst == NodeAt(seed, p, |p|) && a.src != a.dst
    ensures a.src in Ball(t, seed, depth - 1)
  {
    var n := |p| - 1;
    a := p[n];
    assert a.src == NodeAt(seed, p, n) != NodeAt(seed, p, |p|);
    WalkStaysInBall(t, seed, p, n);
    BallGrows(t, seed, n, depth - 1);
  }

  /** A node other than the seed within `depth` hops is touched by a returned edge. */
  lemma BallIsTouched(t: EdgeTable, seed: Node, depth: nat, n: Node)
    requires ColonFreeKinds(t) && ':' !in seed.kind && depth >= 1
    requires n in Ball(t, seed, depth)
    ensures n in TouchedNodes(t, seed, EdgeIds(t, seed, depth))
  {
    var p := BallHasSimplePath(t, seed, depth, n);
    if p != [] {
      var a := LastArc(t, seed, depth, p);
      EdgeReached(t, seed, depth, a);
      var e := EdgeOfArc(t, a);
      assert e.id in EdgeIds(t, seed, depth);
    }
  }

  /** The nodes returned are exactly the ball: the `visited` guard loses nothing. */
  lemma TraversalReturnsTheBall(t: EdgeTable, seed: Node, depth: nat)
    requires PrimaryKey(t) && ColonFreeKinds(t) && ':' !in seed.kind && depth >= 1
    ensures TouchedNodes(t, seed, EdgeIds(t, seed, depth)) == Ball(t, seed, depth)
  {
    var ids := EdgeIds(t, seed, depth);
    BallGrows(t, seed, 0, depth);
    forall e | e in t && e.id in ids
      ensures e.source in Ball(t, seed, depth) && e.target in Ball(t, seed, depth)
    {
      TraversalReturnsTheBallsEdges(t, seed, depth, e);
      EndpointsInBall(t, seed, depth, e);
    }
    forall n | n in Ball(t, seed, depth)
      ensures n in TouchedNodes(t, seed, ids)
    {
      BallIsTouched(t, seed, depth, n);
    }
  }

  /** `local_graph` end to end: the error cases, and otherwise the ball with the edges that touch
      its interior. */
  lemma QueryIsTheBall(t: EdgeTable, seed: Node, depth: int)
    requires PrimaryKey(t) && ColonFreeKinds(t)
    ensures Query(t, seed, depth) == Err(UnknownNodeType)
      <==> seed.kind !in {"ASSET", "FINDING", "CVE", "SERVICE", "TECHNOLOGY"}
    ensures Query(t, seed, depth) == Err(InvalidDepth)
      <==> seed.kind in {"ASSET", "FINDING", "CVE", "SERVICE", "TECHNOLOGY"} && !(1 <= depth <= 3)
    ensures Query(t, seed, depth).Ok? ==>
      && Query(t, seed, depth).value.nodes == Ball(t, seed, depth)
      && forall e | e in t :: e.id in Query(t, seed, depth).value.edgeIds <==> Returned(t, seed, depth, e)
  {
    if Query(t, seed, depth).Ok? {
      TraversalReturnsTheBall(t, seed, depth);
      forall e | e in t
        ensures e.id in Query(t, seed, depth).value.edgeIds <==> Returned(t, seed, depth, e)
      {
        TraversalReturnsTheBallsEdges(t, seed, depth, e);
      }
    }
  }
}
