/** The recursive query over `graph_edges`: rows of the working table carry the node reached,
    the hop count, the edge ids walked and the keys already visited. */
module GraphTraversal {
  import opened SecurityGraph

  datatype Row = Row(node: Node, hop: nat, path: seq<nat>, visited: seq<string>)

  function FirstRow(seed: Node, a: Arc): Row {
    Row(a.dst, 1, [a.id], [Key(seed), Key(a.dst)])
  }

  function NextRow(r: Row, a: Arc): Row {
    Row(a.dst, r.hop + 1, r.path + [a.id], r.visited + [Key(a.dst)])
  }

  /** The non-recursive term. It has no `visited` test. */
  function Anchor(arcs: seq<Arc>, seed: Node): seq<Row> {
    if arcs == [] then []
    else (if arcs[0].src == seed then [FirstRow(seed, arcs[0])] else []) + Anchor(arcs[1..], seed)
  }

  /** One working-table row joined with every arc that leaves its node for an unvisited one. */
  function JoinEdges(arcs: seq<Arc>, r: Row): seq<Row> {
    if arcs == [] then []
    else
      (if arcs[0].src == r.node && Key(arcs[0].dst) !in r.visited then [NextRow(r, arcs[0])] else [])
      + JoinEdges(arcs[1..], r)
  }

  /** The recursive term over a whole working table. */
  function Step(arcs: seq<Arc>, work: seq<Row>, depth: nat): seq<Row> {
    if work == [] then []
    else (if work[0].hop < depth then JoinEdges(arcs, work[0]) else []) + Step(arcs, work[1..], depth)
  }

  ghost predicate AllAtHop(work: seq<Row>, hop: nat) {
    forall r | r in work :: r.hop == hop
  }

  /** `WITH RECURSIVE ... UNION ALL`: emit the working table, replace it by the recursive term,
      stop when it is empty. */
  function Recurse(arcs: seq<Arc>, work: seq<Row>, depth: nat, hop: nat): seq<Row>
    requires AllAtHop(work, hop)
    decreases if hop < depth then depth - hop else 0, |work|
  {
    if work == [] then []
    else
      StepHops(arcs, work, depth, hop);
      work + Recurse(arcs, Step(arcs, work, depth), depth, hop + 1)
  }

  /** Every row of the `traversal` relation. */
  function PathRows(t: EdgeTable, seed: Node, depth: nat): seq<Row> {
    AnchorHops(Bidirectional(t), seed);
    Recurse(Bidirectional(t), Anchor(Bidirectional(t), seed), depth, 1)
  }

  lemma {:induction false} AnchorHops(arcs: seq<Arc>, seed: Node)
    ensures AllAtHop(Anchor(arcs, seed), 1)
  {
    if arcs != [] {
      AnchorHops(arcs[1..], seed);
    }
  }

  lemma StepHops(arcs: seq<Arc>, work: seq<Row>, depth: nat, hop: nat)
    requires AllAtHop(work, hop)
    ensures AllAtHop(Step(arcs, work, depth), hop + 1)
    ensures hop >= depth ==> Step(arcs, work, depth) == []
  {
    forall w | w in Step(arcs, work, depth)
      ensures w.hop == hop + 1 && hop < depth
    {
      var _, _ := StepSound(arcs, work, depth, w);
    }
    assert Step(arcs, work, depth) != [] ==> Step(arcs, work, depth)[0] in Step(arcs, work, depth);
  }

  // ---- Which rows the two terms produce ----

  lemma {:induction false} AnchorSound(arcs: seq<Arc>, seed: Node, r: Row) returns (a: Arc)
    requires r in Anchor(arcs, seed)
    ensures a in arcs && a.src == seed && r == FirstRow(seed, a)
  {
    if arcs[0].src == seed && r == FirstRow(seed, arcs[0]) {
      a := arcs[0];
    } else {
      a := AnchorSound(arcs[1..], seed, r);
    }
  }

  lemma {:induction false} AnchorComplete(arcs: seq<Arc>, seed: Node, a: Arc)
    requires a in arcs && a.src == seed
    ensures FirstRow(seed, a) in Anchor(arcs, seed)
  {
    if a != arcs[0] {
      AnchorComplete(arcs[1..], seed, a);
    }
  }

  lemma {:induction false} JoinSound(arcs: seq<Arc>, r: Row, w: Row) returns (a: Arc)
    requires w in JoinEdges(arcs, r)
    ensures a in arcs && a.src == r.node && Key(a.dst) !in r.visited && w == NextRow(r, a)
  {
    if arcs[0].src == r.node && Key(arcs[0].dst) !in r.visited && w == NextRow(r, arcs[0]) {
      a := arcs[0];
    } else {
      a := JoinSound(arcs[1..], r, w);
    }
  }

  lemma {:induction false} JoinComplete(arcs: seq<Arc>, r: Row, a: Arc)
    requires a in arcs && a.src == r.node && Key(a.dst) !in r.visited
    ensures NextRow(r, a) in JoinEdges(arcs, r)
  {
    if a != arcs[0] {
      JoinComplete(arcs[1..], r, a);
    }
  }

  lemma {:induction false} StepSound(arcs: seq<Arc>, work: seq<Row>, depth: nat, w: Row) returns (r: Row, a: Arc)
    requires w in Step(arcs, work, depth)
    ensures r in work && r.hop < depth && a in arcs && a.src == r.node
    ensures Key(a.dst) !in r.visited && w == NextRow(r, a)
  {
    if work[0].hop < depth && w in JoinEdges(arcs, work[0]) {
      r := work[0];
      a := JoinSound(arcs, r, w);
    } else {
      r, a := StepSound(arcs, work[1..], depth, w);
    }
  }

  lemma {:induction false} StepComplete(arcs: seq<Arc>, work: seq<Row>, depth: nat, r: Row, a: Arc)
    requires r in work && r.hop < depth && a in arcs && a.src == r.node && Key(a.dst) !in r.visited
    ensures NextRow(r, a) in Step(arcs, work, depth)
  {
    if r == work[0] {
      JoinComplete(arcs, r, a);
    } else {
      StepComplete(arcs, work[1..], depth, r, a);
    }
  }

  // ---- Rows and the walks they record ----

  /** The walks the query follows: after the first arc, never back onto a node already met. */
  ghost predicate Guarded(seed: Node, p: seq<Arc>) {
    forall i, j | 0 <= i < j <= |p| && 2 <= j :: NodeAt(seed, p, i) != NodeAt(seed, p, j)
  }

  function RowOf(seed: Node, p: seq<Arc>): Row
    requires p != []
  {
    Row(NodeAt(seed, p, |p|), |p|, Ids(p), seq(|p| + 1, i requires 0 <= i <= |p| => Key(NodeAt(seed, p, i))))
  }

  ghost predicate Records(arcs: seq<Arc>, seed: Node, r: Row, p: seq<Arc>) {
    p != [] && Walk(arcs, seed, p) && Guarded(seed, p) && r == RowOf(seed, p)
  }

  lemma RecordFirst(arcs: seq<Arc>, seed: Node, a: Arc)
    requires a in arcs && a.src == seed
    ensures Records(arcs, seed, FirstRow(seed, a), [a])
  {
    assert FirstRow(seed, a).visited == RowOf(seed, [a]).visited;
    assert FirstRow(seed, a).path == Ids([a]);
  }

  lemma RecordNext(arcs: seq<Arc>, seed: Node, r: Row, p: seq<Arc>, a: Arc)
    requires Records(arcs, seed, r, p)
    requires a in arcs && a.src == r.node && Key(a.dst) !in r.visited
    ensures Records(arcs, seed, NextRow(r, a), p + [a])
  {
    var q := p + [a];
    forall i | 0 <= i <= |p|
      ensures NodeAt(seed, q, i) == NodeAt(seed, p, i) && NodeAt(seed, q, i) != a.dst
    {
      assert Key(NodeAt(seed, p, i)) == r.visited[i];
    }
    assert NextRow(r, a).path == Ids(q);
    assert NextRow(r, a).visited == RowOf(seed, q).visited;
  }

  /** The arcs of a table whose node kinds carry no colon: visited keys then identify nodes. */
  ghost predicate ColonFreeArcs(arcs: seq<Arc>) {
    forall a | a in arcs :: ':' !in a.src.kind && ':' !in a.dst.kind
  }

  lemma ColonFreeBidirectional(t: EdgeTable)
    requires ColonFreeKinds(t)
    ensures ColonFreeArcs(Bidirectional(t))
  {
    forall a | a in Bidirectional(t)
      ensures ':' !in a.src.kind && ':' !in a.dst.kind
    {
      var _ := EdgeOfArc(t, a);
    }
  }

  /** Dropping the last arc of a guarded walk leaves a row that the query extends by that arc. */
  lemma RecordPrefix(arcs: seq<Arc>, seed: Node, p: seq<Arc>)
    requires ColonFreeArcs(arcs) && ':' !in seed.kind
    requires |p| >= 2 && Records(arcs, seed, RowOf(seed, p), p)
    ensures Records(arcs, seed, RowOf(seed, p[..|p| - 1]), p[..|p| - 1])
    ensures
      var r, a := RowOf(seed, p[..|p| - 1]), p[|p| - 1];
      a in arcs && a.src == r.node && Key(a.dst) !in r.visited && NextRow(r, a) == RowOf(seed, p)
  {
    var q, a := p[..|p| - 1], p[|p| - 1];
    var r := RowOf(seed, q);
    assert a.src == NodeAt(seed, p, |q|);
    forall i | 0 <= i <= |q|
      ensures NodeAt(seed, q, i) == NodeAt(seed, p, i)
      ensures r.visited[i] != Key(a.dst)
    {
      assert i > 0 ==> p[i - 1] in arcs;
      assert a.dst == NodeAt(seed, p, |p|);
      KeyInjective(NodeAt(seed, p, i), a.dst);
    }
    assert NextRow(r, a).path == RowOf(seed, p).path;
    assert NextRow(r, a).visited == RowOf(seed, p).visited;
  }

  ghost predicate Recorded(arcs: seq<Arc>, seed: Node, r: Row) {
    exists p :: Records(arcs, seed, r, p)
  }

  ghost predicate AllRecorded(arcs: seq<Arc>, seed: Node, work: seq<Row>) {
    forall r | r in work :: Recorded(arcs, seed, r)
  }

  lemma StepRecorded(arcs: seq<Arc>, seed: Node, work: seq<Row>, depth: nat)
    requires AllRecorded(arcs, seed, work)
    ensures AllRecorded(arcs, seed, Step(arcs, work, depth))
  {
    forall w | w in Step(arcs, work, depth)
      ensures Recorded(arcs, seed, w)
    {
      var r, a := StepSound(arcs, work, depth, w);
      var p: seq<Arc> :| Records(arcs, seed, r, p);
      RecordNext(arcs, seed, r, p, a);
    }
  }

  lemma AnchorRecorded(arcs: seq<Arc>, seed: Node)
    ensures AllRecorded(arcs, seed, Anchor(arcs, seed))
  {
    forall w | w in Anchor(arcs, seed)
      ensures Recorded(arcs, seed, w)
    {
      var a := AnchorSound(arcs, seed, w);
      RecordFirst(arcs, seed, a);
    }
  }

  lemma WorkIsSound(arcs: seq<Arc>, seed: Node, work: seq<Row>, hop: nat, r: Row)
    requires AllAtHop(work, hop) && AllRecorded(arcs, seed, work) && r in work
    ensures Recorded(arcs, seed, r) && r.hop == hop
  {
  }

  lemma NextRound(arcs: seq<Arc>, seed: Node, work: seq<Row>, depth: nat, hop: nat)
    requires AllAtHop(work, hop) && AllRecorded(arcs, seed, work) && hop <= depth
    ensures AllRecorded(arcs, seed, Step(arcs, work, depth))
    ensures Step(arcs, work, depth) != [] ==> hop < depth
  {
    StepRecorded(arcs, seed, work, depth);
    StepHops(arcs, work, depth, hop);
  }

  lemma InLaterRound(arcs: seq<Arc>, work: seq<Row>, depth: nat, hop: nat, r: Row)
    requires AllAtHop(work, hop) && r in Recurse(arcs, work, depth, hop) && r !in work
    ensures AllAtHop(Step(arcs, work, depth), hop + 1)
    ensures Step(arcs, work, depth) != [] && r in Recurse(arcs, Step(arcs, work, depth), depth, hop + 1)
  {
    StepHops(arcs, work, depth, hop);
  }

  lemma {:induction false} RecurseSound(arcs: seq<Arc>, seed: Node, work: seq<Row>, depth: nat, hop: nat, r: Row)
    requires AllAtHop(work, hop) && AllRecorded(arcs, seed, work) && hop <= depth
    requires r in Recurse(arcs, work, depth, hop)
    ensures Recorded(arcs, seed, r) && r.hop <= depth
    decreases depth - hop
  {
    if r in work {
      WorkIsSound(arcs, seed, work, hop, r);
    } else {
      InLaterRound(arcs, work, depth, hop, r);
      NextRound(arcs, seed, work, depth, hop);
      RecurseSound(arcs, seed, Step(arcs, work, depth), depth, hop + 1, r);
    }
  }

  lemma {:induction false} RecurseComplete(
    arcs: seq<Arc>, seed: Node, work: seq<Row>, depth: nat, hop: nat, p: seq<Arc>)
    requires ColonFreeArcs(arcs) && ':' !in seed.kind
    requires AllAtHop(work, hop) && 1 <= hop <= |p| <= depth
    requires Records(arcs, seed, RowOf(seed, p), p)
    requires RowOf(seed, p[..hop]) in work
    ensures RowOf(seed, p) in Recurse(arcs, work, depth, hop)
    decreases |p| - hop
  {
    if hop == |p| {
      assert p[..hop] == p;
    } else {
      NextPrefixInStep(arcs, seed, work, depth, hop, p);
      StepHops(arcs, work, depth, hop);
      RecurseComplete(arcs, seed, Step(arcs, work, depth), depth, hop + 1, p);
    }
  }

  /** The next row along a recorded walk comes out of the next round. */
  lemma NextPrefixInStep(arcs: seq<Arc>, seed: Node, work: seq<Row>, depth: nat, hop: nat, p: seq<Arc>)
    requires ColonFreeArcs(arcs) && ':' !in seed.kind && 1 <= hop < |p| <= depth
    requires Records(arcs, seed, RowOf(seed, p), p) && RowOf(seed, p[..hop]) in work
    ensures RowOf(seed, p[..hop + 1]) in Step(arcs, work, depth)
  {
    RecordsPrefixes(arcs, seed, p, hop + 1);
    var q := p[..hop + 1];
    RecordPrefix(arcs, seed, q);
    assert q[..hop] == p[..hop];
    StepComplete(arcs, work, depth, RowOf(seed, p[..hop]), q[hop]);
  }

  lemma RecordsPrefixes(arcs: seq<Arc>, seed: Node, p: seq<Arc>, n: nat)
    requires p != [] && Walk(arcs, seed, p) && Guarded(seed, p) && 1 <= n <= |p|
    ensures Records(arcs, seed, RowOf(seed, p[..n]), p[..n])
  {
    assert forall i | 0 <= i <= n :: NodeAt(seed, p[..n], i) == NodeAt(seed, p, i);
  }

  /** The rows of the query are exactly the guarded walks of 1..depth edges. */
  lemma RowsAreGuardedWalks(t: EdgeTable, seed: Node, depth: nat, r: Row)
    requires ColonFreeKinds(t) && ':' !in seed.kind && depth >= 1
    ensures r in PathRows(t, seed, depth) <==> Recorded(Bidirectional(t), seed, r) && r.hop <= depth
  {
    var arcs := Bidirectional(t);
    AnchorHops(arcs, seed);
    ColonFreeBidirectional(t);
    if r in PathRows(t, seed, depth) {
      AnchorRecorded(arcs, seed);
      RecurseSound(arcs, seed, Anchor(arcs, seed), depth, 1, r);
    }
    if Recorded(arcs, seed, r) && r.hop <= depth {
      var p: seq<Arc> :| Records(arcs, seed, r, p);
      assert p[0].src == NodeAt(seed, p, 0) == seed;
      AnchorComplete(arcs, seed, p[0]);
      RecordFirst(arcs, seed, p[0]);
      assert p[..1] == [p[0]];
      RecurseComplete(arcs, seed, Anchor(arcs, seed), depth, 1, p);
    }
  }
}
