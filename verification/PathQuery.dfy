/** The path query (`_PATH_TRAVERSAL_SQL`): its rows against the simple paths from the seed. */
module PathQuery {
  import opened SecurityGraph
  import opened GraphTraversal

  ghost predicate DistinctPaths(rows: seq<Row>) {
    forall i, j | 0 <= i < j < |rows| :: rows[i].path != rows[j].path
  }

  /** What the working table keeps: the current node is marked visited, one id per hop. */
  ghost predicate Tidy(rows: seq<Row>) {
    forall r | r in rows :: Key(r.node) in r.visited && |r.path| == r.hop
  }

  lemma RecordedRowsAreTidy(arcs: seq<Arc>, seed: Node, rows: seq<Row>)
    requires AllRecorded(arcs, seed, rows)
    ensures Tidy(rows)
  {
    forall r | r in rows
      ensures Key(r.node) in r.visited && |r.path| == r.hop
    {
      var p: seq<Arc> :| Records(arcs, seed, r, p);
      assert r.visited[|p|] == Key(r.node);
    }
  }

  lemma {:induction false} JoinDistinct(arcs: seq<Arc>, r: Row)
    requires TwinsAreLoops(arcs) && Key(r.node) in r.visited
    ensures DistinctPaths(JoinEdges(arcs, r))
  {
    if arcs != [] {
      var rest := JoinEdges(arcs[1..], r);
      JoinDistinct(arcs[1..], r);
      if arcs[0].src == r.node && Key(arcs[0].dst) !in r.visited {
        forall j | 0 <= j < |rest|
          ensures rest[j].path != NextRow(r, arcs[0]).path
        {
          var a := JoinSound(arcs[1..], r, rest[j]);
          var k :| 0 < k < |arcs| && arcs[k] == a;
          assert NextRow(r, a).path[|r.path|] == a.id;
          assert NextRow(r, arcs[0]).path[|r.path|] == arcs[0].id;
        }
      }
    }
  }

  lemma {:induction false} AnchorDistinct(arcs: seq<Arc>, seed: Node)
    requires TwinsAreLoops(arcs) && forall a | a in arcs && a.src == seed :: a.dst != seed
    ensures DistinctPaths(Anchor(arcs, seed))
  {
    if arcs != [] {
      var rest := Anchor(arcs[1..], seed);
      AnchorDistinct(arcs[1..], seed);
      if arcs[0].src == seed {
        forall j | 0 <= j < |rest|
          ensures rest[j].path != FirstRow(seed, arcs[0]).path
        {
          var a := AnchorSound(arcs[1..], seed, rest[j]);
          var k :| 0 < k < |arcs| && arcs[k] == a;
          assert arcs[0] in arcs;
        }
      }
    }
  }

  lemma {:induction false} StepDistinct(arcs: seq<Arc>, work: seq<Row>, depth: nat)
    requires TwinsAreLoops(arcs) && Tidy(work) && DistinctPaths(work)
    ensures DistinctPaths(Step(arcs, work, depth))
  {
    if work != [] {
      var head := if work[0].hop < depth then JoinEdges(arcs, work[0]) else [];
      var rest := Step(arcs, work[1..], depth);
      assert work[0] in work;
      JoinDistinct(arcs, work[0]);
      StepDistinct(arcs, work[1..], depth);
      forall i, j | 0 <= i < |head| && 0 <= j < |rest|
        ensures head[i].path != rest[j].path
      {
        HeadApart(arcs, work, depth, head[i], rest[j]);
      }
      DistinctAppend(head, rest);
    }
  }

  /** Rows that extend different rows have different paths. */
  lemma HeadApart(arcs: seq<Arc>, work: seq<Row>, depth: nat, x: Row, y: Row)
    requires work != [] && DistinctPaths(work)
    requires x in JoinEdges(arcs, work[0]) && y in Step(arcs, work[1..], depth)
    ensures x.path != y.path
  {
    var a := JoinSound(arcs, work[0], x);
    var r, b := StepSound(arcs, work[1..], depth, y);
    var k :| 0 < k < |work| && work[k] == r;
    assert (work[0].path + [a.id])[..|work[0].path|] == work[0].path;
    assert (r.path + [b.id])[..|r.path|] == r.path;
  }

  lemma DistinctAppend(a: seq<Row>, b: seq<Row>)
    requires DistinctPaths(a) && DistinctPaths(b)
    requires forall i, j | 0 <= i < |a| && 0 <= j < |b| :: a[i].path != b[j].path
    ensures DistinctPaths(a + b)
  {
  }

  lemma {:induction false} RecurseHops(arcs: seq<Arc>, work: seq<Row>, depth: nat, hop: nat, r: Row)
    requires AllAtHop(work, hop) && r in Recurse(arcs, work, depth, hop)
    ensures r.hop >= hop
    decreases if hop < depth then depth - hop else 0, |work|
  {
    if r !in work {
      StepHops(arcs, work, depth, hop);
      RecurseHops(arcs, Step(arcs, work, depth), depth, hop + 1, r);
    }
  }

  lemma {:induction false} RecurseDistinct(arcs: seq<Arc>, seed: Node, work: seq<Row>, depth: nat, hop: nat)
    requires TwinsAreLoops(arcs) && AllAtHop(work, hop) && AllRecorded(arcs, seed, work) && DistinctPaths(work)
    requires hop <= depth
    ensures DistinctPaths(Recurse(arcs, work, depth, hop))
    decreases depth - hop
  {
    if work != [] && hop < depth {
      var next := Step(arcs, work, depth);
      StepHops(arcs, work, depth, hop);
      StepRecorded(arcs, seed, work, depth);
      RecordedRowsAreTidy(arcs, seed, work);
      StepDistinct(arcs, work, depth);
      RecurseDistinct(arcs, seed, next, depth, hop + 1);
      var rest := Recurse(arcs, next, depth, hop + 1);
      forall i, j | 0 <= i < |work| && 0 <= j < |rest|
        ensures work[i].path != rest[j].path
      {
        assert work[i] in work && rest[j] in rest;
        RecurseSound(arcs, seed, next, depth, hop + 1, rest[j]);
        RecurseHops(arcs, next, depth, hop + 1, rest[j]);
        RecordedRowsAreTidy(arcs, seed, [rest[j]]);
      }
    } else if work != [] {
      StepHops(arcs, work, depth, hop);
    }
  }

  /** A row that stands for a simple path of the graph. */
  ghost predicate Stands(t: EdgeTable, seed: Node, r: Row) {
    exists p: seq<Arc> :: p != [] && SimplePath(Bidirectional(t), seed, p) && r == RowOf(seed, p)
  }

  ghost predicate SimplePathIds(t: EdgeTable, seed: Node, ids: seq<nat>) {
    exists p: seq<Arc> :: p != [] && SimplePath(Bidirectional(t), seed, p) && ids == Ids(p)
  }

  ghost predicate PathOccurs(rows: seq<Row>, ids: seq<nat>) {
    exists i :: 0 <= i < |rows| && rows[i].path == ids
  }

  /** The contract of the path query: each simple path of at most `depth` edges is listed once,
      by its edge ids, and every row is such a path. */
  ghost predicate ListsSimplePathsOnce(t: EdgeTable, seed: Node, depth: nat) {
    var rows := PathRows(t, seed, depth);
    && DistinctPaths(rows)
    && (forall r | r in rows :: Stands(t, seed, r) && r.hop <= depth)
    && (forall ids :: PathOccurs(rows, ids) <==> SimplePathIds(t, seed, ids) && |ids| <= depth)
  }

  lemma SeedArcsLeave(t: EdgeTable, seed: Node)
    requires !LoopAt(t, seed)
    ensures forall a | a in Bidirectional(t) && a.src == seed :: a.dst != seed
  {
    forall a | a in Bidirectional(t) && a.src == seed
      ensures a.dst != seed
    {
      var _ := EdgeOfArc(t, a);
    }
  }

  lemma GuardedIsSimple(t: EdgeTable, seed: Node, p: seq<Arc>)
    requires p != [] && Walk(Bidirectional(t), seed, p) && Guarded(seed, p) && !LoopAt(t, seed)
    ensures SimplePath(Bidirectional(t), seed, p)
  {
    SeedArcsLeave(t, seed);
    assert p[0].src == NodeAt(seed, p, 0) && p[0] in Bidirectional(t);
  }

  lemma RowStands(t: EdgeTable, seed: Node, depth: nat, r: Row)
    requires ColonFreeKinds(t) && ':' !in seed.kind && depth >= 1 && !LoopAt(t, seed)
    ensures r in PathRows(t, seed, depth) <==> Stands(t, seed, r) && r.hop <= depth
  {
    RowsAreGuardedWalks(t, seed, depth, r);
    if r in PathRows(t, seed, depth) {
      var p: seq<Arc> :| Records(Bidirectional(t), seed, r, p);
      GuardedIsSimple(t, seed, p);
    }
    if Stands(t, seed, r) {
      var p: seq<Arc> :| p != [] && SimplePath(Bidirectional(t), seed, p) && r == RowOf(seed, p);
      assert Records(Bidirectional(t), seed, r, p);
    }
  }

  lemma PathOccursIffSimple(t: EdgeTable, seed: Node, depth: nat, ids: seq<nat>)
    requires ColonFreeKinds(t) && ':' !in seed.kind && depth >= 1 && !LoopAt(t, seed)
    ensures PathOccurs(PathRows(t, seed, depth), ids) <==> SimplePathIds(t, seed, ids) && |ids| <= depth
  {
    var rows := PathRows(t, seed, depth);
    if PathOccurs(rows, ids) {
      var i :| 0 <= i < |rows| && rows[i].path == ids;
      assert rows[i] in rows;
      RowStands(t, seed, depth, rows[i]);
      var p: seq<Arc> :| p != [] && SimplePath(Bidirectional(t), seed, p) && rows[i] == RowOf(seed, p);
    }
    if SimplePathIds(t, seed, ids) && |ids| <= depth {
      var p: seq<Arc> :| p != [] && SimplePath(Bidirectional(t), seed, p) && ids == Ids(p);
      RowStands(t, seed, depth, RowOf(seed, p));
      var i :| 0 <= i < |rows| && rows[i] == RowOf(seed, p);
    }
  }

  lemma LoopSpoilsListing(t: EdgeTable, seed: Node, depth: nat)
    requires ColonFreeKinds(t) && ':' !in seed.kind && depth >= 1 && LoopAt(t, seed)
    ensures !ListsSimplePathsOnce(t, seed, depth)
  {
    var e :| e in t && e.source == seed && e.target == seed;
    ArcsOfEdge(t, e);
    var r := FirstRow(seed, Forward(e));
    RecordFirst(Bidirectional(t), seed, Forward(e));
    RowsAreGuardedWalks(t, seed, depth, r);
    forall p: seq<Arc> | p != [] && SimplePath(Bidirectional(t), seed, p)
      ensures r != RowOf(seed, p)
    {
      assert NodeAt(seed, p, 0) != NodeAt(seed, p, |p|);
    }
  }

  /** The path query lists every simple path exactly once and nothing else if and only if the seed
      carries no self-loop; self-loops elsewhere do no harm. */
  lemma PathQueryListsSimplePaths(t: EdgeTable, seed: Node, depth: nat)
    requires PrimaryKey(t) && ColonFreeKinds(t) && ':' !in seed.kind && depth >= 1
    ensures ListsSimplePathsOnce(t, seed, depth) <==> !LoopAt(t, seed)
  {
    if LoopAt(t, seed) {
      LoopSpoilsListing(t, seed, depth);
    } else {
      var arcs := Bidirectional(t);
      BidirectionalTwins(t);
      SeedArcsLeave(t, seed);
      AnchorHops(arcs, seed);
      AnchorRecorded(arcs, seed);
      AnchorDistinct(arcs, seed);
      RecurseDistinct(arcs, seed, Anchor(arcs, seed), depth, 1);
      forall r | r in PathRows(t, seed, depth)
        ensures Stands(t, seed, r) && r.hop <= depth
      {
        RowStands(t, seed, depth, r);
      }
      forall ids
        ensures PathOccurs(PathRows(t, seed, depth), ids) <==> SimplePathIds(t, seed, ids) && |ids| <= depth
      {
        PathOccursIffSimple(t, seed, depth, ids);
      }
    }
  }

  // ---- The recursion ends without the depth bound ----

  ghost function AllNodes(t: EdgeTable, seed: Node): set<Node> {
    {seed} + (set e | e in t :: e.source) + (set e | e in t :: e.target)
  }

  lemma {:induction false} DistinctFit<T>(s: seq<T>, universe: set<T>)
    requires forall i, j | 0 <= i < j < |s| :: s[i] != s[j]
    requires forall x | x in s :: x in universe
    ensures |s| <= |universe|
  {
    if s != [] {
      assert s[0] in universe;
      forall x | x in s[1..]
        ensures x in universe - {s[0]}
      {
        var k :| 0 < k < |s| && s[k] == x;
      }
      DistinctFit(s[1..], universe - {s[0]});
    }
  }

  /** Unvisited nodes run out: a recorded walk is never longer than the number of nodes. */
  lemma RecordedIsShort(t: EdgeTable, seed: Node, r: Row)
    requires Recorded(Bidirectional(t), seed, r)
    ensures r.hop <= |AllNodes(t, seed)|
  {
    var p: seq<Arc> :| Records(Bidirectional(t), seed, r, p);
    var met := Nodes(seed, p)[1..];
    forall i, j | 0 <= i < j < |met|
      ensures met[i] != met[j]
    {
      assert met[i] == NodeAt(seed, p, i + 1) && met[j] == NodeAt(seed, p, j + 1);
    }
    forall n | n in met
      ensures n in AllNodes(t, seed)
    {
      var i :| 0 <= i < |met| && met[i] == n;
      assert p[i] in p && n == p[i].dst;
      var _ := EdgeOfArc(t, p[i]);
    }
    DistinctFit(met, AllNodes(t, seed));
  }

  lemma {:induction false} StepSame(arcs: seq<Arc>, work: seq<Row>, d: nat, d': nat)
    requires forall r | r in work :: r.hop < d && r.hop < d'
    ensures Step(arcs, work, d) == Step(arcs, work, d')
  {
    if work != [] {
      assert work[0] in work;
      StepSame(arcs, work[1..], d, d');
    }
  }

  ghost predicate HopsBounded(arcs: seq<Arc>, seed: Node, n: nat) {
    forall r | Recorded(arcs, seed, r) :: r.hop <= n
  }

  lemma StepBeyond(arcs: seq<Arc>, seed: Node, work: seq<Row>, d: nat, hop: nat, n: nat)
    requires AllAtHop(work, hop) && AllRecorded(arcs, seed, work) && HopsBounded(arcs, seed, n) && hop >= n
    ensures Step(arcs, work, d) == []
  {
    var next := Step(arcs, work, d);
    StepHops(arcs, work, d, hop);
    StepRecorded(arcs, seed, work, d);
    FirstIsMember(next);
  }

  lemma FirstIsMember(rows: seq<Row>)
    ensures rows == [] || rows[0] in rows
  {
  }

  lemma NextSame(arcs: seq<Arc>, seed: Node, work: seq<Row>, n: nat, d: nat, hop: nat)
    requires AllAtHop(work, hop) && AllRecorded(arcs, seed, work) && HopsBounded(arcs, seed, n) && n <= d
    ensures Step(arcs, work, n) == Step(arcs, work, d)
  {
    if hop < n {
      StepSame(arcs, work, n, d);
    } else {
      StepBeyond(arcs, seed, work, n, hop, n);
      StepBeyond(arcs, seed, work, d, hop, n);
    }
  }

  lemma {:induction false} RecurseSame(arcs: seq<Arc>, seed: Node, work: seq<Row>, n: nat, d: nat, hop: nat)
    requires AllAtHop(work, hop) && AllRecorded(arcs, seed, work) && HopsBounded(arcs, seed, n) && n <= d
    ensures Recurse(arcs, work, n, hop) == Recurse(arcs, work, d, hop)
    decreases if hop < d then d - hop else 0, |work|
  {
    if work != [] {
      var next := Step(arcs, work, d);
      NextSame(arcs, seed, work, n, d, hop);
      StepHops(arcs, work, d, hop);
      StepRecorded(arcs, seed, work, d);
      RecurseSame(arcs, seed, next, n, d, hop + 1);
    }
  }

  /** Beyond the number of nodes the depth bound changes nothing: the guard alone ends the recursion. */
  lemma GuardAloneTerminates(t: EdgeTable, seed: Node, depth: nat)
    requires depth >= |AllNodes(t, seed)|
    ensures PathRows(t, seed, depth) == PathRows(t, seed, |AllNodes(t, seed)|)
  {
    var arcs := Bidirectional(t);
    AnchorHops(arcs, seed);
    AnchorRecorded(arcs, seed);
    forall r | Recorded(arcs, seed, r)
      ensures r.hop <= |AllNodes(t, seed)|
    {
      RecordedIsShort(t, seed, r);
    }
    RecurseSame(arcs, seed, Anchor(arcs, seed), |AllNodes(t, seed)|, depth, 1);
  }
}
