/** Attack paths: filtering the rows of the path query, ranking them by hop count, cutting the list,
    and rebuilding the node sequence of each kept path from its edge ids. */
module AttackPaths {
  import opened SecurityGraph
  import opened GraphTraversal
  import opened PathQuery
  import opened LocalGraph

  const MAX_ATTACK_PATH_HOPS := 4
  const MAX_ATTACK_PATHS := 20
  const MAX_RAW_PATH_ROWS := 2000

  datatype Path = Path(hops: nat, nodes: seq<Node>, edges: seq<nat>)

  datatype Paths = Paths(truncated: bool, paths: seq<Path>)

  /** `LIMIT :row_cap`. */
  function EnumeratePaths(t: EdgeTable, seed: Node, maxHops: nat): seq<Row> {
    var rows := PathRows(t, seed, maxHops);
    if |rows| <= MAX_RAW_PATH_ROWS then rows else rows[..MAX_RAW_PATH_ROWS]
  }

  function Filter(rows: seq<Row>, keep: Row -> bool): seq<Row> {
    if rows == [] then []
    else (if keep(rows[0]) then [rows[0]] else []) + Filter(rows[1..], keep)
  }

  lemma {:induction false} FilterMember(rows: seq<Row>, keep: Row -> bool, r: Row)
    ensures r in Filter(rows, keep) <==> r in rows && keep(r)
  {
    if rows != [] {
      FilterMember(rows[1..], keep, r);
    }
  }

  // ---- Ranking ----

  ghost predicate SortedByHop(rows: seq<Row>) {
    forall i, j | 0 <= i < j < |rows| :: rows[i].hop <= rows[j].hop
  }

  function Insert(r: Row, rows: seq<Row>): seq<Row> {
    if rows == [] || r.hop <= rows[0].hop then [r] + rows else [rows[0]] + Insert(r, rows[1..])
  }

  /** Stable sort on the hop count. */
  function Ranked(rows: seq<Row>): seq<Row> {
    if rows == [] then [] else Insert(rows[0], Ranked(rows[1..]))
  }

  lemma {:induction false} InsertSorts(r: Row, rows: seq<Row>)
    requires SortedByHop(rows)
    ensures SortedByHop(Insert(r, rows))
    ensures multiset(Insert(r, rows)) == multiset([r]) + multiset(rows)
  {
    if !(rows == [] || r.hop <= rows[0].hop) {
      var rest := Insert(r, rows[1..]);
      InsertSorts(r, rows[1..]);
      assert rows == [rows[0]] + rows[1..];
      forall x | x in rest
        ensures rows[0].hop <= x.hop
      {
        assert x in multiset(rest);
        assert x == r || x in rows[1..];
      }
      SortedCons(rows[0], rest);
    }
  }

  lemma SortedCons(r: Row, rows: seq<Row>)
    requires SortedByHop(rows) && forall x | x in rows :: r.hop <= x.hop
    ensures SortedByHop([r] + rows)
  {
  }

  lemma {:induction false} RankedSorts(rows: seq<Row>)
    ensures SortedByHop(Ranked(rows)) && multiset(Ranked(rows)) == multiset(rows)
  {
    if rows != [] {
      RankedSorts(rows[1..]);
      InsertSorts(rows[0], Ranked(rows[1..]));
      assert rows == [rows[0]] + rows[1..];
    }
  }

  lemma {:induction false} InsertStable(r: Row, rows: seq<Row>, hop: nat)
    ensures Filter(Insert(r, rows), (x: Row) => x.hop == hop)
         == (if r.hop == hop then [r] else []) + Filter(rows, (x: Row) => x.hop == hop)
  {
    if rows == [] || r.hop <= rows[0].hop {
      assert ([r] + rows)[1..] == rows;
    } else {
      InsertStable(r, rows[1..], hop);
      assert Insert(r, rows)[1..] == Insert(r, rows[1..]);
    }
  }

  /** Paths of one length keep the order in which the query listed them. */
  lemma {:induction false} RankedStable(rows: seq<Row>, hop: nat)
    ensures Filter(Ranked(rows), (x: Row) => x.hop == hop) == Filter(rows, (x: Row) => x.hop == hop)
  {
    if rows != [] {
      RankedStable(rows[1..], hop);
      InsertStable(rows[0], Ranked(rows[1..]), hop);
    }
  }

  function Kept(rows: seq<Row>): seq<Row> {
    if |Ranked(rows)| > MAX_ATTACK_PATHS then Ranked(rows)[..MAX_ATTACK_PATHS] else Ranked(rows)
  }

  function Dropped(rows: seq<Row>): seq<Row> {
    Ranked(rows)[|Kept(rows)|..]
  }

  /** Cutting loses no row silently: kept and dropped rows together are the matching rows, something
      is dropped exactly when there are more than twenty, and no dropped path is shorter than a kept one. */
  lemma KeptAreShortest(rows: seq<Row>)
    ensures multiset(Kept(rows)) + multiset(Dropped(rows)) == multiset(rows)
    ensures |Kept(rows)| == (if |rows| > 20 then 20 else |rows|)
    ensures SortedByHop(Kept(rows))
    ensures forall k, d | k in Kept(rows) && d in Dropped(rows) :: k.hop <= d.hop
  {
    RankedSorts(rows);
    assert |Ranked(rows)| == |multiset(Ranked(rows))| == |multiset(rows)| == |rows|;
    assert Ranked(rows) == Kept(rows) + Dropped(rows);
  }

  // ---- Rebuilding one path ----

  function OtherEnd(e: Edge, current: Node): Node {
    if current == e.source then e.target else e.source
  }

  /** The edge id of a recorded step resolves to the edge whose other end is the next node. */
  lemma StepResolves(t: EdgeTable, a: Arc, e: Edge)
    requires PrimaryKey(t) && a in Bidirectional(t) && e in t && e.id == a.id
    ensures OtherEnd(e, a.src) == a.dst && a.src in {e.source, e.target} && a.dst in {e.source, e.target}
  {
    var e' := EdgeOfArc(t, a);
    var i, j :| 0 <= i < |t| && 0 <= j < |t| && t[i] == e && t[j] == e';
  }

  ghost predicate Resolves(t: EdgeTable, byId: map<nat, Edge>, ids: seq<nat>) {
    forall id | id in ids :: id in byId && byId[id] in t && byId[id].id == id
  }

  /** The result of rebuilding a row: the very walk the traversal recorded. */
  ghost predicate Rebuilt(t: EdgeTable, seed: Node, r: Row, path: Path) {
    && path.hops == r.hop && path.edges == r.path
    && |path.nodes| == r.hop + 1 && path.nodes[0] == seed && path.nodes[r.hop] == r.node
    && (forall i | 0 <= i <= r.hop :: i < |r.visited| && Key(path.nodes[i]) == r.visited[i])
    && (exists p: seq<Arc> :: Records(Bidirectional(t), seed, r, p) && path.nodes == Nodes(seed, p))
  }

  method RebuildPath(t: EdgeTable, byId: map<nat, Edge>, seed: Node, r: Row)
    returns (path: Path, touched: set<Node>)
    requires PrimaryKey(t) && Recorded(Bidirectional(t), seed, r) && Resolves(t, byId, r.path)
    ensures Rebuilt(t, seed, r, path)
    ensures forall n | n in path.nodes :: n == seed || n in touched
  {
    ghost var p: seq<Arc> :| Records(Bidirectional(t), seed, r, p);
    var orderedEdges: seq<Edge> := [];
    for i := 0 to |r.path|
      invariant |orderedEdges| == i
      invariant forall k | 0 <= k < i :: orderedEdges[k] in t && orderedEdges[k].id == p[k].id
    {
      var id := r.path[i];
      if id in byId {
        orderedEdges := orderedEdges + [byId[id]];
      }
    }
    var nodeSequence, current := [seed], seed;
    touched := {};
    for i := 0 to |orderedEdges|
      invariant |nodeSequence| == i + 1 && current == NodeAt(seed, p, i)
      invariant forall k | 0 <= k <= i :: nodeSequence[k] == NodeAt(seed, p, k)
      invariant forall n | n in nodeSequence :: n == seed || n in touched
    {
      var e := orderedEdges[i];
      assert p[i] in p && p[i].src == NodeAt(seed, p, i);
      StepResolves(t, p[i], e);
      var next := if current == e.source then e.target else e.source;
      nodeSequence := nodeSequence + [next];
      touched := touched + {e.source, e.target};
      current := next;
    }
    assert nodeSequence == Nodes(seed, p);
    path := Path(r.hop, nodeSequence, seq(|orderedEdges|, i requires 0 <= i < |orderedEdges| => orderedEdges[i].id));
  }

  /** `{e.id: e for e in rows}` over the rows whose id is wanted. */
  method LoadEdges(t: EdgeTable, wanted: set<nat>) returns (byId: map<nat, Edge>)
    ensures forall id | id in byId :: id in wanted && byId[id] in t && byId[id].id == id
    ensures forall e | e in t && e.id in wanted :: e.id in byId
  {
    byId := map[];
    for i := 0 to |t|
      invariant forall id | id in byId :: id in wanted && byId[id] in t && byId[id].id == id
      invariant forall k | 0 <= k < i && t[k].id in wanted :: t[k].id in byId
    {
      if t[i].id in wanted {
        byId := byId[t[i].id := t[i]];
      }
    }
  }

  lemma RecordedIdsAreStored(t: EdgeTable, seed: Node, r: Row, id: nat) returns (e: Edge)
    requires Recorded(Bidirectional(t), seed, r) && id in r.path
    ensures e in t && e.id == id
  {
    var p: seq<Arc> :| Records(Bidirectional(t), seed, r, p);
    var i :| 0 <= i < |r.path| && r.path[i] == id;
    assert p[i] in p;
    e := EdgeOfArc(t, p[i]);
  }

  lemma RecordedPathResolves(t: EdgeTable, seed: Node, r: Row, byId: map<nat, Edge>, wanted: set<nat>)
    requires Recorded(Bidirectional(t), seed, r) && forall id | id in r.path :: id in wanted
    requires forall id | id in byId :: byId[id] in t && byId[id].id == id
    requires forall e | e in t && e.id in wanted :: e.id in byId
    ensures Resolves(t, byId, r.path)
  {
    forall id | id in r.path
      ensures id in byId
    {
      var e := RecordedIdsAreStored(t, seed, r, id);
    }
  }

  /** A rebuilt path meets no node twice, unless the seed carries a self-loop. */
  lemma RebuiltPathIsSimple(t: EdgeTable, seed: Node, r: Row, path: Path)
    requires Rebuilt(t, seed, r, path) && !LoopAt(t, seed)
    ensures forall i, j | 0 <= i < j < |path.nodes| :: path.nodes[i] != path.nodes[j]
  {
    var p: seq<Arc> :| Records(Bidirectional(t), seed, r, p) && path.nodes == Nodes(seed, p);
    GuardedIsSimple(t, seed, p);
    assert forall i | 0 <= i < |path.nodes| :: path.nodes[i] == NodeAt(seed, p, i);
  }

  method BuildPathsResponse(t: EdgeTable, seed: Node, matching: seq<Row>) returns (resp: Paths, hydrated: set<Node>)
    requires PrimaryKey(t) && AllRecorded(Bidirectional(t), seed, matching)
    ensures resp.truncated <==> |matching| > 20
    ensures |resp.paths| == |Kept(matching)|
    ensures forall i | 0 <= i < |resp.paths| :: Rebuilt(t, seed, Kept(matching)[i], resp.paths[i])
    ensures forall i, n | 0 <= i < |resp.paths| && n in resp.paths[i].nodes :: n in hydrated
  {
    var kept := Kept(matching);
    var wanted: set<nat> := {};
    for i := 0 to |kept|
      invariant forall k, id | 0 <= k < i && id in kept[k].path :: id in wanted
    {
      wanted := wanted + (set id | id in kept[i].path);
    }
    var byId := LoadEdges(t, wanted);
    hydrated := {seed};
    var paths: seq<Path> := [];
    for i := 0 to |kept|
      invariant |paths| == i
      invariant forall k | 0 <= k < i :: Rebuilt(t, seed, kept[k], paths[k])
      invariant seed in hydrated
      invariant forall k, n | 0 <= k < i && n in paths[k].nodes :: n in hydrated
    {
      KeptIsMatching(matching, kept[i]);
      RecordedPathResolves(t, seed, kept[i], byId, wanted);
      var path, touched := RebuildPath(t, byId, seed, kept[i]);
      paths := paths + [path];
      hydrated := hydrated + touched;
    }
    RankedLength(matching);
    resp := Paths(|Ranked(matching)| > MAX_ATTACK_PATHS, paths);
  }

  lemma RankedLength(rows: seq<Row>)
    ensures |Ranked(rows)| == |rows|
  {
    RankedSorts(rows);
    assert |multiset(Ranked(rows))| == |multiset(rows)|;
  }

  // ---- The two entry points ----

  function RowsTo(t: EdgeTable, seed: Node, target: Node, maxHops: nat): seq<Row> {
    Filter(EnumeratePaths(t, seed, maxHops), (r: Row) => r.node == target)
  }

  ghost predicate BelowCap(t: EdgeTable, seed: Node, maxHops: nat) {
    |PathRows(t, seed, maxHops)| <= 2000
  }

  /** Graph distance. */
  ghost predicate Distance(t: EdgeTable, a: Node, b: Node, d: nat) {
    b in Ball(t, a, d) && (d > 0 ==> b !in Ball(t, a, d - 1))
  }

  lemma EnumeratedRowsAreRecorded(t: EdgeTable, seed: Node, maxHops: nat, keep: Row -> bool)
    requires ColonFreeKinds(t) && ':' !in seed.kind && maxHops >= 1
    ensures AllRecorded(Bidirectional(t), seed, Filter(EnumeratePaths(t, seed, maxHops), keep))
  {
    forall r | r in Filter(EnumeratePaths(t, seed, maxHops), keep)
      ensures Recorded(Bidirectional(t), seed, r)
    {
      FilterMember(EnumeratePaths(t, seed, maxHops), keep, r);
      RowsAreGuardedWalks(t, seed, maxHops, r);
    }
  }

  lemma RowIsNoShorterThanDistance(t: EdgeTable, seed: Node, r: Row)
    requires Recorded(Bidirectional(t), seed, r)
    ensures r.node in Ball(t, seed, r.hop)
  {
    var p: seq<Arc> :| Records(Bidirectional(t), seed, r, p);
    WalkStaysInBall(t, seed, p, |p|);
  }

  lemma SimplePathIsEnumerated(t: EdgeTable, seed: Node, target: Node, maxHops: nat, p: seq<Arc>)
    requires ColonFreeKinds(t) && ':' !in seed.kind && maxHops >= 1 && BelowCap(t, seed, maxHops)
    requires SimplePath(Bidirectional(t), seed, p) && 1 <= |p| <= maxHops && NodeAt(seed, p, |p|) == target
    ensures RowOf(seed, p) in RowsTo(t, seed, target, maxHops)
  {
    assert Records(Bidirectional(t), seed, RowOf(seed, p), p);
    RowsAreGuardedWalks(t, seed, maxHops, RowOf(seed, p));
    FilterMember(EnumeratePaths(t, seed, maxHops), (r: Row) => r.node == target, RowOf(seed, p));
  }

  lemma {:induction false} ReachedAtItsDistance(t: EdgeTable, a: Node, b: Node, k: nat) returns (d: nat)
    requires b in Ball(t, a, k)
    ensures d <= k && Distance(t, a, b, d)
  {
    if k == 0 || b !in Ball(t, a, k - 1) {
      d := k;
    } else {
      d := ReachedAtItsDistance(t, a, b, k - 1);
    }
  }

  /** The best ranked row to a target has the graph distance as its hop count, and there is one
      exactly when the target is within reach. */
  lemma FirstKeptIsShortest(t: EdgeTable, seed: Node, target: Node, maxHops: nat)
    requires ColonFreeKinds(t) && ':' !in seed.kind && maxHops >= 1 && BelowCap(t, seed, maxHops)
    requires seed != target
    ensures Kept(RowsTo(t, seed, target, maxHops)) != [] <==> target in Ball(t, seed, maxHops)
    ensures Kept(RowsTo(t, seed, target, maxHops)) != [] ==>
      Distance(t, seed, target, Kept(RowsTo(t, seed, target, maxHops))[0].hop)
  {
    if Kept(RowsTo(t, seed, target, maxHops)) != [] {
      FirstKeptAtDistance(t, seed, target, maxHops, Kept(RowsTo(t, seed, target, maxHops))[0]);
    } else if target in Ball(t, seed, maxHops) {
      BestIsNoLonger(t, seed, target, maxHops, maxHops);
    }
  }

  lemma FirstKeptAtDistance(t: EdgeTable, seed: Node, target: Node, maxHops: nat, best: Row)
    requires ColonFreeKinds(t) && ':' !in seed.kind && maxHops >= 1 && BelowCap(t, seed, maxHops)
    requires seed != target
    requires Kept(RowsTo(t, seed, target, maxHops)) != [] && best == Kept(RowsTo(t, seed, target, maxHops))[0]
    ensures target in Ball(t, seed, maxHops) && Distance(t, seed, target, best.hop)
  {
    KeptIsMatching(RowsTo(t, seed, target, maxHops), best);
    RowToTarget(t, seed, target, maxHops, best);
    BallGrows(t, seed, best.hop, maxHops);
    var d := ReachedAtItsDistance(t, seed, target, best.hop);
    assert target in Ball(t, seed, d);
    BestIsNoLonger(t, seed, target, maxHops, d);
    assert d == best.hop;
  }

  lemma KeptIsMatching(rows: seq<Row>, r: Row)
    requires r in Kept(rows)
    ensures r in rows
  {
    KeptAreShortest(rows);
    assert r in multiset(Kept(rows));
    assert r in multiset(rows);
  }

  lemma BestIsNoLonger(t: EdgeTable, seed: Node, target: Node, maxHops: nat, d: nat)
    requires ColonFreeKinds(t) && ':' !in seed.kind && maxHops >= 1 && BelowCap(t, seed, maxHops)
    requires seed != target && d <= maxHops && target in Ball(t, seed, d)
    ensures Kept(RowsTo(t, seed, target, maxHops)) != []
    ensures Kept(RowsTo(t, seed, target, maxHops))[0].hop <= d
  {
    var p := BallHasSimplePath(t, seed, d, target);
    SimplePathIsEnumerated(t, seed, target, maxHops, p);
    BestIsFirst(RowsTo(t, seed, target, maxHops), RowOf(seed, p));
  }

  lemma RowToTarget(t: EdgeTable, seed: Node, target: Node, maxHops: nat, r: Row)
    requires ColonFreeKinds(t) && ':' !in seed.kind && maxHops >= 1
    requires r in RowsTo(t, seed, target, maxHops)
    ensures r.node == target && r.hop <= maxHops && target in Ball(t, seed, r.hop)
  {
    FilterMember(EnumeratePaths(t, seed, maxHops), (x: Row) => x.node == target, r);
    RowsAreGuardedWalks(t, seed, maxHops, r);
    RowIsNoShorterThanDistance(t, seed, r);
  }

  lemma BestIsFirst(rows: seq<Row>, r: Row)
    requires r in rows
    ensures Kept(rows) != [] && Kept(rows)[0].hop <= r.hop
  {
    KeptAreShortest(rows);
    assert r in multiset(rows);
    assert r in multiset(Kept(rows)) || r in multiset(Dropped(rows));
    assert Kept(rows)[0] in Kept(rows);
    if r in Kept(rows) {
      var i :| 0 <= i < |Kept(rows)| && Kept(rows)[i] == r;
    }
  }

  ghost predicate Listed(paths: seq<Path>, ids: seq<nat>) {
    exists i :: 0 <= i < |paths| && paths[i].edges == ids
  }

  /** `find_paths_between`. */
  method FindPathsBetween(t: EdgeTable, from: Node, to: Node, maxHops: int) returns (res: Result<Paths>)
    requires PrimaryKey(t) && ColonFreeKinds(t)
    ensures res == Err(UnknownNodeType) <==> from.kind !in VALID_NODE_TYPES || to.kind !in VALID_NODE_TYPES
    ensures res == Err(InvalidDepth) <==>
      from.kind in VALID_NODE_TYPES && to.kind in VALID_NODE_TYPES && !(1 <= maxHops <= 4)
    ensures res.Ok? && from == to ==> res.value == Paths(false, [])
    ensures res.Ok? && from != to ==>
      && res.value.truncated == (|RowsTo(t, from, to, maxHops)| > 20)
      && |res.value.paths| == |Kept(RowsTo(t, from, to, maxHops))|
      && (forall i | 0 <= i < |res.value.paths| ::
            Rebuilt(t, from, Kept(RowsTo(t, from, to, maxHops))[i], res.value.paths[i]))
    ensures res.Ok? && from != to && BelowCap(t, from, maxHops) ==>
      && (res.value.paths != [] <==> to in Ball(t, from, maxHops))
      && (res.value.paths != [] ==> Distance(t, from, to, res.value.paths[0].hops))
      && (!res.value.truncated ==>
            forall p: seq<Arc> |
              SimplePath(Bidirectional(t), from, p) && |p| <= maxHops && NodeAt(from, p, |p|) == to ::
              Listed(res.value.paths, Ids(p)))
  {
    if from.kind !in VALID_NODE_TYPES || to.kind !in VALID_NODE_TYPES {
      return Err(UnknownNodeType);
    }
    if maxHops < 1 || maxHops > MAX_ATTACK_PATH_HOPS {
      return Err(InvalidDepth);
    }
    if from == to {
      return Ok(Paths(false, []));
    }
    var matching := RowsTo(t, from, to, maxHops);
    EnumeratedRowsAreRecorded(t, from, maxHops, (r: Row) => r.node == to);
    var resp, _ := BuildPathsResponse(t, from, matching);
    res := Ok(resp);
    KeptAreShortest(matching);
    if BelowCap(t, from, maxHops) {
      FirstKeptIsShortest(t, from, to, maxHops);
      if !resp.truncated {
        forall p: seq<Arc> | SimplePath(Bidirectional(t), from, p) && |p| <= maxHops && NodeAt(from, p, |p|) == to
          ensures Listed(resp.paths, Ids(p))
        {
          SimplePathIsEnumerated(t, from, to, maxHops, p);
          KeptIsListed(t, from, matching, resp.paths, RowOf(from, p));
        }
      }
    }
  }

  lemma KeptIsListed(t: EdgeTable, seed: Node, rows: seq<Row>, paths: seq<Path>, r: Row)
    requires r in rows && |rows| <= MAX_ATTACK_PATHS && |paths| == |Kept(rows)|
    requires forall i | 0 <= i < |paths| :: Rebuilt(t, seed, Kept(rows)[i], paths[i])
    ensures Listed(paths, r.path)
  {
    KeptAreShortest(rows);
    RankedSorts(rows);
    assert r in multiset(rows);
    assert r in multiset(Ranked(rows));
    var i :| 0 <= i < |Ranked(rows)| && Ranked(rows)[i] == r;
    assert Kept(rows)[i] == r;
  }

  /** Asset ids among the rows that the database reports as CRITICAL. */
  function CriticalCandidates(rows: seq<Row>, seed: Node, critical: set<string>): set<string> {
    set r | r in rows && r.node.kind == "ASSET" && r.node != seed && r.node.id in critical :: r.node.id
  }

  /** The path leads from the seed to another asset that is critical. */
  predicate CriticalEnd(seed: Node, critical: set<string>, path: Path) {
    && |path.nodes| == path.hops + 1 && path.nodes[0] == seed
    && var last := path.nodes[path.hops]; last.kind == "ASSET" && last.id in critical && last != seed
  }

  /** `find_paths_to_critical_assets`: the rows kept end on a critical asset other than the seed. */
  method FindPathsToCriticalAssets(t: EdgeTable, seed: Node, critical: set<string>, maxHops: int)
    returns (res: Result<Paths>)
    requires PrimaryKey(t) && ColonFreeKinds(t)
    ensures res == Err(UnknownNodeType) <==> seed.kind !in VALID_NODE_TYPES
    ensures res == Err(InvalidDepth) <==> seed.kind in VALID_NODE_TYPES && !(1 <= maxHops <= 4)
    ensures res.Ok? ==>
      var rows := CriticalRows(EnumeratePaths(t, seed, maxHops), seed, critical);
      && res.value.truncated == (|rows| > 20)
      && |res.value.paths| == |Kept(rows)|
      && (forall i | 0 <= i < |res.value.paths| :: Rebuilt(t, seed, Kept(rows)[i], res.value.paths[i]))
      && (forall i, j | 0 <= i < j < |res.value.paths| :: res.value.paths[i].hops <= res.value.paths[j].hops)
    ensures res.Ok? ==> forall i | 0 <= i < |res.value.paths| :: CriticalEnd(seed, critical, res.value.paths[i])
    ensures res.Ok? && BelowCap(t, seed, maxHops) && !res.value.truncated ==>
      forall p: seq<Arc> | SimplePath(Bidirectional(t), seed, p) && 1 <= |p| <= maxHops
        && NodeAt(seed, p, |p|).kind == "ASSET" && NodeAt(seed, p, |p|).id in critical ::
          Listed(res.value.paths, Ids(p))
  {
    if seed.kind !in VALID_NODE_TYPES {
      return Err(UnknownNodeType);
    }
    if maxHops < 1 || maxHops > MAX_ATTACK_PATH_HOPS {
      return Err(InvalidDepth);
    }
    var rows := EnumeratePaths(t, seed, maxHops);
    var matching := CriticalRows(rows, seed, critical);
    ghost var ids := CriticalCandidates(rows, seed, critical);
    EnumeratedRowsAreRecorded(t, seed, maxHops, (r: Row) => r.node.kind == "ASSET" && r.node.id in ids);
    var resp, _ := BuildPathsResponse(t, seed, matching);
    res := Ok(resp);
    KeptAreShortest(matching);
    forall i | 0 <= i < |resp.paths|
      ensures CriticalEnd(seed, critical, resp.paths[i])
    {
      KeptEndsOnCritical(t, seed, critical, rows, Kept(matching)[i], resp.paths[i]);
    }
    if BelowCap(t, seed, maxHops) && !resp.truncated {
      forall p: seq<Arc> | SimplePath(Bidirectional(t), seed, p) && 1 <= |p| <= maxHops
        && NodeAt(seed, p, |p|).kind == "ASSET" && NodeAt(seed, p, |p|).id in critical
        ensures Listed(resp.paths, Ids(p))
      {
        CriticalPathIsMatched(t, seed, critical, maxHops, p);
        KeptIsListed(t, seed, matching, resp.paths, RowOf(seed, p));
      }
    }
  }

  /** The rows that end on a critical asset other than the seed. */
  function CriticalRows(rows: seq<Row>, seed: Node, critical: set<string>): seq<Row> {
    var ids := CriticalCandidates(rows, seed, critical);
    Filter(rows, (r: Row) => r.node.kind == "ASSET" && r.node.id in ids)
  }

  lemma CriticalRow(rows: seq<Row>, seed: Node, critical: set<string>, r: Row)
    ensures r in CriticalRows(rows, seed, critical) <==>
      r in rows && r.node.kind == "ASSET" && r.node.id in critical && r.node != seed
  {
    var ids := CriticalCandidates(rows, seed, critical);
    FilterMember(rows, (x: Row) => x.node.kind == "ASSET" && x.node.id in ids, r);
  }

  lemma KeptEndsOnCritical(t: EdgeTable, seed: Node, critical: set<string>, rows: seq<Row>, r: Row, path: Path)
    requires r in Kept(CriticalRows(rows, seed, critical)) && Rebuilt(t, seed, r, path)
    ensures CriticalEnd(seed, critical, path)
  {
    KeptIsMatching(CriticalRows(rows, seed, critical), r);
    CriticalRow(rows, seed, critical, r);
  }

  lemma CriticalPathIsMatched(t: EdgeTable, seed: Node, critical: set<string>, maxHops: nat, p: seq<Arc>)
    requires ColonFreeKinds(t) && ':' !in seed.kind && maxHops >= 1 && BelowCap(t, seed, maxHops)
    requires SimplePath(Bidirectional(t), seed, p) && 1 <= |p| <= maxHops
    requires NodeAt(seed, p, |p|).kind == "ASSET" && NodeAt(seed, p, |p|).id in critical
    ensures RowOf(seed, p) in CriticalRows(EnumeratePaths(t, seed, maxHops), seed, critical)
  {
    assert NodeAt(seed, p, 0) != NodeAt(seed, p, |p|);
    assert Records(Bidirectional(t), seed, RowOf(seed, p), p);
    RowsAreGuardedWalks(t, seed, maxHops, RowOf(seed, p));
    CriticalRow(EnumeratePaths(t, seed, maxHops), seed, critical, RowOf(seed, p));
  }
}
