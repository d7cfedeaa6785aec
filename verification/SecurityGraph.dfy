/** The `graph_edges` table as the traversal queries see it, and the plain graph notions
    (undirected balls, walks, simple paths) those queries are measured against. */
module SecurityGraph {
  datatype Node = Node(kind: string, id: string)
  datatype Edge = Edge(id: nat, source: Node, target: Node)
  datatype Arc = Arc(id: nat, src: Node, dst: Node)

  type EdgeTable = seq<Edge>

  ghost predicate PrimaryKey(t: EdgeTable) {
    forall i, j | 0 <= i < j < |t| :: t[i].id != t[j].id
  }

  ghost predicate ColonFreeKinds(t: EdgeTable) {
    forall e | e in t :: ':' !in e.source.kind && ':' !in e.target.kind
  }

  ghost predicate LoopAt(t: EdgeTable, n: Node) {
    exists e | e in t :: e.source == n && e.target == n
  }

  /** The text under which a node is remembered in a row's `visited` array. */
  function Key(n: Node): string {
    n.kind + ":" + n.id
  }

  lemma KeyInjective(a: Node, b: Node)
    requires ':' !in a.kind && ':' !in b.kind
    ensures Key(a) == Key(b) <==> a == b
  {
    var i, j := |a.kind|, |b.kind|;
    assert Key(a)[i] == ':' && Key(b)[j] == ':';
    assert i < j ==> Key(b)[i] == b.kind[i];
    assert j < i ==> Key(a)[j] == a.kind[j];
    if Key(a) == Key(b) {
      assert a.kind == Key(a)[..i] && b.kind == Key(b)[..i];
      assert a.id == Key(a)[i + 1..] && b.id == Key(b)[i + 1..];
    }
  }

  /** Each stored edge can be walked both ways, so it contributes two arcs. */
  function Forward(e: Edge): Arc { Arc(e.id, e.source, e.target) }

  function Backward(e: Edge): Arc { Arc(e.id, e.target, e.source) }

  function Bidirectional(t: EdgeTable): seq<Arc> {
    seq(|t|, i requires 0 <= i < |t| => Forward(t[i])) + seq(|t|, i requires 0 <= i < |t| => Backward(t[i]))
  }

  lemma ArcsOfEdge(t: EdgeTable, e: Edge)
    requires e in t
    ensures Forward(e) in Bidirectional(t) && Backward(e) in Bidirectional(t)
  {
    var i :| 0 <= i < |t| && t[i] == e;
    assert Bidirectional(t)[i] == Forward(e);
    assert Bidirectional(t)[|t| + i] == Backward(e);
  }

  lemma EdgeOfArc(t: EdgeTable, a: Arc) returns (e: Edge)
    requires a in Bidirectional(t)
    ensures e in t && (a == Forward(e) || a == Backward(e))
  {
    var k :| 0 <= k < |Bidirectional(t)| && Bidirectional(t)[k] == a;
    e := t[if k < |t| then k else k - |t|];
  }

  /** Two arcs leaving one node under the same edge id can only be the two readings of a self-loop. */
  ghost predicate TwinsAreLoops(arcs: seq<Arc>) {
    forall i, j | 0 <= i < j < |arcs| && arcs[i].id == arcs[j].id && arcs[i].src == arcs[j].src ::
      arcs[i].dst == arcs[i].src
  }

  lemma BidirectionalTwins(t: EdgeTable)
    requires PrimaryKey(t)
    ensures TwinsAreLoops(Bidirectional(t))
  {
    var arcs := Bidirectional(t);
    forall i, j | 0 <= i < j < |arcs| && arcs[i].id == arcs[j].id && arcs[i].src == arcs[j].src
      ensures arcs[i].dst == arcs[i].src
    {
      var x, y := if i < |t| then i else i - |t|, if j < |t| then j else j - |t|;
      assert t[x].id == t[y].id;
      assert x == y;
    }
  }

  // ---- Undirected distance ----

  ghost function Neighbours(t: EdgeTable, s: set<Node>): set<Node> {
    (set e | e in t && e.source in s :: e.target) + (set e | e in t && e.target in s :: e.source)
  }

  /** Every node at undirected distance at most `d` from the seed. */
  ghost function Ball(t: EdgeTable, seed: Node, d: nat): set<Node> {
    if d == 0 then {seed} else Ball(t, seed, d - 1) + Neighbours(t, Ball(t, seed, d - 1))
  }

  lemma {:induction false} BallGrows(t: EdgeTable, seed: Node, d: nat, d': nat)
    requires d <= d'
    ensures Ball(t, seed, d) <= Ball(t, seed, d')
    decreases d' - d
  {
    if d < d' {
      BallGrows(t, seed, d + 1, d');
    }
  }

  lemma BallStep(t: EdgeTable, seed: Node, d: nat, a: Arc)
    requires a in Bidirectional(t) && a.src in Ball(t, seed, d)
    ensures a.dst in Ball(t, seed, d + 1)
  {
    var e := EdgeOfArc(t, a);
    assert e.source in Ball(t, seed, d) || e.target in Ball(t, seed, d);
  }

  // ---- Walks ----

  /** The `i`-th node met when the arcs of `p` are walked from `seed`. */
  function NodeAt(seed: Node, p: seq<Arc>, i: nat): Node
    requires i <= |p|
  {
    if i == 0 then seed else p[i - 1].dst
  }

  function Nodes(seed: Node, p: seq<Arc>): seq<Node> {
    seq(|p| + 1, i requires 0 <= i <= |p| => NodeAt(seed, p, i))
  }

  function Ids(p: seq<Arc>): seq<nat> {
    seq(|p|, i requires 0 <= i < |p| => p[i].id)
  }

  ghost predicate Walk(arcs: seq<Arc>, seed: Node, p: seq<Arc>) {
    && (forall a | a in p :: a in arcs)
    && (forall i {:trigger NodeAt(seed, p, i)} | 0 <= i < |p| :: p[i].src == NodeAt(seed, p, i))
  }

  /** No node is met twice. */
  ghost predicate Simple(seed: Node, p: seq<Arc>) {
    forall i, j | 0 <= i < j <= |p| :: NodeAt(seed, p, i) != NodeAt(seed, p, j)
  }

  ghost predicate SimplePath(arcs: seq<Arc>, seed: Node, p: seq<Arc>) {
    Walk(arcs, seed, p) && Simple(seed, p)
  }

  lemma PrefixOfSimplePath(arcs: seq<Arc>, seed: Node, p: seq<Arc>, n: nat)
    requires SimplePath(arcs, seed, p) && n <= |p|
    ensures SimplePath(arcs, seed, p[..n]) && NodeAt(seed, p[..n], n) == NodeAt(seed, p, n)
  {
    assert forall i | 0 <= i <= n :: NodeAt(seed, p[..n], i) == NodeAt(seed, p, i);
  }

  lemma ExtendSimplePath(arcs: seq<Arc>, seed: Node, p: seq<Arc>, a: Arc)
    requires SimplePath(arcs, seed, p)
    requires a in arcs && a.src == NodeAt(seed, p, |p|)
    requires a.dst !in Nodes(seed, p)
    ensures SimplePath(arcs, seed, p + [a])
  {
    var q := p + [a];
    forall i | 0 <= i <= |p|
      ensures NodeAt(seed, q, i) == NodeAt(seed, p, i) == Nodes(seed, p)[i]
    {
    }
  }

  /** Whatever lies within distance `d` is reached by a simple path of at most `d` edges. */
  lemma {:induction false} BallHasSimplePath(t: EdgeTable, seed: Node, d: nat, n: Node) returns (p: seq<Arc>)
    requires n in Ball(t, seed, d)
    ensures SimplePath(Bidirectional(t), seed, p) && |p| <= d && NodeAt(seed, p, |p|) == n
  {
    if d == 0 {
      p := [];
    } else if n in Ball(t, seed, d - 1) {
      p := BallHasSimplePath(t, seed, d - 1, n);
    } else {
      var a: Arc;
      if e :| e in t && e.source in Ball(t, seed, d - 1) && e.target == n {
        ArcsOfEdge(t, e);
        a := Forward(e);
      } else {
        var e :| e in t && e.target in Ball(t, seed, d - 1) && e.source == n;
        ArcsOfEdge(t, e);
        a := Backward(e);
      }
      var q := BallHasSimplePath(t, seed, d - 1, a.src);
      if n in Nodes(seed, q) {
        var i :| 0 <= i <= |q| && Nodes(seed, q)[i] == n;
        PrefixOfSimplePath(Bidirectional(t), seed, q, i);
        p := q[..i];
      } else {
        ExtendSimplePath(Bidirectional(t), seed, q, a);
        p := q + [a];
      }
    }
  }

  lemma {:induction false} WalkStaysInBall(t: EdgeTable, seed: Node, p: seq<Arc>, i: nat)
    requires Walk(Bidirectional(t), seed, p) && i <= |p|
    ensures NodeAt(seed, p, i) in Ball(t, seed, i)
  {
    if i > 0 {
      WalkStaysInBall(t, seed, p, i - 1);
      BallStep(t, seed, i - 1, p[i - 1]);
    }
  }
}
