/** The graph as built and the graph as queried: what the builder leaves behind meets the conditions under
    which the traversals are exact. */
module BuiltGraph {
  import opened Inventory
  import opened SecurityGraph
  import opened GraphTraversal
  import opened GraphBuilder
  import LocalGraph
  import PathQuery

  /** On any table grown from empty by building assets' graphs, in any order, any number of times and over
      data that changes in between, the path query lists every simple path once and nothing else, and the
      local graph is the ball around the seed with exactly the edges that touch its interior. */
  lemma BuiltGraphAnswersAreExact(
    history: seq<Build>, rows: map<EdgeKey, EdgeRow>, t: EdgeTable, seed: Node, depth: nat)
    requires CanonicalHistory(history) && Grown(map[], rows, HistoryFacts(history)) && Scan(t, rows)
    requires seed.kind in LocalGraph.VALID_NODE_TYPES && depth >= 1
    ensures PathQuery.ListsSimplePathsOnce(t, seed, depth)
    ensures depth <= LocalGraph.MAX_GRAPH_DEPTH ==>
      && LocalGraph.Query(t, seed, depth).Ok?
      && LocalGraph.Query(t, seed, depth).value.nodes == Ball(t, seed, depth)
      && forall e | e in t ::
           e.id in LocalGraph.Query(t, seed, depth).value.edgeIds
           <==> e.source in Ball(t, seed, depth - 1) || e.target in Ball(t, seed, depth - 1)
  {
    BuiltTableIsTraversable(history, rows, t);
    PathQuery.PathQueryListsSimplePaths(t, seed, depth);
    LocalGraph.QueryIsTheBall(t, seed, depth);
    forall e | e in t
      ensures e.source != e.target
    {
      assert !LoopAt(t, e.source);
    }
  }
}
