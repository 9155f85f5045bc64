/**
 * The outcomes that the shortest-path test suite expects, derived from the
 * contracts alone: for each edge list, the adjacency list `CreateGraph` must
 * build, the distances every answer of `Dijkstra` must have, and the path
 * `GetShortestPath` must return. Each distance vector is certified by a
 * potential with a tight tree (`CertifiedDistances`).
 */
module DijkstraExamples {
  import opened Wrappers
  import opened Graphs
  import opened ShortestPaths

  // A single node without edges

  lemma SingleNodeAnswer(D: seq<Dist>, P: seq<Option<nat>>)
    requires SolvesShortestPaths([[]], 0, D, P)
    ensures D == [Finite(0)] && P == [None]
  {
  }

  /** The single-node test: the source alone, at distance 0 with no predecessor. */
  method SingleNodeScenario() returns (distances: seq<Dist>, previous: seq<Option<nat>>)
    ensures distances == [Finite(0)] && previous == [None]
  {
    distances, previous := Dijkstra([[]], 0);
    SingleNodeAnswer(distances, previous);
  }

  // A small graph: node 3 is reached via 1

  /** The test's edge list, written in two halves. */
  const SimpleEdges: seq<EdgeTuple> := SimpleEdgesFirst + SimpleEdgesSecond
  const SimpleEdgesFirst: seq<EdgeTuple> :=
    [EdgeTuple(0, 1, 4), EdgeTuple(0, 2, 2), EdgeTuple(1, 2, 1)]
  const SimpleEdgesSecond: seq<EdgeTuple> :=
    [EdgeTuple(1, 3, 5), EdgeTuple(2, 3, 8), EdgeTuple(2, 4, 10), EdgeTuple(3, 4, 2)]
  const SimpleGraph: Graph :=
    [[Edge(1, 4), Edge(2, 2)], [Edge(2, 1), Edge(3, 5)], [Edge(3, 8), Edge(4, 10)], [Edge(4, 2)], []]
  const SimpleDist: seq<Dist> := [Finite(0), Finite(4), Finite(2), Finite(9), Finite(11)]
  const SimpleParent: seq<nat> := [0, 0, 0, 1, 3]
  const SimpleRank: seq<nat> := [0, 1, 2, 3, 4]

  /** The largest node id in the edge list. */
  lemma SimpleMax()
    ensures MaxNode(SimpleEdges) == 4
  {
    assert SimpleEdges[5].to == 4;
    MaxNodeIs(SimpleEdges, 4);
  }

  /** The edge list of node 0, computed from the two halves of the edges. */
  lemma SimpleOutgoing0()
    ensures Outgoing(SimpleEdges, 0) == SimpleGraph[0]
  {
    OutgoingAppend(SimpleEdgesFirst, SimpleEdgesSecond, 0);
    assert Outgoing(SimpleEdgesFirst, 0) == [Edge(1, 4), Edge(2, 2)] by {
      var E := [EdgeTuple(0, 1, 4), EdgeTuple(0, 2, 2), EdgeTuple(1, 2, 1)];
      assert SimpleEdgesFirst == E;
      assert Outgoing(E, 0) == [Edge(1, 4), Edge(2, 2)];
    }
    assert Outgoing(SimpleEdgesSecond, 0) == [] by {
      var E := [EdgeTuple(1, 3, 5), EdgeTuple(2, 3, 8), EdgeTuple(2, 4, 10), EdgeTuple(3, 4, 2)];
      assert SimpleEdgesSecond == E;
      assert Outgoing(E, 0) == [];
    }
  }

  /** The edge list of node 1, computed from the two halves of the edges. */
  lemma SimpleOutgoing1()
    ensures Outgoing(SimpleEdges, 1) == SimpleGraph[1]
  {
    OutgoingAppend(SimpleEdgesFirst, SimpleEdgesSecond, 1);
    assert Outgoing(SimpleEdgesFirst, 1) == [Edge(2, 1)] by {
      var E := [EdgeTuple(0, 1, 4), EdgeTuple(0, 2, 2), EdgeTuple(1, 2, 1)];
      assert SimpleEdgesFirst == E;
      assert Outgoing(E, 1) == [Edge(2, 1)];
    }
    assert Outgoing(SimpleEdgesSecond, 1) == [Edge(3, 5)] by {
      var E := [EdgeTuple(1, 3, 5), EdgeTuple(2, 3, 8), EdgeTuple(2, 4, 10), EdgeTuple(3, 4, 2)];
      assert SimpleEdgesSecond == E;
      assert Outgoing(E, 1) == [Edge(3, 5)];
    }
  }

  /** The edge list of node 2, computed from the two halves of the edges. */
  lemma SimpleOutgoing2()
    ensures Outgoing(SimpleEdges, 2) == SimpleGraph[2]
  {
    OutgoingAppend(SimpleEdgesFirst, SimpleEdgesSecond, 2);
    assert Outgoing(SimpleEdgesFirst, 2) == [] by {
      var E := [EdgeTuple(0, 1, 4), EdgeTuple(0, 2, 2), EdgeTuple(1, 2, 1)];
      assert SimpleEdgesFirst == E;
      assert Outgoing(E, 2) == [];
    }
    assert Outgoing(SimpleEdgesSecond, 2) == [Edge(3, 8), Edge(4, 10)] by {
      var E := [EdgeTuple(1, 3, 5), EdgeTuple(2, 3, 8), EdgeTuple(2, 4, 10), EdgeTuple(3, 4, 2)];
      assert SimpleEdgesSecond == E;
      assert Outgoing(E, 2) == [Edge(3, 8), Edge(4, 10)];
    }
  }

  /** The edge list of node 3, computed from the two halves of the edges. */
  lemma SimpleOutgoing3()
    ensures Outgoing(SimpleEdges, 3) == SimpleGraph[3]
  {
    OutgoingAppend(SimpleEdgesFirst, SimpleEdgesSecond, 3);
    assert Outgoing(SimpleEdgesFirst, 3) == [] by {
      var E := [EdgeTuple(0, 1, 4), EdgeTuple(0, 2, 2), EdgeTuple(1, 2, 1)];
      assert SimpleEdgesFirst == E;
      assert Outgoing(E, 3) == [];
    }
    assert Outgoing(SimpleEdgesSecond, 3) == [Edge(4, 2)] by {
      var E := [EdgeTuple(1, 3, 5), EdgeTuple(2, 3, 8), EdgeTuple(2, 4, 10), EdgeTuple(3, 4, 2)];
      assert SimpleEdgesSecond == E;
      assert Outgoing(E, 3) == [Edge(4, 2)];
    }
  }

  /** The edge list of node 4, computed from the two halves of the edges. */
  lemma SimpleOutgoing4()
    ensures Outgoing(SimpleEdges, 4) == SimpleGraph[4]
  {
    OutgoingAppend(SimpleEdgesFirst, SimpleEdgesSecond, 4);
    assert Outgoing(SimpleEdgesFirst, 4) == [] by {
      var E := [EdgeTuple(0, 1, 4), EdgeTuple(0, 2, 2), EdgeTuple(1, 2, 1)];
      assert SimpleEdgesFirst == E;
      assert Outgoing(E, 4) == [];
    }
    assert Outgoing(SimpleEdgesSecond, 4) == [] by {
      var E := [EdgeTuple(1, 3, 5), EdgeTuple(2, 3, 8), EdgeTuple(2, 4, 10), EdgeTuple(3, 4, 2)];
      assert SimpleEdgesSecond == E;
      assert Outgoing(E, 4) == [];
    }
  }

  /** The largest node id and the list of every node, computed from the edges. */
  lemma SimpleLists()
    ensures MaxNode(SimpleEdges) == 4
    ensures forall u :: 0 <= u < 5 ==> Outgoing(SimpleEdges, u) == SimpleGraph[u]
  {
    SimpleMax();
    SimpleOutgoing0();
    SimpleOutgoing1();
    SimpleOutgoing2();
    SimpleOutgoing3();
    SimpleOutgoing4();
    forall u | 0 <= u < 5 ensures Outgoing(SimpleEdges, u) == SimpleGraph[u] {
      assert u == 0 || u == 1 || u == 2 || u == 3 || u == 4;
    }
  }

  /** `CreateGraph` on the test's edge list builds exactly this adjacency list. */
  lemma SimpleBuilt(g: Graph)
    requires GraphOf(SimpleEdges, g)
    ensures g == SimpleGraph
  {
    SimpleLists();
  }

  /** No edge can lower the expected distances. */
  lemma SimplePotential()
    ensures IsPotential(SimpleGraph, 0, SimpleDist)
  {
    var g: Graph, pot: seq<Dist> := SimpleGraph, SimpleDist;
    forall u, j | 0 <= u < |g| && 0 <= j < |g[u]| && g[u][j].to < |g| && pot[u].Finite?
      ensures AtMost(pot[g[u][j].to], Plus(pot[u], g[u][j].weight))
    {
      assert u == 0 || u == 1 || u == 2 || u == 3 || u == 4;
    }
  }

  /** Every expected distance except the source's is realised by its parent's edge. */
  lemma SimpleTree()
    ensures TightTree(SimpleGraph, 0, SimpleDist, SimpleParent, SimpleRank)
  {
    var g: Graph := SimpleGraph;
    assert g[0][0].to == 1 && g[0][1].to == 2 && g[1][1].to == 3 && g[3][0].to == 4;
  }

  /** The expected distances form a potential with a tight tree. */
  lemma SimpleCertificate()
    ensures IsPotential(SimpleGraph, 0, SimpleDist)
    ensures TightTree(SimpleGraph, 0, SimpleDist, SimpleParent, SimpleRank)
  {
    SimplePotential();
    SimpleTree();
  }

  /** Every answer for this graph has the expected distances. */
  lemma SimpleDistances(D: seq<Dist>, P: seq<Option<nat>>)
    requires SolvesShortestPaths(SimpleGraph, 0, D, P)
    ensures D == SimpleDist
  {
    SimpleCertificate();
    CertifiedDistances(SimpleGraph, 0, D, P, SimpleDist, SimpleParent, SimpleRank);
  }

  /** On the path's nodes, the only edge that realises the expected distance is the tree's. */
  lemma SimpleChain(P: seq<Option<nat>>)
    requires |P| == 5 && P[0] == None
    requires forall v :: 1 <= v < 5 ==> P[v].Some? && PredecessorEdge(SimpleGraph, SimpleDist, v, P[v].value)
    ensures IsPredecessorChain(P, [0, 1, 3])
  {
    var g: Graph, D: seq<Dist> := SimpleGraph, SimpleDist;
    forall v | v in {1, 3} ensures P[v] == Some(SimpleParent[v]) {
      var u := P[v].value;
      var j :| 0 <= j < |g[u]| && g[u][j].to == v && D[v].d == D[u].d + g[u][j].weight;
      assert u == 0 || u == 1 || u == 2 || u == 3 || u == 4;
    }
  }

  /** The path to node 3 read off any answer is the expected one. */
  lemma SimplePath(D: seq<Dist>, P: seq<Option<nat>>, path: seq<nat>)
    requires SolvesShortestPaths(SimpleGraph, 0, D, P)
    requires IsPredecessorChain(P, path) && path[|path| - 1] == 3
    ensures path == [0, 1, 3]
  {
    SimpleDistances(D, P);
    SimpleChain(P);
    ChainUnique(P, path, [0, 1, 3]);
  }

  /** The test's steps: build the graph, solve from node 0, read off the path to node 3. */
  method SimpleScenario() returns (distances: seq<Dist>, path: seq<nat>)
    ensures distances == SimpleDist && path == [0, 1, 3]
  {
    var graph := CreateGraph(SimpleEdges);
    SimpleBuilt(graph);
    var previous;
    distances, previous := Dijkstra(graph, 0);
    SimpleDistances(distances, previous);
    path := GetShortestPath(previous, 3);
    SimplePath(distances, previous, path);
  }

  // Two components: nodes 2 and 3 stay unreachable

  const DisconnectedEdges: seq<EdgeTuple> :=
    [EdgeTuple(0, 1, 5), EdgeTuple(2, 3, 3)]
  const DisconnectedGraph: Graph :=
    [[Edge(1, 5)], [], [Edge(3, 3)], []]
  const DisconnectedDist: seq<Dist> := [Finite(0), Finite(5), Infinity, Infinity]
  const DisconnectedParent: seq<nat> := [0, 0, 0, 0]
  const DisconnectedRank: seq<nat> := [0, 1, 0, 0]

  /** The largest node id and the list of every node, computed from the edges. */
  lemma DisconnectedLists()
    ensures MaxNode(DisconnectedEdges) == 3
    ensures forall u :: 0 <= u < 4 ==> Outgoing(DisconnectedEdges, u) == DisconnectedGraph[u]
  {
    var E := [EdgeTuple(0, 1, 5), EdgeTuple(2, 3, 3)];
    assert DisconnectedEdges == E;
    assert MaxNode(DisconnectedEdges) == 3 by {
      assert E[1].to == 3;
      MaxNodeIs(E, 3);
    }
    assert Outgoing(DisconnectedEdges, 0) == [Edge(1, 5)] by {
      assert Outgoing(E, 0) == [Edge(1, 5)];
    }
    assert Outgoing(DisconnectedEdges, 1) == [] by {
      assert Outgoing(E, 1) == [];
    }
    assert Outgoing(DisconnectedEdges, 2) == [Edge(3, 3)] by {
      assert Outgoing(E, 2) == [Edge(3, 3)];
    }
    assert Outgoing(DisconnectedEdges, 3) == [] by {
      assert Outgoing(E, 3) == [];
    }
    forall u | 0 <= u < 4 ensures Outgoing(DisconnectedEdges, u) == DisconnectedGraph[u] {
      assert u == 0 || u == 1 || u == 2 || u == 3;
    }
  }

  /** `CreateGraph` on the test's edge list builds exactly this adjacency list. */
  lemma DisconnectedBuilt(g: Graph)
    requires GraphOf(DisconnectedEdges, g)
    ensures g == DisconnectedGraph
  {
    DisconnectedLists();
  }

  /** The expected distances form a potential with a tight tree. */
  lemma DisconnectedCertificate()
    ensures IsPotential(DisconnectedGraph, 0, DisconnectedDist)
    ensures TightTree(DisconnectedGraph, 0, DisconnectedDist, DisconnectedParent, DisconnectedRank)
  {
    var g: Graph, pot: seq<Dist> := DisconnectedGraph, DisconnectedDist;
    forall u, j | 0 <= u < |g| && 0 <= j < |g[u]| && g[u][j].to < |g| && pot[u].Finite?
      ensures AtMost(pot[g[u][j].to], Plus(pot[u], g[u][j].weight))
    {
      assert u == 0 || u == 1 || u == 2 || u == 3;
    }
    assert g[0][0].to == 1;
  }

  /** Every answer for this graph has the expected distances. */
  lemma DisconnectedDistances(D: seq<Dist>, P: seq<Option<nat>>)
    requires SolvesShortestPaths(DisconnectedGraph, 0, D, P)
    ensures D == DisconnectedDist
  {
    DisconnectedCertificate();
    CertifiedDistances(DisconnectedGraph, 0, D, P, DisconnectedDist, DisconnectedParent, DisconnectedRank);
  }

  /** The test's steps: build the graph and solve from node 0. */
  method DisconnectedScenario() returns (distances: seq<Dist>)
    ensures distances == DisconnectedDist
  {
    var graph := CreateGraph(DisconnectedEdges);
    DisconnectedBuilt(graph);
    var previous;
    distances, previous := Dijkstra(graph, 0);
    DisconnectedDistances(distances, previous);
  }

  // Several routes: node 1 is nearer through node 2

  /** The test's edge list, written in two halves. */
  const MultiRouteEdges: seq<EdgeTuple> := MultiRouteEdgesFirst + MultiRouteEdgesSecond
  const MultiRouteEdgesFirst: seq<EdgeTuple> :=
    [EdgeTuple(0, 1, 10), EdgeTuple(0, 2, 3)]
  const MultiRouteEdgesSecond: seq<EdgeTuple> :=
    [EdgeTuple(1, 3, 2), EdgeTuple(2, 1, 4), EdgeTuple(2, 3, 8)]
  const MultiRouteGraph: Graph :=
    [[Edge(1, 10), Edge(2, 3)], [Edge(3, 2)], [Edge(1, 4), Edge(3, 8)], []]
  const MultiRouteDist: seq<Dist> := [Finite(0), Finite(7), Finite(3), Finite(9)]
  const MultiRouteParent: seq<nat> := [0, 2, 0, 1]
  const MultiRouteRank: seq<nat> := [0, 2, 1, 3]

  /** The largest node id in the edge list. */
  lemma MultiRouteMax()
    ensures MaxNode(MultiRouteEdges) == 3
  {
    assert MultiRouteEdges[2].to == 3;
    MaxNodeIs(MultiRouteEdges, 3);
  }

  /** The edge list of node 0, computed from the two halves of the edges. */
  lemma MultiRouteOutgoing0()
    ensures Outgoing(MultiRouteEdges, 0) == MultiRouteGraph[0]
  {
    OutgoingAppend(MultiRouteEdgesFirst, MultiRouteEdgesSecond, 0);
    assert Outgoing(MultiRouteEdgesFirst, 0) == [Edge(1, 10), Edge(2, 3)] by {
      var E := [EdgeTuple(0, 1, 10), EdgeTuple(0, 2, 3)];
      assert MultiRouteEdgesFirst == E;
      assert Outgoing(E, 0) == [Edge(1, 10), Edge(2, 3)];
    }
    assert Outgoing(MultiRouteEdgesSecond, 0) == [] by {
      var E := [EdgeTuple(1, 3, 2), EdgeTuple(2, 1, 4), EdgeTuple(2, 3, 8)];
      assert MultiRouteEdgesSecond == E;
      assert Outgoing(E, 0) == [];
    }
  }

  /** The edge list of node 1, computed from the two halves of the edges. */
  lemma MultiRouteOutgoing1()
    ensures Outgoing(MultiRouteEdges, 1) == MultiRouteGraph[1]
  {
    OutgoingAppend(MultiRouteEdgesFirst, MultiRouteEdgesSecond, 1);
    assert Outgoing(MultiRouteEdgesFirst, 1) == [] by {
      var E := [EdgeTuple(0, 1, 10), EdgeTuple(0, 2, 3)];
      assert MultiRouteEdgesFirst == E;
      assert Outgoing(E, 1) == [];
    }
    assert Outgoing(MultiRouteEdgesSecond, 1) == [Edge(3, 2)] by {
      var E := [EdgeTuple(1, 3, 2), EdgeTuple(2, 1, 4), EdgeTuple(2, 3, 8)];
      assert MultiRouteEdgesSecond == E;
      assert Outgoing(E, 1) == [Edge(3, 2)];
    }
  }

  /** The edge list of node 2, computed from the two halves of the edges. */
  lemma MultiRouteOutgoing2()
    ensures Outgoing(MultiRouteEdges, 2) == MultiRouteGraph[2]
  {
    OutgoingAppend(MultiRouteEdgesFirst, MultiRouteEdgesSecond, 2);
    assert Outgoing(MultiRouteEdgesFirst, 2) == [] by {
      var E := [EdgeTuple(0, 1, 10), EdgeTuple(0, 2, 3)];
      assert MultiRouteEdgesFirst == E;
      assert Outgoing(E, 2) == [];
    }
    assert Outgoing(MultiRouteEdgesSecond, 2) == [Edge(1, 4), Edge(3, 8)] by {
      var E := [EdgeTuple(1, 3, 2), EdgeTuple(2, 1, 4), EdgeTuple(2, 3, 8)];
      assert MultiRouteEdgesSecond == E;
      assert Outgoing(E, 2) == [Edge(1, 4), Edge(3, 8)];
    }
  }

  /** The edge list of node 3, computed from the two halves of the edges. */
  lemma MultiRouteOutgoing3()
    ensures Outgoing(MultiRouteEdges, 3) == MultiRouteGraph[3]
  {
    OutgoingAppend(MultiRouteEdgesFirst, MultiRouteEdgesSecond, 3);
    assert Outgoing(MultiRouteEdgesFirst, 3) == [] by {
      var E := [EdgeTuple(0, 1, 10), EdgeTuple(0, 2, 3)];
      assert MultiRouteEdgesFirst == E;
      assert Outgoing(E, 3) == [];
    }
    assert Outgoing(MultiRouteEdgesSecond, 3) == [] by {
      var E := [EdgeTuple(1, 3, 2), EdgeTuple(2, 1, 4), EdgeTuple(2, 3, 8)];
      assert MultiRouteEdgesSecond == E;
      assert Outgoing(E, 3) == [];
    }
  }

  /** The largest node id and the list of every node, computed from the edges. */
  lemma MultiRouteLists()
    ensures MaxNode(MultiRouteEdges) == 3
    ensures forall u :: 0 <= u < 4 ==> Outgoing(MultiRouteEdges, u) == MultiRouteGraph[u]
  {
    MultiRouteMax();
    MultiRouteOutgoing0();
    MultiRouteOutgoing1();
    MultiRouteOutgoing2();
    MultiRouteOutgoing3();
    forall u | 0 <= u < 4 ensures Outgoing(MultiRouteEdges, u) == MultiRouteGraph[u] {
      assert u == 0 || u == 1 || u == 2 || u == 3;
    }
  }

  /** `CreateGraph` on the test's edge list builds exactly this adjacency list. */
  lemma MultiRouteBuilt(g: Graph)
    requires GraphOf(MultiRouteEdges, g)
    ensures g == MultiRouteGraph
  {
    MultiRouteLists();
  }

  /** The expected distances form a potential with a tight tree. */
  lemma MultiRouteCertificate()
    ensures IsPotential(MultiRouteGraph, 0, MultiRouteDist)
    ensures TightTree(MultiRouteGraph, 0, MultiRouteDist, MultiRouteParent, MultiRouteRank)
  {
    var g: Graph, pot: seq<Dist> := MultiRouteGraph, MultiRouteDist;
    forall u, j | 0 <= u < |g| && 0 <= j < |g[u]| && g[u][j].to < |g| && pot[u].Finite?
      ensures AtMost(pot[g[u][j].to], Plus(pot[u], g[u][j].weight))
    {
      assert u == 0 || u == 1 || u == 2 || u == 3;
    }
    assert g[2][0].to == 1 && g[0][1].to == 2 && g[1][0].to == 3;
  }

  /** Every answer for this graph has the expected distances. */
  lemma MultiRouteDistances(D: seq<Dist>, P: seq<Option<nat>>)
    requires SolvesShortestPaths(MultiRouteGraph, 0, D, P)
    ensures D == MultiRouteDist
  {
    MultiRouteCertificate();
    CertifiedDistances(MultiRouteGraph, 0, D, P, MultiRouteDist, MultiRouteParent, MultiRouteRank);
  }

  /** On the path's nodes, the only edge that realises the expected distance is the tree's. */
  lemma MultiRouteChain(P: seq<Option<nat>>)
    requires |P| == 4 && P[0] == None
    requires forall v :: 1 <= v < 4 ==> P[v].Some? && PredecessorEdge(MultiRouteGraph, MultiRouteDist, v, P[v].value)
    ensures IsPredecessorChain(P, [0, 2, 1, 3])
  {
    var g: Graph, D: seq<Dist> := MultiRouteGraph, MultiRouteDist;
    forall v | v in {2, 1, 3} ensures P[v] == Some(MultiRouteParent[v]) {
      var u := P[v].value;
      var j :| 0 <= j < |g[u]| && g[u][j].to == v && D[v].d == D[u].d + g[u][j].weight;
      assert u == 0 || u == 1 || u == 2 || u == 3;
    }
  }

  /** The path to node 3 read off any answer is the expected one. */
  lemma MultiRoutePath(D: seq<Dist>, P: seq<Option<nat>>, path: seq<nat>)
    requires SolvesShortestPaths(MultiRouteGraph, 0, D, P)
    requires IsPredecessorChain(P, path) && path[|path| - 1] == 3
    ensures path == [0, 2, 1, 3]
  {
    MultiRouteDistances(D, P);
    MultiRouteChain(P);
    ChainUnique(P, path, [0, 2, 1, 3]);
  }

  /** The test's steps: build the graph, solve from node 0, read off the path to node 3. */
  method MultiRouteScenario() returns (distances: seq<Dist>, path: seq<nat>)
    ensures distances == MultiRouteDist && path == [0, 2, 1, 3]
  {
    var graph := CreateGraph(MultiRouteEdges);
    MultiRouteBuilt(graph);
    var previous;
    distances, previous := Dijkstra(graph, 0);
    MultiRouteDistances(distances, previous);
    path := GetShortestPath(previous, 3);
    MultiRoutePath(distances, previous, path);
  }

  // A graph with cycles

  /** The test's edge list, written in two halves. */
  const ComplexEdges: seq<EdgeTuple> := ComplexEdgesFirst + ComplexEdgesSecond
  const ComplexEdgesFirst: seq<EdgeTuple> :=
    [EdgeTuple(0, 1, 1), EdgeTuple(0, 2, 4), EdgeTuple(1, 2, 2), EdgeTuple(1, 3, 5), EdgeTuple(2, 3, 1)]
  const ComplexEdgesSecond: seq<EdgeTuple> :=
    [EdgeTuple(3, 4, 3), EdgeTuple(4, 5, 2), EdgeTuple(3, 5, 4), EdgeTuple(1, 4, 8), EdgeTuple(2, 5, 6)]
  const ComplexGraph: Graph :=
    [[Edge(1, 1), Edge(2, 4)], [Edge(2, 2), Edge(3, 5), Edge(4, 8)], [Edge(3, 1), Edge(5, 6)], [Edge(4, 3), Edge(5, 4)], [Edge(5, 2)], []]
  const ComplexDist: seq<Dist> := [Finite(0), Finite(1), Finite(3), Finite(4), Finite(7), Finite(8)]
  const ComplexParent: seq<nat> := [0, 0, 1, 2, 3, 3]
  const ComplexRank: seq<nat> := [0, 1, 2, 3, 4, 5]

  /** The largest node id in the edge list. */
  lemma ComplexMax()
    ensures MaxNode(ComplexEdges) == 5
  {
    assert ComplexEdges[6].to == 5;
    MaxNodeIs(ComplexEdges, 5);
  }

  /** The edge list of node 0, computed from the two halves of the edges. */
  lemma ComplexOutgoing0()
    ensures Outgoing(ComplexEdges, 0) == ComplexGraph[0]
  {
    OutgoingAppend(ComplexEdgesFirst, ComplexEdgesSecond, 0);
    assert Outgoing(ComplexEdgesFirst, 0) == [Edge(1, 1), Edge(2, 4)] by {
      var E := [EdgeTuple(0, 1, 1), EdgeTuple(0, 2, 4), EdgeTuple(1, 2, 2), EdgeTuple(1, 3, 5), EdgeTuple(2, 3, 1)];
      assert ComplexEdgesFirst == E;
      assert Outgoing(E, 0) == [Edge(1, 1), Edge(2, 4)];
    }
    assert Outgoing(ComplexEdgesSecond, 0) == [] by {
      var E := [EdgeTuple(3, 4, 3), EdgeTuple(4, 5, 2), EdgeTuple(3, 5, 4), EdgeTuple(1, 4, 8), EdgeTuple(2, 5, 6)];
      assert ComplexEdgesSecond == E;
      assert Outgoing(E, 0) == [];
    }
  }

  /** The edge list of node 1, computed from the two halves of the edges. */
  lemma ComplexOutgoing1()
    ensures Outgoing(ComplexEdges, 1) == ComplexGraph[1]
  {
    OutgoingAppend(ComplexEdgesFirst, ComplexEdgesSecond, 1);
    assert Outgoing(ComplexEdgesFirst, 1) == [Edge(2, 2), Edge(3, 5)] by {
      var E := [EdgeTuple(0, 1, 1), EdgeTuple(0, 2, 4), EdgeTuple(1, 2, 2), EdgeTuple(1, 3, 5), EdgeTuple(2, 3, 1)];
      assert ComplexEdgesFirst == E;
      assert Outgoing(E, 1) == [Edge(2, 2), Edge(3, 5)];
    }
    assert Outgoing(ComplexEdgesSecond, 1) == [Edge(4, 8)] by {
      var E := [EdgeTuple(3, 4, 3), EdgeTuple(4, 5, 2), EdgeTuple(3, 5, 4), EdgeTuple(1, 4, 8), EdgeTuple(2, 5, 6)];
      assert ComplexEdgesSecond == E;
      assert Outgoing(E, 1) == [Edge(4, 8)];
    }
  }

  /** The edge list of node 2, computed from the two halves of the edges. */
  lemma ComplexOutgoing2()
    ensures Outgoing(ComplexEdges, 2) == ComplexGraph[2]
  {
    OutgoingAppend(ComplexEdgesFirst, ComplexEdgesSecond, 2);
    assert Outgoing(ComplexEdgesFirst, 2) == [Edge(3, 1)] by {
      var E := [EdgeTuple(0, 1, 1), EdgeTuple(0, 2, 4), EdgeTuple(1, 2, 2), EdgeTuple(1, 3, 5), EdgeTuple(2, 3, 1)];
      assert ComplexEdgesFirst == E;
      assert Outgoing(E, 2) == [Edge(3, 1)];
    }
    assert Outgoing(ComplexEdgesSecond, 2) == [Edge(5, 6)] by {
      var E := [EdgeTuple(3, 4, 3), EdgeTuple(4, 5, 2), EdgeTuple(3, 5, 4), EdgeTuple(1, 4, 8), EdgeTuple(2, 5, 6)];
      assert ComplexEdgesSecond == E;
      assert Outgoing(E, 2) == [Edge(5, 6)];
    }
  }

  /** The edge list of node 3, computed from the two halves of the edges. */
  lemma ComplexOutgoing3()
    ensures Outgoing(ComplexEdges, 3) == ComplexGraph[3]
  {
    OutgoingAppend(ComplexEdgesFirst, ComplexEdgesSecond, 3);
    assert Outgoing(ComplexEdgesFirst, 3) == [] by {
      var E := [EdgeTuple(0, 1, 1), EdgeTuple(0, 2, 4), EdgeTuple(1, 2, 2), EdgeTuple(1, 3, 5), EdgeTuple(2, 3, 1)];
      assert ComplexEdgesFirst == E;
      assert Outgoing(E, 3) == [];
    }
    assert Outgoing(ComplexEdgesSecond, 3) == [Edge(4, 3), Edge(5, 4)] by {
      var E := [EdgeTuple(3, 4, 3), EdgeTuple(4, 5, 2), EdgeTuple(3, 5, 4), EdgeTuple(1, 4, 8), EdgeTuple(2, 5, 6)];
      assert ComplexEdgesSecond == E;
      assert Outgoing(E, 3) == [Edge(4, 3), Edge(5, 4)];
    }
  }

  /** The edge list of node 4, computed from the two halves of the edges. */
  lemma ComplexOutgoing4()
    ensures Outgoing(ComplexEdges, 4) == ComplexGraph[4]
  {
    OutgoingAppend(ComplexEdgesFirst, ComplexEdgesSecond, 4);
    assert Outgoing(ComplexEdgesFirst, 4) == [] by {
      var E := [EdgeTuple(0, 1, 1), EdgeTuple(0, 2, 4), EdgeTuple(1, 2, 2), EdgeTuple(1, 3, 5), EdgeTuple(2, 3, 1)];
      assert ComplexEdgesFirst == E;
      assert Outgoing(E, 4) == [];
    }
    assert Outgoing(ComplexEdgesSecond, 4) == [Edge(5, 2)] by {
      var E := [EdgeTuple(3, 4, 3), EdgeTuple(4, 5, 2), EdgeTuple(3, 5, 4), EdgeTuple(1, 4, 8), EdgeTuple(2, 5, 6)];
      assert ComplexEdgesSecond == E;
      assert Outgoing(E, 4) == [Edge(5, 2)];
    }
  }

  /** The edge list of node 5, computed from the two halves of the edges. */
  lemma ComplexOutgoing5()
    ensures Outgoing(ComplexEdges, 5) == ComplexGraph[5]
  {
    OutgoingAppend(ComplexEdgesFirst, ComplexEdgesSecond, 5);
    assert Outgoing(ComplexEdgesFirst, 5) == [] by {
      var E := [EdgeTuple(0, 1, 1), EdgeTuple(0, 2, 4), EdgeTuple(1, 2, 2), EdgeTuple(1, 3, 5), EdgeTuple(2, 3, 1)];
      assert ComplexEdgesFirst == E;
      assert Outgoing(E, 5) == [];
    }
    assert Outgoing(ComplexEdgesSecond, 5) == [] by {
      var E := [EdgeTuple(3, 4, 3), EdgeTuple(4, 5, 2), EdgeTuple(3, 5, 4), EdgeTuple(1, 4, 8), EdgeTuple(2, 5, 6)];
      assert ComplexEdgesSecond == E;
      assert Outgoing(E, 5) == [];
    }
  }

  /** The largest node id and the list of every node, computed from the edges. */
  lemma ComplexLists()
    ensures MaxNode(ComplexEdges) == 5
    ensures forall u :: 0 <= u < 6 ==> Outgoing(ComplexEdges, u) == ComplexGraph[u]
  {
    ComplexMax();
    ComplexOutgoing0();
    ComplexOutgoing1();
    ComplexOutgoing2();
    ComplexOutgoing3();
    ComplexOutgoing4();
    ComplexOutgoing5();
    forall u | 0 <= u < 6 ensures Outgoing(ComplexEdges, u) == ComplexGraph[u] {
      assert u == 0 || u == 1 || u == 2 || u == 3 || u == 4 || u == 5;
    }
  }

  /** `CreateGraph` on the test's edge list builds exactly this adjacency list. */
  lemma ComplexBuilt(g: Graph)
    requires GraphOf(ComplexEdges, g)
    ensures g == ComplexGraph
  {
    ComplexLists();
  }

  /** No edge can lower the expected distances. */
  lemma ComplexPotential()
    ensures IsPotential(ComplexGraph, 0, ComplexDist)
  {
    var g: Graph, pot: seq<Dist> := ComplexGraph, ComplexDist;
    forall u, j | 0 <= u < |g| && 0 <= j < |g[u]| && g[u][j].to < |g| && pot[u].Finite?
      ensures AtMost(pot[g[u][j].to], Plus(pot[u], g[u][j].weight))
    {
      assert u == 0 || u == 1 || u == 2 || u == 3 || u == 4 || u == 5;
    }
  }

  /** Every expected distance except the source's is realised by its parent's edge. */
  lemma ComplexTree()
    ensures TightTree(ComplexGraph, 0, ComplexDist, ComplexParent, ComplexRank)
  {
    var g: Graph := ComplexGraph;
    assert g[0][0].to == 1 && g[1][0].to == 2 && g[2][0].to == 3 && g[3][0].to == 4 && g[3][1].to == 5;
  }

  /** The expected distances form a potential with a tight tree. */
  lemma ComplexCertificate()
    ensures IsPotential(ComplexGraph, 0, ComplexDist)
    ensures TightTree(ComplexGraph, 0, ComplexDist, ComplexParent, ComplexRank)
  {
    ComplexPotential();
    ComplexTree();
  }

  /** Every answer for this graph has the expected distances. */
  lemma ComplexDistances(D: seq<Dist>, P: seq<Option<nat>>)
    requires SolvesShortestPaths(ComplexGraph, 0, D, P)
    ensures D == ComplexDist
  {
    ComplexCertificate();
    CertifiedDistances(ComplexGraph, 0, D, P, ComplexDist, ComplexParent, ComplexRank);
  }

  /** On the path's nodes, the only edge that realises the expected distance is the tree's. */
  lemma ComplexChain(P: seq<Option<nat>>)
    requires |P| == 6 && P[0] == None
    requires forall v :: 1 <= v < 6 ==> P[v].Some? && PredecessorEdge(ComplexGraph, ComplexDist, v, P[v].value)
    ensures IsPredecessorChain(P, [0, 1, 2, 3, 5])
  {
    var g: Graph, D: seq<Dist> := ComplexGraph, ComplexDist;
    forall v | v in {1, 2, 3, 5} ensures P[v] == Some(ComplexParent[v]) {
      var u := P[v].value;
      var j :| 0 <= j < |g[u]| && g[u][j].to == v && D[v].d == D[u].d + g[u][j].weight;
      assert u == 0 || u == 1 || u == 2 || u == 3 || u == 4 || u == 5;
    }
  }

  /** The path to node 5 read off any answer is the expected one. */
  lemma ComplexPath(D: seq<Dist>, P: seq<Option<nat>>, path: seq<nat>)
    requires SolvesShortestPaths(ComplexGraph, 0, D, P)
    requires IsPredecessorChain(P, path) && path[|path| - 1] == 5
    ensures path == [0, 1, 2, 3, 5]
  {
    ComplexDistances(D, P);
    ComplexChain(P);
    ChainUnique(P, path, [0, 1, 2, 3, 5]);
  }

  /** The test's steps: build the graph, solve from node 0, read off the path to node 5. */
  method ComplexScenario() returns (distances: seq<Dist>, path: seq<nat>)
    ensures distances == ComplexDist && path == [0, 1, 2, 3, 5]
  {
    var graph := CreateGraph(ComplexEdges);
    ComplexBuilt(graph);
    var previous;
    distances, previous := Dijkstra(graph, 0);
    ComplexDistances(distances, previous);
    path := GetShortestPath(previous, 5);
    ComplexPath(distances, previous, path);
  }

  // Edges of weight zero

  /** The test's edge list, written in two halves. */
  const ZeroWeightEdges: seq<EdgeTuple> := ZeroWeightEdgesFirst + ZeroWeightEdgesSecond
  const ZeroWeightEdgesFirst: seq<EdgeTuple> :=
    [EdgeTuple(0, 1, 0), EdgeTuple(1, 2, 0)]
  const ZeroWeightEdgesSecond: seq<EdgeTuple> :=
    [EdgeTuple(2, 3, 1), EdgeTuple(0, 3, 5)]
  const ZeroWeightGraph: Graph :=
    [[Edge(1, 0), Edge(3, 5)], [Edge(2, 0)], [Edge(3, 1)], []]
  const ZeroWeightDist: seq<Dist> := [Finite(0), Finite(0), Finite(0), Finite(1)]
  const ZeroWeightParent: seq<nat> := [0, 0, 1, 2]
  const ZeroWeightRank: seq<nat> := [0, 1, 2, 3]

  /** The largest node id in the edge list. */
  lemma ZeroWeightMax()
    ensures MaxNode(ZeroWeightEdges) == 3
  {
    assert ZeroWeightEdges[2].to == 3;
    MaxNodeIs(ZeroWeightEdges, 3);
  }

  /** The edge list of node 0, computed from the two halves of the edges. */
  lemma ZeroWeightOutgoing0()
    ensures Outgoing(ZeroWeightEdges, 0) == ZeroWeightGraph[0]
  {
    OutgoingAppend(ZeroWeightEdgesFirst, ZeroWeightEdgesSecond, 0);
    assert Outgoing(ZeroWeightEdgesFirst, 0) == [Edge(1, 0)] by {
      var E := [EdgeTuple(0, 1, 0), EdgeTuple(1, 2, 0)];
      assert ZeroWeightEdgesFirst == E;
      assert Outgoing(E, 0) == [Edge(1, 0)];
    }
    assert Outgoing(ZeroWeightEdgesSecond, 0) == [Edge(3, 5)] by {
      var E := [EdgeTuple(2, 3, 1), EdgeTuple(0, 3, 5)];
      assert ZeroWeightEdgesSecond == E;
      assert Outgoing(E, 0) == [Edge(3, 5)];
    }
  }

  /** The edge list of node 1, computed from the two halves of the edges. */
  lemma ZeroWeightOutgoing1()
    ensures Outgoing(ZeroWeightEdges, 1) == ZeroWeightGraph[1]
  {
    OutgoingAppend(ZeroWeightEdgesFirst, ZeroWeightEdgesSecond, 1);
    assert Outgoing(ZeroWeightEdgesFirst, 1) == [Edge(2, 0)] by {
      var E := [EdgeTuple(0, 1, 0), EdgeTuple(1, 2, 0)];
      assert ZeroWeightEdgesFirst == E;
      assert Outgoing(E, 1) == [Edge(2, 0)];
    }
    assert Outgoing(ZeroWeightEdgesSecond, 1) == [] by {
      var E := [EdgeTuple(2, 3, 1), EdgeTuple(0, 3, 5)];
      assert ZeroWeightEdgesSecond == E;
      assert Outgoing(E, 1) == [];
    }
  }

  /** The edge list of node 2, computed from the two halves of the edges. */
  lemma ZeroWeightOutgoing2()
    ensures Outgoing(ZeroWeightEdges, 2) == ZeroWeightGraph[2]
  {
    OutgoingAppend(ZeroWeightEdgesFirst, ZeroWeightEdgesSecond, 2);
    assert Outgoing(ZeroWeightEdgesFirst, 2) == [] by {
      var E := [EdgeTuple(0, 1, 0), EdgeTuple(1, 2, 0)];
      assert ZeroWeightEdgesFirst == E;
      assert Outgoing(E, 2) == [];
    }
    assert Outgoing(ZeroWeightEdgesSecond, 2) == [Edge(3, 1)] by {
      var E := [EdgeTuple(2, 3, 1), EdgeTuple(0, 3, 5)];
      assert ZeroWeightEdgesSecond == E;
      assert Outgoing(E, 2) == [Edge(3, 1)];
    }
  }

  /** The edge list of node 3, computed from the two halves of the edges. */
  lemma ZeroWeightOutgoing3()
    ensures Outgoing(ZeroWeightEdges, 3) == ZeroWeightGraph[3]
  {
    OutgoingAppend(ZeroWeightEdgesFirst, ZeroWeightEdgesSecond, 3);
    assert Outgoing(ZeroWeightEdgesFirst, 3) == [] by {
      var E := [EdgeTuple(0, 1, 0), EdgeTuple(1, 2, 0)];
      assert ZeroWeightEdgesFirst == E;
      assert Outgoing(E, 3) == [];
    }
    assert Outgoing(ZeroWeightEdgesSecond, 3) == [] by {
      var E := [EdgeTuple(2, 3, 1), EdgeTuple(0, 3, 5)];
      assert ZeroWeightEdgesSecond == E;
      assert Outgoing(E, 3) == [];
    }
  }

  /** The largest node id and the list of every node, computed from the edges. */
  lemma ZeroWeightLists()
    ensures MaxNode(ZeroWeightEdges) == 3
    ensures forall u :: 0 <= u < 4 ==> Outgoing(ZeroWeightEdges, u) == ZeroWeightGraph[u]
  {
    ZeroWeightMax();
    ZeroWeightOutgoing0();
    ZeroWeightOutgoing1();
    ZeroWeightOutgoing2();
    ZeroWeightOutgoing3();
    forall u | 0 <= u < 4 ensures Outgoing(ZeroWeightEdges, u) == ZeroWeightGraph[u] {
      assert u == 0 || u == 1 || u == 2 || u == 3;
    }
  }

  /** `CreateGraph` on the test's edge list builds exactly this adjacency list. */
  lemma ZeroWeightBuilt(g: Graph)
    requires GraphOf(ZeroWeightEdges, g)
    ensures g == ZeroWeightGraph
  {
    ZeroWeightLists();
  }

  /** The expected distances form a potential with a tight tree. */
  lemma ZeroWeightCertificate()
    ensures IsPotential(ZeroWeightGraph, 0, ZeroWeightDist)
    ensures TightTree(ZeroWeightGraph, 0, ZeroWeightDist, ZeroWeightParent, ZeroWeightRank)
  {
    var g: Graph, pot: seq<Dist> := ZeroWeightGraph, ZeroWeightDist;
    forall u, j | 0 <= u < |g| && 0 <= j < |g[u]| && g[u][j].to < |g| && pot[u].Finite?
      ensures AtMost(pot[g[u][j].to], Plus(pot[u], g[u][j].weight))
    {
      assert u == 0 || u == 1 || u == 2 || u == 3;
    }
    assert g[0][0].to == 1 && g[1][0].to == 2 && g[2][0].to == 3;
  }

  /** Every answer for this graph has the expected distances. */
  lemma ZeroWeightDistances(D: seq<Dist>, P: seq<Option<nat>>)
    requires SolvesShortestPaths(ZeroWeightGraph, 0, D, P)
    ensures D == ZeroWeightDist
  {
    ZeroWeightCertificate();
    CertifiedDistances(ZeroWeightGraph, 0, D, P, ZeroWeightDist, ZeroWeightParent, ZeroWeightRank);
  }

  /** On the path's nodes, the only edge that realises the expected distance is the tree's. */
  lemma ZeroWeightChain(P: seq<Option<nat>>)
    requires |P| == 4 && P[0] == None
    requires forall v :: 1 <= v < 4 ==> P[v].Some? && PredecessorEdge(ZeroWeightGraph, ZeroWeightDist, v, P[v].value)
    ensures IsPredecessorChain(P, [0, 1, 2, 3])
  {
    var g: Graph, D: seq<Dist> := ZeroWeightGraph, ZeroWeightDist;
    forall v | v in {1, 2, 3} ensures P[v] == Some(ZeroWeightParent[v]) {
      var u := P[v].value;
      var j :| 0 <= j < |g[u]| && g[u][j].to == v && D[v].d == D[u].d + g[u][j].weight;
      assert u == 0 || u == 1 || u == 2 || u == 3;
    }
  }

  /** The path to node 3 read off any answer is the expected one. */
  lemma ZeroWeightPath(D: seq<Dist>, P: seq<Option<nat>>, path: seq<nat>)
    requires SolvesShortestPaths(ZeroWeightGraph, 0, D, P)
    requires IsPredecessorChain(P, path) && path[|path| - 1] == 3
    ensures path == [0, 1, 2, 3]
  {
    ZeroWeightDistances(D, P);
    ZeroWeightChain(P);
    ChainUnique(P, path, [0, 1, 2, 3]);
  }

  /** The test's steps: build the graph, solve from node 0, read off the path to node 3. */
  method ZeroWeightScenario() returns (distances: seq<Dist>, path: seq<nat>)
    ensures distances == ZeroWeightDist && path == [0, 1, 2, 3]
  {
    var graph := CreateGraph(ZeroWeightEdges);
    ZeroWeightBuilt(graph);
    var previous;
    distances, previous := Dijkstra(graph, 0);
    ZeroWeightDistances(distances, previous);
    path := GetShortestPath(previous, 3);
    ZeroWeightPath(distances, previous, path);
  }

  // Large weights

  /** The test's edge list, written in two halves. */
  const LargeWeightEdges: seq<EdgeTuple> := LargeWeightEdgesFirst + LargeWeightEdgesSecond
  const LargeWeightEdgesFirst: seq<EdgeTuple> :=
    [EdgeTuple(0, 1, 1000), EdgeTuple(0, 2, 100)]
  const LargeWeightEdgesSecond: seq<EdgeTuple> :=
    [EdgeTuple(1, 3, 50), EdgeTuple(2, 3, 800), EdgeTuple(2, 1, 50)]
  const LargeWeightGraph: Graph :=
    [[Edge(1, 1000), Edge(2, 100)], [Edge(3, 50)], [Edge(3, 800), Edge(1, 50)], []]
  const LargeWeightDist: seq<Dist> := [Finite(0), Finite(150), Finite(100), Finite(200)]
  const LargeWeightParent: seq<nat> := [0, 2, 0, 1]
  const LargeWeightRank: seq<nat> := [0, 2, 1, 3]

  /** The largest node id in the edge list. */
  lemma LargeWeightMax()
    ensures MaxNode(LargeWeightEdges) == 3
  {
    assert LargeWeightEdges[2].to == 3;
    MaxNodeIs(LargeWeightEdges, 3);
  }

  /** The edge list of node 0, computed from the two halves of the edges. */
  lemma LargeWeightOutgoing0()
    ensures Outgoing(LargeWeightEdges, 0) == LargeWeightGraph[0]
  {
    OutgoingAppend(LargeWeightEdgesFirst, LargeWeightEdgesSecond, 0);
    assert Outgoing(LargeWeightEdgesFirst, 0) == [Edge(1, 1000), Edge(2, 100)] by {
      var E := [EdgeTuple(0, 1, 1000), EdgeTuple(0, 2, 100)];
      assert LargeWeightEdgesFirst == E;
      assert Outgoing(E, 0) == [Edge(1, 1000), Edge(2, 100)];
    }
    assert Outgoing(LargeWeightEdgesSecond, 0) == [] by {
      var E := [EdgeTuple(1, 3, 50), EdgeTuple(2, 3, 800), EdgeTuple(2, 1, 50)];
      assert LargeWeightEdgesSecond == E;
      assert Outgoing(E, 0) == [];
    }
  }

  /** The edge list of node 1, computed from the two halves of the edges. */
  lemma LargeWeightOutgoing1()
    ensures Outgoing(LargeWeightEdges, 1) == LargeWeightGraph[1]
  {
    OutgoingAppend(LargeWeightEdgesFirst, LargeWeightEdgesSecond, 1);
    assert Outgoing(LargeWeightEdgesFirst, 1) == [] by {
      var E := [EdgeTuple(0, 1, 1000), EdgeTuple(0, 2, 100)];
      assert LargeWeightEdgesFirst == E;
      assert Outgoing(E, 1) == [];
    }
    assert Outgoing(LargeWeightEdgesSecond, 1) == [Edge(3, 50)] by {
      var E := [EdgeTuple(1, 3, 50), EdgeTuple(2, 3, 800), EdgeTuple(2, 1, 50)];
      assert LargeWeightEdgesSecond == E;
      assert Outgoing(E, 1) == [Edge(3, 50)];
    }
  }

  /** The edge list of node 2, computed from the two halves of the edges. */
  lemma LargeWeightOutgoing2()
    ensures Outgoing(LargeWeightEdges, 2) == LargeWeightGraph[2]
  {
    OutgoingAppend(LargeWeightEdgesFirst, LargeWeightEdgesSecond, 2);
    assert Outgoing(LargeWeightEdgesFirst, 2) == [] by {
      var E := [EdgeTuple(0, 1, 1000), EdgeTuple(0, 2, 100)];
      assert LargeWeightEdgesFirst == E;
      assert Outgoing(E, 2) == [];
    }
    assert Outgoing(LargeWeightEdgesSecond, 2) == [Edge(3, 800), Edge(1, 50)] by {
      var E := [EdgeTuple(1, 3, 50), EdgeTuple(2, 3, 800), EdgeTuple(2, 1, 50)];
      assert LargeWeightEdgesSecond == E;
      assert Outgoing(E, 2) == [Edge(3, 800), Edge(1, 50)];
    }
  }

  /** The edge list of node 3, computed from the two halves of the edges. */
  lemma LargeWeightOutgoing3()
    ensures Outgoing(LargeWeightEdges, 3) == LargeWeightGraph[3]
  {
    OutgoingAppend(LargeWeightEdgesFirst, LargeWeightEdgesSecond, 3);
    assert Outgoing(LargeWeightEdgesFirst, 3) == [] by {
      var E := [EdgeTuple(0, 1, 1000), EdgeTuple(0, 2, 100)];
      assert LargeWeightEdgesFirst == E;
      assert Outgoing(E, 3) == [];
    }
    assert Outgoing(LargeWeightEdgesSecond, 3) == [] by {
      var E := [EdgeTuple(1, 3, 50), EdgeTuple(2, 3, 800), EdgeTuple(2, 1, 50)];
      assert LargeWeightEdgesSecond == E;
      assert Outgoing(E, 3) == [];
    }
  }

  /** The largest node id and the list of every node, computed from the edges. */
  lemma LargeWeightLists()
    ensures MaxNode(LargeWeightEdges) == 3
    ensures forall u :: 0 <= u < 4 ==> Outgoing(LargeWeightEdges, u) == LargeWeightGraph[u]
  {
    LargeWeightMax();
    LargeWeightOutgoing0();
    LargeWeightOutgoing1();
    LargeWeightOutgoing2();
    LargeWeightOutgoing3();
    forall u | 0 <= u < 4 ensures Outgoing(LargeWeightEdges, u) == LargeWeightGraph[u] {
      assert u == 0 || u == 1 || u == 2 || u == 3;
    }
  }

  /** `CreateGraph` on the test's edge list builds exactly this adjacency list. */
  lemma LargeWeightBuilt(g: Graph)
    requires GraphOf(LargeWeightEdges, g)
    ensures g == LargeWeightGraph
  {
    LargeWeightLists();
  }

  /** The expected distances form a potential with a tight tree. */
  lemma LargeWeightCertificate()
    ensures IsPotential(LargeWeightGraph, 0, LargeWeightDist)
    ensures TightTree(LargeWeightGraph, 0, LargeWeightDist, LargeWeightParent, LargeWeightRank)
  {
    var g: Graph, pot: seq<Dist> := LargeWeightGraph, LargeWeightDist;
    forall u, j | 0 <= u < |g| && 0 <= j < |g[u]| && g[u][j].to < |g| && pot[u].Finite?
      ensures AtMost(pot[g[u][j].to], Plus(pot[u], g[u][j].weight))
    {
      assert u == 0 || u == 1 || u == 2 || u == 3;
    }
    assert g[2][1].to == 1 && g[0][1].to == 2 && g[1][0].to == 3;
  }

  /** Every answer for this graph has the expected distances. */
  lemma LargeWeightDistances(D: seq<Dist>, P: seq<Option<nat>>)
    requires SolvesShortestPaths(LargeWeightGraph, 0, D, P)
    ensures D == LargeWeightDist
  {
    LargeWeightCertificate();
    CertifiedDistances(LargeWeightGraph, 0, D, P, LargeWeightDist, LargeWeightParent, LargeWeightRank);
  }

  /** On the path's nodes, the only edge that realises the expected distance is the tree's. */
  lemma LargeWeightChain(P: seq<Option<nat>>)
    requires |P| == 4 && P[0] == None
    requires forall v :: 1 <= v < 4 ==> P[v].Some? && PredecessorEdge(LargeWeightGraph, LargeWeightDist, v, P[v].value)
    ensures IsPredecessorChain(P, [0, 2, 1, 3])
  {
    var g: Graph, D: seq<Dist> := LargeWeightGraph, LargeWeightDist;
    forall v | v in {2, 1, 3} ensures P[v] == Some(LargeWeightParent[v]) {
      var u := P[v].value;
      var j :| 0 <= j < |g[u]| && g[u][j].to == v && D[v].d == D[u].d + g[u][j].weight;
      assert u == 0 || u == 1 || u == 2 || u == 3;
    }
  }

  /** The path to node 3 read off any answer is the expected one. */
  lemma LargeWeightPath(D: seq<Dist>, P: seq<Option<nat>>, path: seq<nat>)
    requires SolvesShortestPaths(LargeWeightGraph, 0, D, P)
    requires IsPredecessorChain(P, path) && path[|path| - 1] == 3
    ensures path == [0, 2, 1, 3]
  {
    LargeWeightDistances(D, P);
    LargeWeightChain(P);
    ChainUnique(P, path, [0, 2, 1, 3]);
  }

  /** The test's steps: build the graph, solve from node 0, read off the path to node 3. */
  method LargeWeightScenario() returns (distances: seq<Dist>, path: seq<nat>)
    ensures distances == LargeWeightDist && path == [0, 2, 1, 3]
  {
    var graph := CreateGraph(LargeWeightEdges);
    LargeWeightBuilt(graph);
    var previous;
    distances, previous := Dijkstra(graph, 0);
    LargeWeightDistances(distances, previous);
    path := GetShortestPath(previous, 3);
    LargeWeightPath(distances, previous, path);
  }

  // Self-loops

  /** The test's edge list, written in two halves. */
  const SelfLoopEdges: seq<EdgeTuple> := SelfLoopEdgesFirst + SelfLoopEdgesSecond
  const SelfLoopEdgesFirst: seq<EdgeTuple> :=
    [EdgeTuple(0, 0, 1), EdgeTuple(0, 1, 3)]
  const SelfLoopEdgesSecond: seq<EdgeTuple> :=
    [EdgeTuple(1, 1, 2), EdgeTuple(1, 2, 1)]
  const SelfLoopGraph: Graph :=
    [[Edge(0, 1), Edge(1, 3)], [Edge(1, 2), Edge(2, 1)], []]
  const SelfLoopDist: seq<Dist> := [Finite(0), Finite(3), Finite(4)]
  const SelfLoopParent: seq<nat> := [0, 0, 1]
  const SelfLoopRank: seq<nat> := [0, 1, 2]

  /** The largest node id in the edge list. */
  lemma SelfLoopMax()
    ensures MaxNode(SelfLoopEdges) == 2
  {
    assert SelfLoopEdges[3].to == 2;
    MaxNodeIs(SelfLoopEdges, 2);
  }

  /** The edge list of node 0, computed from the two halves of the edges. */
  lemma SelfLoopOutgoing0()
    ensures Outgoing(SelfLoopEdges, 0) == SelfLoopGraph[0]
  {
    OutgoingAppend(SelfLoopEdgesFirst, SelfLoopEdgesSecond, 0);
    assert Outgoing(SelfLoopEdgesFirst, 0) == [Edge(0, 1), Edge(1, 3)] by {
      var E := [EdgeTuple(0, 0, 1), EdgeTuple(0, 1, 3)];
      assert SelfLoopEdgesFirst == E;
      assert Outgoing(E, 0) == [Edge(0, 1), Edge(1, 3)];
    }
    assert Outgoing(SelfLoopEdgesSecond, 0) == [] by {
      var E := [EdgeTuple(1, 1, 2), EdgeTuple(1, 2, 1)];
      assert SelfLoopEdgesSecond == E;
      assert Outgoing(E, 0) == [];
    }
  }

  /** The edge list of node 1, computed from the two halves of the edges. */
  lemma SelfLoopOutgoing1()
    ensures Outgoing(SelfLoopEdges, 1) == SelfLoopGraph[1]
  {
    OutgoingAppend(SelfLoopEdgesFirst, SelfLoopEdgesSecond, 1);
    assert Outgoing(SelfLoopEdgesFirst, 1) == [] by {
      var E := [EdgeTuple(0, 0, 1), EdgeTuple(0, 1, 3)];
      assert SelfLoopEdgesFirst == E;
      assert Outgoing(E, 1) == [];
    }
    assert Outgoing(SelfLoopEdgesSecond, 1) == [Edge(1, 2), Edge(2, 1)] by {
      var E := [EdgeTuple(1, 1, 2), EdgeTuple(1, 2, 1)];
      assert SelfLoopEdgesSecond == E;
      assert Outgoing(E, 1) == [Edge(1, 2), Edge(2, 1)];
    }
  }

  /** The edge list of node 2, computed from the two halves of the edges. */
  lemma SelfLoopOutgoing2()
    ensures Outgoing(SelfLoopEdges, 2) == SelfLoopGraph[2]
  {
    OutgoingAppend(SelfLoopEdgesFirst, SelfLoopEdgesSecond, 2);
    assert Outgoing(SelfLoopEdgesFirst, 2) == [] by {
      var E := [EdgeTuple(0, 0, 1), EdgeTuple(0, 1, 3)];
      assert SelfLoopEdgesFirst == E;
      assert Outgoing(E, 2) == [];
    }
    assert Outgoing(SelfLoopEdgesSecond, 2) == [] by {
      var E := [EdgeTuple(1, 1, 2), EdgeTuple(1, 2, 1)];
      assert SelfLoopEdgesSecond == E;
      assert Outgoing(E, 2) == [];
    }
  }

  /** The largest node id and the list of every node, computed from the edges. */
  lemma SelfLoopLists()
    ensures MaxNode(SelfLoopEdges) == 2
    ensures forall u :: 0 <= u < 3 ==> Outgoing(SelfLoopEdges, u) == SelfLoopGraph[u]
  {
    SelfLoopMax();
    SelfLoopOutgoing0();
    SelfLoopOutgoing1();
    SelfLoopOutgoing2();
    forall u | 0 <= u < 3 ensures Outgoing(SelfLoopEdges, u) == SelfLoopGraph[u] {
      assert u == 0 || u == 1 || u == 2;
    }
  }

  /** `CreateGraph` on the test's edge list builds exactly this adjacency list. */
  lemma SelfLoopBuilt(g: Graph)
    requires GraphOf(SelfLoopEdges, g)
    ensures g == SelfLoopGraph
  {
    SelfLoopLists();
  }

  /** The expected distances form a potential with a tight tree. */
  lemma SelfLoopCertificate()
    ensures IsPotential(SelfLoopGraph, 0, SelfLoopDist)
    ensures TightTree(SelfLoopGraph, 0, SelfLoopDist, SelfLoopParent, SelfLoopRank)
  {
    var g: Graph, pot: seq<Dist> := SelfLoopGraph, SelfLoopDist;
    forall u, j | 0 <= u < |g| && 0 <= j < |g[u]| && g[u][j].to < |g| && pot[u].Finite?
      ensures AtMost(pot[g[u][j].to], Plus(pot[u], g[u][j].weight))
    {
      assert u == 0 || u == 1 || u == 2;
    }
    assert g[0][1].to == 1 && g[1][1].to == 2;
  }

  /** Every answer for this graph has the expected distances. */
  lemma SelfLoopDistances(D: seq<Dist>, P: seq<Option<nat>>)
    requires SolvesShortestPaths(SelfLoopGraph, 0, D, P)
    ensures D == SelfLoopDist
  {
    SelfLoopCertificate();
    CertifiedDistances(SelfLoopGraph, 0, D, P, SelfLoopDist, SelfLoopParent, SelfLoopRank);
  }

  /** On the path's nodes, the only edge that realises the expected distance is the tree's. */
  lemma SelfLoopChain(P: seq<Option<nat>>)
    requires |P| == 3 && P[0] == None
    requires forall v :: 1 <= v < 3 ==> P[v].Some? && PredecessorEdge(SelfLoopGraph, SelfLoopDist, v, P[v].value)
    ensures IsPredecessorChain(P, [0, 1, 2])
  {
    var g: Graph, D: seq<Dist> := SelfLoopGraph, SelfLoopDist;
    forall v | v in {1, 2} ensures P[v] == Some(SelfLoopParent[v]) {
      var u := P[v].value;
      var j :| 0 <= j < |g[u]| && g[u][j].to == v && D[v].d == D[u].d + g[u][j].weight;
      assert u == 0 || u == 1 || u == 2;
    }
  }

  /** The path to node 2 read off any answer is the expected one. */
  lemma SelfLoopPath(D: seq<Dist>, P: seq<Option<nat>>, path: seq<nat>)
    requires SolvesShortestPaths(SelfLoopGraph, 0, D, P)
    requires IsPredecessorChain(P, path) && path[|path| - 1] == 2
    ensures path == [0, 1, 2]
  {
    SelfLoopDistances(D, P);
    SelfLoopChain(P);
    ChainUnique(P, path, [0, 1, 2]);
  }

  /** The test's steps: build the graph, solve from node 0, read off the path to node 2. */
  method SelfLoopScenario() returns (distances: seq<Dist>, path: seq<nat>)
    ensures distances == SelfLoopDist && path == [0, 1, 2]
  {
    var graph := CreateGraph(SelfLoopEdges);
    SelfLoopBuilt(graph);
    var previous;
    distances, previous := Dijkstra(graph, 0);
    SelfLoopDistances(distances, previous);
    path := GetShortestPath(previous, 2);
    SelfLoopPath(distances, previous, path);
  }
}
