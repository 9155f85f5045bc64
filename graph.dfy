/**
 * The weighted directed graph of the shortest-path engine: the edge list a
 * caller supplies, the adjacency list built from it, and walks through it.
 */
module Graphs {

  /** An outgoing edge as stored in an adjacency list. */
  datatype Edge = Edge(to: nat, weight: nat)

  /** An input edge `(from, to, weight)`. */
  datatype EdgeTuple = EdgeTuple(from: nat, to: nat, weight: nat)

  /** `graph[u]` lists the edges leaving node `u`. */
  type Graph = seq<seq<Edge>>

  /** The larger of the two endpoints of an edge. */
  function Endpoint(e: EdgeTuple): nat {
    if e.from < e.to then e.to else e.from
  }

  /** The largest node id named by any edge (the spread `Math.max` over all endpoints). */
  function MaxNode(edges: seq<EdgeTuple>): (m: nat)
    requires |edges| > 0
    ensures forall k :: 0 <= k < |edges| ==> edges[k].from <= m && edges[k].to <= m
    ensures exists k :: 0 <= k < |edges| && (edges[k].from == m || edges[k].to == m)
  {
    if |edges| == 1 then Endpoint(edges[0])
    else
      var rest := MaxNode(edges[1..]);
      assert forall k :: 1 <= k < |edges| ==> edges[k] == edges[1..][k - 1];
      if Endpoint(edges[0]) < rest then rest else Endpoint(edges[0])
  }

  /** `m` bounds every endpoint and is one of them, so it is the largest node id. */
  lemma MaxNodeIs(edges: seq<EdgeTuple>, m: nat)
    requires |edges| > 0
    requires forall k :: 0 <= k < |edges| ==> edges[k].from <= m && edges[k].to <= m
    requires exists k :: 0 <= k < |edges| && (edges[k].from == m || edges[k].to == m)
    ensures MaxNode(edges) == m
  {
  }

  /** The `(to, weight)` entries of the edges leaving `u`, in input order. */
  function Outgoing(edges: seq<EdgeTuple>, u: nat): seq<Edge> {
    if edges == [] then []
    else (if edges[0].from == u then [Edge(edges[0].to, edges[0].weight)] else []) + Outgoing(edges[1..], u)
  }

  /** The adjacency list built from `edges`: one list per node up to the largest id. */
  ghost predicate GraphOf(edges: seq<EdgeTuple>, graph: Graph)
    requires |edges| > 0
  {
    && |graph| == MaxNode(edges) + 1
    && forall u :: 0 <= u < |graph| ==> graph[u] == Outgoing(edges, u)
  }

  /** Builds the adjacency list: `MaxNode(edges) + 1` empty lists, then each
      edge appended to the list of its source, in input order. */
  method CreateGraph(edges: seq<EdgeTuple>) returns (graph: Graph)
    requires |edges| > 0
    ensures GraphOf(edges, graph)
  {
    var maxNode := MaxNode(edges);
    graph := seq(maxNode + 1, _ => []);
    for i := 0 to |edges|
      invariant |graph| == maxNode + 1
      invariant forall u :: 0 <= u < |graph| ==> graph[u] == Outgoing(edges[..i], u)
    {
      var e := edges[i];
      assert edges[..i + 1] == edges[..i] + [e];
      forall u | 0 <= u < |graph| ensures Outgoing(edges[..i + 1], u) == Outgoing(edges[..i], u) + Outgoing([e], u) {
        OutgoingAppend(edges[..i], [e], u);
      }
      assert forall u :: Outgoing([e], u) == if e.from == u then [Edge(e.to, e.weight)] else [] by {
        assert [e][1..] == [];
      }
      graph := graph[e.from := graph[e.from] + [Edge(e.to, e.weight)]];
    }
    assert edges[..|edges|] == edges;
  }

  /** Building from a concatenation appends the two lists: input order is kept. */
  lemma {:induction false} OutgoingAppend(a: seq<EdgeTuple>, b: seq<EdgeTuple>, u: nat)
    ensures Outgoing(a + b, u) == Outgoing(a, u) + Outgoing(b, u)
    decreases |a|
  {
    if a == [] {
      assert a + b == b;
    } else {
      var head := if a[0].from == u then [Edge(a[0].to, a[0].weight)] else [];
      assert (a + b)[0] == a[0] && (a + b)[1..] == a[1..] + b;
      assert Outgoing(a + b, u) == head + Outgoing(a[1..] + b, u);
      assert Outgoing(a, u) == head + Outgoing(a[1..], u);
      OutgoingAppend(a[1..], b, u);
    }
  }

  /** Nothing is merged or dropped: each `(to, weight)` entry of `u`'s list occurs
      exactly as often as the edge `(u, to, weight)` occurs in the input. */
  lemma {:induction false} OutgoingCount(edges: seq<EdgeTuple>, u: nat, to: nat, weight: nat)
    ensures multiset(Outgoing(edges, u))[Edge(to, weight)] == multiset(edges)[EdgeTuple(u, to, weight)]
  {
    if edges != [] {
      assert edges == [edges[0]] + edges[1..];
      OutgoingCount(edges[1..], u, to, weight);
    }
  }

  /** Every edge of a list built by `CreateGraph` has its target inside the graph. */
  lemma CreateGraphTargetsInRange(edges: seq<EdgeTuple>, graph: Graph)
    requires |edges| > 0 && GraphOf(edges, graph)
    ensures forall u, j :: 0 <= u < |graph| && 0 <= j < |graph[u]| ==> graph[u][j].to < |graph|
  {
    forall u, j | 0 <= u < |graph| && 0 <= j < |graph[u]|
      ensures graph[u][j].to < |graph|
    {
      var e := graph[u][j];
      OutgoingCount(edges, u, e.to, e.weight);
      assert e in multiset(Outgoing(edges, u));
      assert EdgeTuple(u, e.to, e.weight) in multiset(edges);
    }
  }

  // Walks

  /** `e` is an edge of `graph` whose endpoints are both nodes of `graph`. */
  ghost predicate IsStep(graph: Graph, e: EdgeTuple) {
    e.from < |graph| && e.to < |graph| && Edge(e.to, e.weight) in graph[e.from]
  }

  /** `p` is a walk of consecutive edges of `graph` from `s` to `t`; the empty walk goes from `s` to `s`. */
  ghost predicate IsWalk(graph: Graph, s: nat, t: nat, p: seq<EdgeTuple>)
    decreases |p|
  {
    if p == [] then s == t
    else
      var e := p[|p| - 1];
      IsStep(graph, e) && e.to == t && IsWalk(graph, s, e.from, p[..|p| - 1])
  }

  /** The total weight of a walk. */
  function Weight(p: seq<EdgeTuple>): nat {
    if p == [] then 0 else Weight(p[..|p| - 1]) + p[|p| - 1].weight
  }

  /** There is a walk from `s` to `t`. */
  ghost predicate Reachable(graph: Graph, s: nat, t: nat) {
    exists p :: IsWalk(graph, s, t, p)
  }

  /** `d` is the least total weight of any walk from `s` to `t`, and some walk has it. */
  ghost predicate IsShortestDistance(graph: Graph, s: nat, t: nat, d: nat) {
    && (exists p :: IsWalk(graph, s, t, p) && Weight(p) == d)
    && (forall p :: IsWalk(graph, s, t, p) ==> d <= Weight(p))
  }

  /** Extending a walk by one step. */
  lemma WalkExtend(graph: Graph, s: nat, p: seq<EdgeTuple>, e: EdgeTuple)
    requires IsWalk(graph, s, e.from, p) && IsStep(graph, e)
    ensures IsWalk(graph, s, e.to, p + [e]) && Weight(p + [e]) == Weight(p) + e.weight
  {
    assert (p + [e])[..|p|] == p;
  }
}
