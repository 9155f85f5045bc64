/**
 * Dijkstra's single-source shortest-path algorithm with lazy deletion of
 * stale queue entries, and the reconstruction of a path from the
 * predecessor links it returns.
 */
module ShortestPaths {
  import opened Wrappers
  import opened Graphs
  import opened PriorityQueues

  /** A distance estimate: a finite total weight, or unreachable (`Infinity`). */
  datatype Dist = Finite(d: nat) | Infinity

  /** `a + w` with `Infinity + w == Infinity`. */
  function Plus(a: Dist, w: nat): (r: Dist)
    ensures r.Finite? <==> a.Finite?
    ensures r.Finite? ==> r.d == a.d + w
    ensures AtMost(a, r)
  {
    match a
    case Finite(d) => Finite(d + w)
    case Infinity => Infinity
  }

  /** `a < b`, where every finite distance is below `Infinity` and `Infinity` is below nothing. */
  predicate Less(a: Dist, b: Dist) {
    match a
    case Finite(x) => (match b case Finite(y) => x < y case Infinity => true)
    case Infinity => false
  }

  /** `a <= b`. */
  predicate AtMost(a: Dist, b: Dist) {
    !Less(b, a)
  }

  /** `Less` is a strict total order with `Infinity` above every finite
      distance, and `AtMost` is the order it induces. */
  lemma DistOrder(a: Dist, b: Dist, c: Dist)
    ensures !Less(a, a)
    ensures Less(a, b) && Less(b, c) ==> Less(a, c)
    ensures a != b ==> Less(a, b) || Less(b, a)
    ensures Less(a, Infinity) <==> a.Finite?
    ensures !Less(Infinity, a)
    ensures AtMost(a, b) <==> a == b || Less(a, b)
  {
  }

  // What the solver computes

  /** `u` is a node whose distance plus the weight of one of its edges to `v` is `v`'s distance. */
  ghost predicate PredecessorEdge(graph: Graph, dist: seq<Dist>, v: nat, u: nat)
    requires |dist| == |graph| && v < |graph|
  {
    && u < |graph|
    && dist[u].Finite? && dist[v].Finite?
    && exists j :: 0 <= j < |graph[u]| && graph[u][j].to == v && dist[v].d == dist[u].d + graph[u][j].weight
  }

  /** The predecessor links are ranked: every link goes to a node of smaller rank. */
  ghost predicate RankedLinks(prev: seq<Option<nat>>, rank: seq<nat>) {
    && |rank| == |prev|
    && forall v :: 0 <= v < |prev| && prev[v].Some? ==> prev[v].value < |prev| && rank[prev[v].value] < rank[v]
  }

  /** Following predecessor links always ends: the links form a forest. */
  ghost predicate PredecessorsAcyclic(prev: seq<Option<nat>>) {
    exists rank :: RankedLinks(prev, rank)
  }

  /** `dist` and `prev` are a correct answer for `graph` and source `s`. */
  ghost predicate SolvesShortestPaths(graph: Graph, s: nat, dist: seq<Dist>, prev: seq<Option<nat>>) {
    && |dist| == |graph| && |prev| == |graph| && s < |graph|
    && dist[s] == Finite(0) && prev[s] == None
    // a node has a finite distance exactly when some walk reaches it
    && (forall v :: 0 <= v < |graph| ==> (dist[v].Finite? <==> Reachable(graph, s, v)))
    // a finite distance is the least weight of a walk
    && (forall v :: 0 <= v < |graph| && dist[v].Finite? ==> IsShortestDistance(graph, s, v, dist[v].d))
    // unreachable nodes keep no predecessor
    && (forall v :: 0 <= v < |graph| && dist[v].Infinity? ==> prev[v] == None)
    // every other reached node is entered by an edge that realises its distance
    && (forall v :: 0 <= v < |graph| && v != s && dist[v].Finite? ==>
          prev[v].Some? && PredecessorEdge(graph, dist, v, prev[v].value))
    && PredecessorsAcyclic(prev)
  }

  // Lower bounds on walks

  /** `pot` starts at 0 in `s` and no edge out of a finite node can lower it. */
  ghost predicate IsPotential(graph: Graph, s: nat, pot: seq<Dist>) {
    && |pot| == |graph| && s < |graph| && pot[s] == Finite(0)
    && forall u, j :: 0 <= u < |graph| && 0 <= j < |graph[u]| && graph[u][j].to < |graph| && pot[u].Finite? ==>
         AtMost(pot[graph[u][j].to], Plus(pot[u], graph[u][j].weight))
  }

  /** A potential is a finite lower bound on the weight of every walk from `s`. */
  lemma {:induction false} PotentialBoundsWalks(graph: Graph, s: nat, pot: seq<Dist>, t: nat, p: seq<EdgeTuple>)
    requires IsPotential(graph, s, pot) && IsWalk(graph, s, t, p)
    ensures t < |graph| && AtMost(pot[t], Finite(Weight(p)))
    decreases |p|
  {
    if p != [] {
      var e := p[|p| - 1];
      PotentialBoundsWalks(graph, s, pot, e.from, p[..|p| - 1]);
      var j :| 0 <= j < |graph[e.from]| && graph[e.from][j] == Edge(e.to, e.weight);
    }
  }

  /** Every finite distance is the weight of some walk from the source. */
  ghost predicate Witnessed(graph: Graph, s: nat, dist: seq<Dist>) {
    forall v :: 0 <= v < |dist| && dist[v].Finite? ==> exists p :: IsWalk(graph, s, v, p) && Weight(p) == dist[v].d
  }

  /** A potential whose every finite value is the weight of some walk is the
      distance vector of every answer: the distances are determined by the graph. */
  lemma {:induction false} DistancesDetermined(graph: Graph, s: nat, dist: seq<Dist>, prev: seq<Option<nat>>, pot: seq<Dist>)
    requires SolvesShortestPaths(graph, s, dist, prev)
    requires IsPotential(graph, s, pot)
    requires |pot| == |graph| && Witnessed(graph, s, pot)
    ensures dist == pot
  {
    forall v | 0 <= v < |graph| ensures dist[v] == pot[v] {
      if pot[v].Finite? {
        var p :| IsWalk(graph, s, v, p) && Weight(p) == pot[v].d;
        assert Reachable(graph, s, v);
        assert IsShortestDistance(graph, s, v, dist[v].d);
        var q :| IsWalk(graph, s, v, q) && Weight(q) == dist[v].d;
        PotentialBoundsWalks(graph, s, pot, v, q);
      } else if dist[v].Finite? {
        assert Reachable(graph, s, v);
        var q :| IsWalk(graph, s, v, q);
        PotentialBoundsWalks(graph, s, pot, v, q);
      }
    }
  }

  /** The distances of an answer form a potential. */
  lemma {:induction false} SolutionIsPotential(graph: Graph, s: nat, dist: seq<Dist>, prev: seq<Option<nat>>)
    requires SolvesShortestPaths(graph, s, dist, prev)
    ensures IsPotential(graph, s, dist)
  {
    forall u, j | 0 <= u < |graph| && 0 <= j < |graph[u]| && graph[u][j].to < |graph| && dist[u].Finite?
      ensures AtMost(dist[graph[u][j].to], Plus(dist[u], graph[u][j].weight))
    {
      var e := EdgeTuple(u, graph[u][j].to, graph[u][j].weight);
      assert IsShortestDistance(graph, s, u, dist[u].d);
      var p :| IsWalk(graph, s, u, p) && Weight(p) == dist[u].d;
      WalkExtend(graph, s, p, e);
      assert Reachable(graph, s, e.to);
      assert IsShortestDistance(graph, s, e.to, dist[e.to].d);
    }
  }

  /** The distances of an answer are a potential, and every potential is a
      lower bound on them. */
  lemma {:induction false} SolutionBetweenPotentials(graph: Graph, s: nat, dist: seq<Dist>, prev: seq<Option<nat>>, pot: seq<Dist>)
    requires SolvesShortestPaths(graph, s, dist, prev) && IsPotential(graph, s, pot)
    ensures IsPotential(graph, s, dist)
    ensures forall v :: 0 <= v < |graph| ==> AtMost(pot[v], dist[v])
  {
    SolutionIsPotential(graph, s, dist, prev);
    forall v | 0 <= v < |graph| && dist[v].Finite? ensures AtMost(pot[v], dist[v]) {
      assert IsShortestDistance(graph, s, v, dist[v].d);
      var p :| IsWalk(graph, s, v, p) && Weight(p) == dist[v].d;
      PotentialBoundsWalks(graph, s, pot, v, p);
    }
  }

  /** One edge of a potential: its target is at most its source plus the weight. */
  lemma {:induction false} PotentialAtEdge(graph: Graph, s: nat, pot: seq<Dist>, u: nat, j: nat)
    requires IsPotential(graph, s, pot) && u < |graph| && j < |graph[u]| && graph[u][j].to < |graph|
    ensures AtMost(pot[graph[u][j].to], Plus(pot[u], graph[u][j].weight))
  {
  }

  /** `parent` gives every finite node of `pot` other than `s` an edge that realises
      its value, and `rank` shows that following parents ends. */
  ghost predicate TightTree(graph: Graph, s: nat, pot: seq<Dist>, parent: seq<nat>, rank: seq<nat>) {
    && |pot| == |graph| && |parent| == |graph| && |rank| == |graph|
    && forall v :: 0 <= v < |graph| && v != s && pot[v].Finite? ==>
         PredecessorEdge(graph, pot, v, parent[v]) && rank[parent[v]] < rank[v]
  }

  /** Every potential is at most any value that a tight tree realises. */
  lemma {:induction false} TreeBoundsPotential(graph: Graph, s: nat, dist: seq<Dist>, pot: seq<Dist>, parent: seq<nat>, rank: seq<nat>, v: nat)
    requires IsPotential(graph, s, dist) && TightTree(graph, s, pot, parent, rank)
    requires v < |graph| && pot[v].Finite?
    ensures AtMost(dist[v], pot[v])
    decreases rank[v]
  {
    if v != s {
      var u := parent[v];
      var j :| 0 <= j < |graph[u]| && graph[u][j].to == v && pot[v].d == pot[u].d + graph[u][j].weight;
      TreeBoundsPotential(graph, s, dist, pot, parent, rank, u);
      PotentialAtEdge(graph, s, dist, u, j);
    }
  }

  /** A potential with a tight tree is a certificate: it is the distance vector of
      every answer. */
  lemma {:induction false} CertifiedDistances(graph: Graph, s: nat, dist: seq<Dist>, prev: seq<Option<nat>>,
                                              pot: seq<Dist>, parent: seq<nat>, rank: seq<nat>)
    requires SolvesShortestPaths(graph, s, dist, prev)
    requires IsPotential(graph, s, pot) && TightTree(graph, s, pot, parent, rank)
    ensures dist == pot
  {
    SolutionBetweenPotentials(graph, s, dist, prev, pot);
    forall v | 0 <= v < |graph| ensures dist[v] == pot[v] {
      if pot[v].Finite? {
        TreeBoundsPotential(graph, s, dist, pot, parent, rank, v);
      }
    }
  }

  /** Any two answers for the same graph and source have the same distances. */
  lemma {:induction false} DistancesUnique(graph: Graph, s: nat, dist: seq<Dist>, prev: seq<Option<nat>>, dist': seq<Dist>, prev': seq<Option<nat>>)
    requires SolvesShortestPaths(graph, s, dist, prev)
    requires SolvesShortestPaths(graph, s, dist', prev')
    ensures dist == dist'
  {
    SolutionIsPotential(graph, s, dist', prev');
    forall v | 0 <= v < |graph| && dist'[v].Finite?
      ensures exists p :: IsWalk(graph, s, v, p) && Weight(p) == dist'[v].d
    {
      assert IsShortestDistance(graph, s, v, dist'[v].d);
    }
    DistancesDetermined(graph, s, dist, prev, dist');
  }

  // Self-loops

  /** `graph` with one more edge, from `u` back to itself, at the end of `u`'s list. */
  function AddSelfLoop(graph: Graph, u: nat, w: nat): Graph
    requires u < |graph|
  {
    graph[u := graph[u] + [Edge(u, w)]]
  }

  /** Every walk of `graph` is still a walk once a self-loop is added. */
  lemma {:induction false} WalkWithSelfLoop(graph: Graph, u: nat, w: nat, s: nat, t: nat, p: seq<EdgeTuple>)
    requires u < |graph| && IsWalk(graph, s, t, p)
    ensures IsWalk(AddSelfLoop(graph, u, w), s, t, p)
    decreases |p|
  {
    if p != [] {
      var e := p[|p| - 1];
      WalkWithSelfLoop(graph, u, w, s, e.from, p[..|p| - 1]);
      assert Edge(e.to, e.weight) in AddSelfLoop(graph, u, w)[e.from];
    }
  }

  /** A self-loop, of any weight, changes no distance: an answer for the graph
      without it has the distances of every answer for the graph with it. */
  lemma {:induction false} SelfLoopsIrrelevant(graph: Graph, s: nat, u: nat, w: nat, dist: seq<Dist>, prev: seq<Option<nat>>,
                                               dist': seq<Dist>, prev': seq<Option<nat>>)
    requires u < |graph|
    requires SolvesShortestPaths(graph, s, dist, prev)
    requires SolvesShortestPaths(AddSelfLoop(graph, u, w), s, dist', prev')
    ensures dist' == dist
  {
    var looped: Graph := AddSelfLoop(graph, u, w);
    SolutionIsPotential(graph, s, dist, prev);
    forall x, j | 0 <= x < |looped| && 0 <= j < |looped[x]| && looped[x][j].to < |looped| && dist[x].Finite?
      ensures AtMost(dist[looped[x][j].to], Plus(dist[x], looped[x][j].weight))
    {
      if x != u || j < |graph[u]| {
        assert looped[x][j] == graph[x][j];
        PotentialAtEdge(graph, s, dist, x, j);
      }
    }
    forall v | 0 <= v < |dist| && dist[v].Finite?
      ensures exists p :: IsWalk(looped, s, v, p) && Weight(p) == dist[v].d
    {
      assert IsShortestDistance(graph, s, v, dist[v].d);
      var p :| IsWalk(graph, s, v, p) && Weight(p) == dist[v].d;
      WalkWithSelfLoop(graph, u, w, s, v, p);
    }
    DistancesDetermined(looped, s, dist', prev', dist);
  }

  // The loop invariant of the solver, in named parts

  ghost predicate Sizes(graph: Graph, dist: seq<Dist>, prev: seq<Option<nat>>, visited: seq<bool>, rank: seq<nat>, settled: seq<Dist>) {
    |dist| == |graph| && |prev| == |graph| && |visited| == |graph| && |rank| == |graph| && |settled| == |graph|
  }

  /** Every queued entry names a node whose distance is at most the entry's priority. */
  ghost predicate QueueSound(dist: seq<Dist>, heap: seq<Entry>) {
    forall e :: e in heap ==> e.node < |dist| && AtMost(dist[e.node], Finite(e.distance))
  }

  /** Every reached, unvisited node is queued at its current distance. */
  ghost predicate FrontierQueued(dist: seq<Dist>, visited: seq<bool>, heap: seq<Entry>)
    requires |visited| == |dist|
  {
    forall v :: 0 <= v < |dist| && !visited[v] && dist[v].Finite? ==> Entry(v, dist[v].d) in heap
  }

  /** No visited node is farther than any queued entry. */
  ghost predicate VisitedBelowQueue(dist: seq<Dist>, visited: seq<bool>, heap: seq<Entry>)
    requires |visited| == |dist|
  {
    forall u, e :: 0 <= u < |dist| && visited[u] && e in heap ==> AtMost(dist[u], Finite(e.distance))
  }

  /** Every edge out of a visited node has been relaxed, except the edges of
      node `x` from index `i` on (`x` is -1 between nodes). */
  ghost predicate Relaxed(graph: Graph, dist: seq<Dist>, visited: seq<bool>, x: int, i: int)
    requires |dist| == |graph| && |visited| == |graph|
  {
    forall u, j :: 0 <= u < |graph| && visited[u] && 0 <= j < |graph[u]| && (u == x ==> j < i) && graph[u][j].to < |graph| ==>
      AtMost(dist[graph[u][j].to], Plus(dist[u], graph[u][j].weight))
  }

  /** Every predecessor link goes to a visited node along an edge that realises the
      distance, and to a node visited earlier when both ends are visited. */
  ghost predicate LinksSettled(graph: Graph, s: nat, dist: seq<Dist>, prev: seq<Option<nat>>, visited: seq<bool>, rank: seq<nat>)
    requires Sizes(graph, dist, prev, visited, rank, dist)
  {
    forall v :: 0 <= v < |graph| && prev[v].Some? ==>
      && v != s
      && PredecessorEdge(graph, dist, v, prev[v].value)
      && visited[prev[v].value]
      && (visited[v] ==> rank[prev[v].value] < rank[v])
  }

  ghost predicate Inv(graph: Graph, s: nat, dist: seq<Dist>, prev: seq<Option<nat>>, visited: seq<bool>, heap: seq<Entry>,
                      rank: seq<nat>, time: nat, settled: seq<Dist>, x: int, i: int)
  {
    && Sizes(graph, dist, prev, visited, rank, settled)
    && s < |graph| && dist[s] == Finite(0) && prev[s] == None
    && (forall u :: 0 <= u < |graph| && visited[u] ==> dist[u].Finite? && rank[u] < time)
    // a visited node's distance never changes again
    && (forall u :: 0 <= u < |graph| && visited[u] ==> dist[u] == settled[u])
    && QueueSound(dist, heap)
    && FrontierQueued(dist, visited, heap)
    && VisitedBelowQueue(dist, visited, heap)
    && Relaxed(graph, dist, visited, x, i)
    && LinksSettled(graph, s, dist, prev, visited, rank)
    && (forall v :: 0 <= v < |graph| && v != s && dist[v].Finite? ==> prev[v].Some?)
    && Witnessed(graph, s, dist)
  }

  /** While the edges of `x` are relaxed: `x` is visited and no visited node is farther. */
  ghost predicate Current(graph: Graph, dist: seq<Dist>, visited: seq<bool>, x: int)
    requires |dist| == |graph| && |visited| == |graph|
  {
    0 <= x < |graph| && visited[x] && dist[x].Finite? &&
    forall u :: 0 <= u < |graph| && visited[u] ==> AtMost(dist[u], dist[x])
  }

  /** Removing one occurrence of `e` keeps every other entry. */
  lemma {:induction false} QueueRemove(heap: seq<Entry>, heap': seq<Entry>, e: Entry)
    requires multiset(heap') == multiset(heap) - multiset{e}
    ensures forall f :: f in heap' ==> f in heap
    ensures forall f :: f in heap && f != e ==> f in heap'
  {
    forall f | f in heap' ensures f in heap {
      assert f in multiset(heap');
    }
    forall f | f in heap && f != e ensures f in heap' {
      assert multiset(heap')[f] == multiset(heap)[f] > 0;
    }
  }

  /** Adding one occurrence of `e` keeps every entry and adds `e`. */
  lemma {:induction false} QueueAdd(heap: seq<Entry>, heap': seq<Entry>, e: Entry)
    requires multiset(heap') == multiset(heap) + multiset{e}
    ensures forall f :: f in heap' <==> f in heap || f == e
  {
    forall f ensures f in heap' <==> f in heap || f == e {
      assert f in heap' <==> f in multiset(heap');
      assert f in heap <==> f in multiset(heap);
    }
  }

  ghost function Unvisited(visited: seq<bool>): set<nat> {
    set v: nat | v < |visited| && !visited[v]
  }

  lemma {:induction false} VisitShrinks(visited: seq<bool>, x: nat)
    requires x < |visited| && !visited[x]
    ensures Unvisited(visited[x := true]) < Unvisited(visited)
  {
    assert x in Unvisited(visited) && x !in Unvisited(visited[x := true]);
  }

  lemma {:induction false} InitialInv(graph: Graph, s: nat, dist: seq<Dist>, prev: seq<Option<nat>>, visited: seq<bool>, heap: seq<Entry>,
                   rank: seq<nat>, settled: seq<Dist>)
    requires s < |graph|
    requires dist == seq(|graph|, _ => Infinity)[s := Finite(0)]
    requires prev == seq(|graph|, _ => None) && visited == seq(|graph|, _ => false)
    requires rank == seq(|graph|, _ => 0) && settled == seq(|graph|, _ => Infinity)
    requires multiset(heap) == multiset{Entry(s, 0)}
    ensures Inv(graph, s, dist, prev, visited, heap, rank, 0, settled, -1, 0)
  {
    assert Entry(s, 0) in multiset(heap);
    forall e | e in heap ensures e == Entry(s, 0) {
      assert e in multiset(heap);
    }
    assert IsWalk(graph, s, s, []);
  }

  /** Popping an entry of an already visited node changes nothing else. */
  lemma {:induction false} PopStale(graph: Graph, s: nat, dist: seq<Dist>, prev: seq<Option<nat>>, visited: seq<bool>, heap: seq<Entry>,
                 heap': seq<Entry>, rank: seq<nat>, time: nat, settled: seq<Dist>, e: Entry)
    requires Inv(graph, s, dist, prev, visited, heap, rank, time, settled, -1, 0)
    requires e in heap && e.node < |visited| && visited[e.node]
    requires multiset(heap') == multiset(heap) - multiset{e}
    ensures Inv(graph, s, dist, prev, visited, heap', rank, time, settled, -1, 0)
  {
    QueueRemove(heap, heap', e);
    assert QueueSound(dist, heap');
    assert FrontierQueued(dist, visited, heap');
    assert VisitedBelowQueue(dist, visited, heap');
  }

  /** The queue facts survive popping a minimal entry `e` of unvisited `x` and
      marking `x` visited; the entry carries the distance of `x`, and no
      visited node is farther. */
  lemma {:induction false} PopQueue(dist: seq<Dist>, visited: seq<bool>, heap: seq<Entry>, heap': seq<Entry>, e: Entry)
    requires |visited| == |dist| && e.node < |dist| && !visited[e.node]
    requires QueueSound(dist, heap) && FrontierQueued(dist, visited, heap) && VisitedBelowQueue(dist, visited, heap)
    requires e in heap && (forall f :: f in heap ==> e.distance <= f.distance)
    requires multiset(heap') == multiset(heap) - multiset{e}
    ensures dist[e.node] == Finite(e.distance)
    ensures forall u :: 0 <= u < |dist| && visited[u] ==> AtMost(dist[u], dist[e.node])
    ensures QueueSound(dist, heap')
    ensures FrontierQueued(dist, visited[e.node := true], heap')
    ensures VisitedBelowQueue(dist, visited[e.node := true], heap')
  {
    var x := e.node;
    QueueRemove(heap, heap', e);
    assert dist[x].Finite?;
    assert Entry(x, dist[x].d) in heap;
  }

  /** The links stay settled when unvisited `x` is visited at the next time step. */
  lemma {:induction false} PopLinks(graph: Graph, s: nat, dist: seq<Dist>, prev: seq<Option<nat>>, visited: seq<bool>,
                   rank: seq<nat>, time: nat, x: nat)
    requires Sizes(graph, dist, prev, visited, rank, dist) && x < |graph| && !visited[x]
    requires forall u :: 0 <= u < |graph| && visited[u] ==> rank[u] < time
    requires LinksSettled(graph, s, dist, prev, visited, rank)
    ensures LinksSettled(graph, s, dist, prev, visited[x := true], rank[x := time])
  {
  }

  /** Popping a minimal entry of an unvisited node `x` and marking it visited. */
  lemma {:induction false} PopFresh(graph: Graph, s: nat, dist: seq<Dist>, prev: seq<Option<nat>>, visited: seq<bool>, heap: seq<Entry>,
                 heap': seq<Entry>, rank: seq<nat>, time: nat, settled: seq<Dist>, e: Entry)
    requires Inv(graph, s, dist, prev, visited, heap, rank, time, settled, -1, 0)
    requires e in heap && (forall f :: f in heap ==> e.distance <= f.distance)
    requires e.node < |visited| && !visited[e.node]
    requires multiset(heap') == multiset(heap) - multiset{e}
    ensures var x := e.node;
      && Inv(graph, s, dist, prev, visited[x := true], heap', rank[x := time], time + 1, settled[x := dist[x]], x, 0)
      && Current(graph, dist, visited[x := true], x)
  {
    var x := e.node;
    var visited', rank', settled' := visited[x := true], rank[x := time], settled[x := dist[x]];
    PopQueue(dist, visited, heap, heap', e);
    PopLinks(graph, s, dist, prev, visited, rank, time, x);
    assert Sizes(graph, dist, prev, visited', rank', settled');
    assert forall u :: 0 <= u < |graph| && visited'[u] ==> dist[u].Finite? && rank'[u] < time + 1;
    assert forall u :: 0 <= u < |graph| && visited'[u] ==> dist[u] == settled'[u];
    assert Relaxed(graph, dist, visited', x, 0);
    assert Current(graph, dist, visited', x);
  }

  /** The queue facts survive lowering the distance of unvisited `v` to `nd`
      and queueing `(v, nd)`, when no visited node is farther than `nd`. */
  lemma {:induction false} RelaxQueue(dist: seq<Dist>, visited: seq<bool>, heap: seq<Entry>, heap': seq<Entry>, v: nat, nd: nat)
    requires |visited| == |dist| && v < |dist| && !visited[v] && Less(Finite(nd), dist[v])
    requires QueueSound(dist, heap) && FrontierQueued(dist, visited, heap) && VisitedBelowQueue(dist, visited, heap)
    requires forall u :: 0 <= u < |dist| && visited[u] ==> AtMost(dist[u], Finite(nd))
    requires multiset(heap') == multiset(heap) + multiset{Entry(v, nd)}
    ensures var dist' := dist[v := Finite(nd)];
      QueueSound(dist', heap') && FrontierQueued(dist', visited, heap') && VisitedBelowQueue(dist', visited, heap')
  {
    QueueAdd(heap, heap', Entry(v, nd));
  }

  /** Lowering the distance of the target of edge `i` of `x` to `x`'s distance
      plus the edge's weight keeps the relaxed edges relaxed and adds that edge. */
  lemma {:induction false} RelaxKeepsRelaxed(graph: Graph, dist: seq<Dist>, visited: seq<bool>, x: nat, i: nat)
    requires |dist| == |graph| && |visited| == |graph|
    requires x < |graph| && visited[x] && i < |graph[x]| && graph[x][i].to < |graph|
    requires !visited[graph[x][i].to]
    requires Less(Plus(dist[x], graph[x][i].weight), dist[graph[x][i].to])
    requires Relaxed(graph, dist, visited, x, i)
    ensures Relaxed(graph, dist[graph[x][i].to := Plus(dist[x], graph[x][i].weight)], visited, x, i + 1)
  {
  }

  /** Linking unvisited `v` to the visited `x` through edge `i` of `x`. */
  lemma {:induction false} RelaxLinks(graph: Graph, s: nat, dist: seq<Dist>, prev: seq<Option<nat>>, visited: seq<bool>, rank: seq<nat>, x: nat, i: nat)
    requires Sizes(graph, dist, prev, visited, rank, dist)
    requires x < |graph| && visited[x] && dist[x].Finite? && i < |graph[x]| && graph[x][i].to < |graph|
    requires !visited[graph[x][i].to] && graph[x][i].to != s
    requires LinksSettled(graph, s, dist, prev, visited, rank)
    ensures var v := graph[x][i].to;
      LinksSettled(graph, s, dist[v := Plus(dist[x], graph[x][i].weight)], prev[v := Some(x)], visited, rank)
  {
    var v := graph[x][i].to;
    var dist', prev' := dist[v := Plus(dist[x], graph[x][i].weight)], prev[v := Some(x)];
    forall t | 0 <= t < |graph| && prev'[t].Some?
      ensures PredecessorEdge(graph, dist', t, prev'[t].value)
    {
      if t == v {
        assert graph[x][i].to == t;
      } else {
        var u := prev[t].value;
        assert PredecessorEdge(graph, dist, t, u);
        var j :| 0 <= j < |graph[u]| && graph[u][j].to == t && dist[t].d == dist[u].d + graph[u][j].weight;
        assert dist'[u] == dist[u] && dist'[t] == dist[t];
      }
    }
  }

  /** A walk to `x` followed by edge `i` of `x` witnesses the new distance of its target. */
  lemma {:induction false} RelaxWitness(graph: Graph, s: nat, dist: seq<Dist>, x: nat, i: nat)
    requires |dist| == |graph| && x < |graph| && dist[x].Finite? && i < |graph[x]| && graph[x][i].to < |graph|
    requires Witnessed(graph, s, dist)
    ensures Witnessed(graph, s, dist[graph[x][i].to := Plus(dist[x], graph[x][i].weight)])
  {
    var e := EdgeTuple(x, graph[x][i].to, graph[x][i].weight);
    var px :| IsWalk(graph, s, x, px) && Weight(px) == dist[x].d;
    assert IsStep(graph, e);
    WalkExtend(graph, s, px, e);
  }

  /** The bookkeeping parts of the invariant survive giving unvisited `v` other
      than the source a finite distance and a predecessor. */
  lemma {:induction false} RelaxBasics(graph: Graph, s: nat, dist: seq<Dist>, prev: seq<Option<nat>>, visited: seq<bool>,
                    rank: seq<nat>, time: nat, settled: seq<Dist>, v: nat, nd: Dist, x: nat)
    requires Sizes(graph, dist, prev, visited, rank, settled) && v < |graph| && !visited[v] && v != s && nd.Finite?
    requires s < |graph| && dist[s] == Finite(0) && prev[s] == None
    requires forall u :: 0 <= u < |graph| && visited[u] ==> dist[u].Finite? && rank[u] < time
    requires forall u :: 0 <= u < |graph| && visited[u] ==> dist[u] == settled[u]
    requires forall u :: 0 <= u < |graph| && u != s && dist[u].Finite? ==> prev[u].Some?
    ensures var dist', prev' := dist[v := nd], prev[v := Some(x)];
      && Sizes(graph, dist', prev', visited, rank, settled)
      && dist'[s] == Finite(0) && prev'[s] == None
      && (forall u :: 0 <= u < |graph| && visited[u] ==> dist'[u].Finite? && rank[u] < time)
      && (forall u :: 0 <= u < |graph| && visited[u] ==> dist'[u] == settled[u])
      && (forall u :: 0 <= u < |graph| && u != s && dist'[u].Finite? ==> prev'[u].Some?)
  {
  }

  /** Relaxing edge `i` of `x` when it strictly improves the distance of its target. */
  lemma {:induction false} RelaxImproves(graph: Graph, s: nat, dist: seq<Dist>, prev: seq<Option<nat>>, visited: seq<bool>, heap: seq<Entry>,
                      heap': seq<Entry>, rank: seq<nat>, time: nat, settled: seq<Dist>, x: nat, i: nat)
    requires Inv(graph, s, dist, prev, visited, heap, rank, time, settled, x, i)
    requires Current(graph, dist, visited, x) && i < |graph[x]|
    requires graph[x][i].to < |graph| && Less(Plus(dist[x], graph[x][i].weight), dist[graph[x][i].to])
    requires multiset(heap') == multiset(heap) + multiset{Entry(graph[x][i].to, Plus(dist[x], graph[x][i].weight).d)}
    ensures var v, nd := graph[x][i].to, Plus(dist[x], graph[x][i].weight);
      && Inv(graph, s, dist[v := nd], prev[v := Some(x)], visited, heap', rank, time, settled, x, i + 1)
      && Current(graph, dist[v := nd], visited, x)
  {
    var v, w := graph[x][i].to, graph[x][i].weight;
    var nd := Plus(dist[x], w);
    assert !visited[v] && v != s && v != x;
    assert nd == Finite(dist[x].d + w);
    forall u | 0 <= u < |dist| && visited[u] ensures AtMost(dist[u], Finite(nd.d)) {
      assert AtMost(dist[u], dist[x]);
    }
    RelaxQueue(dist, visited, heap, heap', graph[x][i].to, Plus(dist[x], graph[x][i].weight).d);
    RelaxKeepsRelaxed(graph, dist, visited, x, i);
    RelaxLinks(graph, s, dist, prev, visited, rank, x, i);
    RelaxWitness(graph, s, dist, x, i);
    RelaxBasics(graph, s, dist, prev, visited, rank, time, settled, v, nd, x);
    var dist', prev' := dist[v := nd], prev[v := Some(x)];
    assert QueueSound(dist', heap');
    assert FrontierQueued(dist', visited, heap');
    assert VisitedBelowQueue(dist', visited, heap');
    assert Relaxed(graph, dist', visited, x, i + 1);
    assert LinksSettled(graph, s, dist', prev', visited, rank);
    assert Witnessed(graph, s, dist');
  }

  /** Edge `i` of `x` does not improve its target (or leaves the graph). */
  lemma {:induction false} RelaxSkips(graph: Graph, s: nat, dist: seq<Dist>, prev: seq<Option<nat>>, visited: seq<bool>, heap: seq<Entry>,
                   rank: seq<nat>, time: nat, settled: seq<Dist>, x: nat, i: nat)
    requires Inv(graph, s, dist, prev, visited, heap, rank, time, settled, x, i)
    requires Current(graph, dist, visited, x) && i < |graph[x]|
    requires !(graph[x][i].to < |graph| && Less(Plus(dist[x], graph[x][i].weight), dist[graph[x][i].to]))
    ensures Inv(graph, s, dist, prev, visited, heap, rank, time, settled, x, i + 1)
  {
  }

  /** Once every edge of `x` is relaxed, `x` is like every other visited node. */
  lemma {:induction false} FinishNode(graph: Graph, s: nat, dist: seq<Dist>, prev: seq<Option<nat>>, visited: seq<bool>, heap: seq<Entry>,
                                      rank: seq<nat>, time: nat, settled: seq<Dist>, x: nat)
    requires x < |graph| && Inv(graph, s, dist, prev, visited, heap, rank, time, settled, x, |graph[x]|)
    ensures Inv(graph, s, dist, prev, visited, heap, rank, time, settled, -1, 0)
  {
    assert Relaxed(graph, dist, visited, -1, 0);
  }

  /** When the queue runs empty the invariant yields a correct answer. */
  lemma {:induction false} InvAtExit(graph: Graph, s: nat, dist: seq<Dist>, prev: seq<Option<nat>>, visited: seq<bool>,
                  rank: seq<nat>, time: nat, settled: seq<Dist>)
    requires Inv(graph, s, dist, prev, visited, [], rank, time, settled, -1, 0)
    ensures SolvesShortestPaths(graph, s, dist, prev)
  {
    assert IsPotential(graph, s, dist);
    forall v | 0 <= v < |graph|
      ensures dist[v].Finite? <==> Reachable(graph, s, v)
      ensures dist[v].Finite? ==> IsShortestDistance(graph, s, v, dist[v].d)
    {
      if Reachable(graph, s, v) {
        var p :| IsWalk(graph, s, v, p);
        PotentialBoundsWalks(graph, s, dist, v, p);
      }
      if dist[v].Finite? {
        forall p | IsWalk(graph, s, v, p) ensures dist[v].d <= Weight(p) {
          PotentialBoundsWalks(graph, s, dist, v, p);
        }
      }
    }
    assert RankedLinks(prev, rank);
  }

  /** The solver: distances start at `Infinity` except the source's 0; each
      popped node not yet visited is marked visited and its edges are relaxed
      on strict improvement, queueing the improved target again. */
  method Dijkstra(graph: Graph, start: nat) returns (distances: seq<Dist>, previous: seq<Option<nat>>)
    requires start < |graph|
    ensures SolvesShortestPaths(graph, start, distances, previous)
  {
    var n := |graph|;
    var dist: seq<Dist> := seq(n, _ => Infinity);
    var prev: seq<Option<nat>> := seq(n, _ => None);
    var visited: seq<bool> := seq(n, _ => false);
    var pq := new PriorityQueue();

    dist := dist[start := Finite(0)];
    pq.Enqueue(start, 0);

    ghost var rank: seq<nat> := seq(n, _ => 0);
    ghost var time: nat := 0;
    ghost var settled: seq<Dist> := seq(n, _ => Infinity);
    InitialInv(graph, start, dist, prev, visited, pq.heap, rank, settled);

    while !pq.IsEmpty()
      invariant pq.Valid()
      invariant Inv(graph, start, dist, prev, visited, pq.heap, rank, time, settled, -1, 0)
      decreases Unvisited(visited), |pq.heap|
    {
      ghost var heap := pq.heap;
      var current := pq.Dequeue();
      var node := current.value.node;

      if visited[node] {
        PopStale(graph, start, dist, prev, visited, heap, pq.heap, rank, time, settled, current.value);
        continue;
      }
      PopFresh(graph, start, dist, prev, visited, heap, pq.heap, rank, time, settled, current.value);
      VisitShrinks(visited, node);
      visited := visited[node := true];
      rank, time, settled := rank[node := time], time + 1, settled[node := dist[node]];

      var edges := graph[node];
      for i := 0 to |edges|
        invariant pq.Valid()
        invariant Inv(graph, start, dist, prev, visited, pq.heap, rank, time, settled, node, i)
        invariant Current(graph, dist, visited, node)
      {
        var neighbor := edges[i].to;
        var weight := edges[i].weight;
        var newDistance := Plus(dist[node], weight);

        if neighbor < n && Less(newDistance, dist[neighbor]) {
          ghost var heap0 := pq.heap;
          pq.Enqueue(neighbor, newDistance.d);
          RelaxImproves(graph, start, dist, prev, visited, heap0, pq.heap, rank, time, settled, node, i);
          dist := dist[neighbor := newDistance];
          prev := prev[neighbor := Some(node)];
        } else {
          RelaxSkips(graph, start, dist, prev, visited, pq.heap, rank, time, settled, node, i);
        }
      }
      FinishNode(graph, start, dist, prev, visited, pq.heap, rank, time, settled, node);
    }
    InvAtExit(graph, start, dist, prev, visited, rank, time, settled);
    distances, previous := dist, prev;
  }

  // Reading a path off the predecessor links

  /** Consecutive nodes of `path` are joined by predecessor links, and all are nodes. */
  ghost predicate ChainLinks(prev: seq<Option<nat>>, path: seq<nat>) {
    && (forall k :: 0 <= k < |path| ==> path[k] < |prev|)
    && (forall k :: 0 <= k < |path| - 1 ==> prev[path[k + 1]] == Some(path[k]))
  }

  /** `path` follows the predecessor links all the way back to a node without one. */
  ghost predicate IsPredecessorChain(prev: seq<Option<nat>>, path: seq<nat>) {
    |path| > 0 && ChainLinks(prev, path) && prev[path[0]] == None
  }

  /** Collects the target and its predecessors, nearest last, until a node has none. */
  method GetShortestPath(previous: seq<Option<nat>>, target: nat) returns (path: seq<nat>)
    requires target < |previous| && PredecessorsAcyclic(previous)
    ensures IsPredecessorChain(previous, path) && path[|path| - 1] == target
    ensures previous[target] == None ==> path == [target]
  {
    ghost var rank :| RankedLinks(previous, rank);
    path := [];
    var current: Option<nat> := Some(target);
    while current.Some?
      invariant current.Some? ==> current.value < |previous|
      invariant path == [] ==> current == Some(target)
      invariant path != [] ==> ChainLinks(previous, path) && path[|path| - 1] == target && previous[path[0]] == current
      decreases if current.Some? then rank[current.value] + 1 else 0
    {
      path := [current.value] + path;
      current := previous[current.value];
    }
    if previous[target] == None {
      ChainUnique(previous, path, [target]);
    }
  }

  /** A chain is longer than one node exactly when its last node has a predecessor,
      and then dropping the last node leaves a chain ending at that predecessor. */
  lemma {:induction false} ChainPrefix(prev: seq<Option<nat>>, c: seq<nat>)
    requires IsPredecessorChain(prev, c)
    ensures |c| > 1 <==> prev[c[|c| - 1]].Some?
    ensures |c| > 1 ==> prev[c[|c| - 1]] == Some(c[|c| - 2]) && IsPredecessorChain(prev, c[..|c| - 1])
  {
    if |c| > 1 {
      assert prev[c[|c| - 1]] == Some(c[|c| - 2]);
      var c' := c[..|c| - 1];
      forall k | 0 <= k < |c'| - 1 ensures prev[c'[k + 1]] == Some(c'[k]) {
        assert prev[c[k + 1]] == Some(c[k]);
      }
    }
  }

  /** Two chains back from the same node are the same chain. */
  lemma {:induction false} ChainUnique(prev: seq<Option<nat>>, p: seq<nat>, q: seq<nat>)
    requires IsPredecessorChain(prev, p) && IsPredecessorChain(prev, q)
    requires p[|p| - 1] == q[|q| - 1]
    ensures p == q
    decreases |p|
  {
    ChainPrefix(prev, p);
    ChainPrefix(prev, q);
    if |p| > 1 {
      var p', q' := p[..|p| - 1], q[..|q| - 1];
      ChainUnique(prev, p', q');
      assert p == p' + [p[|p| - 1]] && q == q' + [q[|q| - 1]];
    }
  }

  /** The nodes a walk from `s` passes through, `s` first. */
  ghost function WalkNodes(s: nat, p: seq<EdgeTuple>): (nodes: seq<nat>)
    ensures |nodes| == |p| + 1 && nodes[0] == s
    ensures p != [] ==> nodes[|p|] == p[|p| - 1].to
    decreases |p|
  {
    if p == [] then [s] else WalkNodes(s, p[..|p| - 1]) + [p[|p| - 1].to]
  }

  /** Following a predecessor edge from `u` to `t` extends a walk to `u` by one step
      that adds the difference of their distances. */
  lemma {:induction false} FollowPredecessorEdge(graph: Graph, s: nat, dist: seq<Dist>, t: nat, u: nat, p: seq<EdgeTuple>)
    requires |dist| == |graph| && t < |graph| && PredecessorEdge(graph, dist, t, u)
    requires IsWalk(graph, s, u, p) && Weight(p) == dist[u].d
    ensures exists p' :: IsWalk(graph, s, t, p') && Weight(p') == dist[t].d && WalkNodes(s, p') == WalkNodes(s, p) + [t]
  {
    var j :| 0 <= j < |graph[u]| && graph[u][j].to == t && dist[t].d == dist[u].d + graph[u][j].weight;
    var e := EdgeTuple(u, t, graph[u][j].weight);
    assert graph[u][j] == Edge(e.to, e.weight);
    assert IsStep(graph, e);
    WalkExtend(graph, s, p, e);
    assert (p + [e])[..|p|] == p;
  }

  /** On a correct answer, the chain back from a reached node starts at the source
      and lists the nodes of a shortest walk to it. */
  lemma {:induction false} ChainIsShortestWalk(graph: Graph, s: nat, dist: seq<Dist>, prev: seq<Option<nat>>, path: seq<nat>)
    requires SolvesShortestPaths(graph, s, dist, prev)
    requires IsPredecessorChain(prev, path) && dist[path[|path| - 1]].Finite?
    ensures path[0] == s
    ensures exists p :: IsWalk(graph, s, path[|path| - 1], p) && Weight(p) == dist[path[|path| - 1]].d && WalkNodes(s, p) == path
    decreases |path|
  {
    var t := path[|path| - 1];
    if |path| == 1 {
      assert prev[t] == None;
      assert t == s;
      assert IsWalk(graph, s, t, []) && WalkNodes(s, []) == path;
    } else {
      var u := path[|path| - 2];
      ChainPrefix(prev, path);
      assert PredecessorEdge(graph, dist, t, u);
      var path' := path[..|path| - 1];
      ChainIsShortestWalk(graph, s, dist, prev, path');
      var p :| IsWalk(graph, s, u, p) && Weight(p) == dist[u].d && WalkNodes(s, p) == path';
      FollowPredecessorEdge(graph, s, dist, t, u, p);
      assert path == path' + [t];
    }
  }
}
