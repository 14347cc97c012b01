/** Dijkstra's algorithm with lazy deletion: stale queue entries stay and are skipped when popped. */
module Dijkstra {
  import opened Walks
  import BellmanFord

  type Distances = map<Node, Dist>

  /** A queue entry: a tentative distance and the node it was found for. */
  datatype Entry = Entry(dist: real, node: Node)

  type Queue = multiset<Entry>

  ghost predicate IsLeast(e: Entry, pq: Queue) {
    e in pq && forall x :: x in pq ==> e.dist <= x.dist
  }

  lemma {:induction false} LeastExists(pq: Queue) returns (e: Entry)
    requires |pq| > 0
    ensures IsLeast(e, pq)
    decreases |pq|
  {
    var x :| x in pq;
    var rest := pq - multiset{x};
    if |rest| == 0 {
      e := x;
      forall y | y in pq ensures x.dist <= y.dist {
        assert y == x || y in rest;
      }
    } else {
      var m := LeastExists(rest);
      e := if x.dist <= m.dist then x else m;
      forall y | y in pq ensures e.dist <= y.dist {
        assert y == x || y in rest;
      }
    }
  }

  /** heapq.heappop: some entry of least distance; ties are broken in any way at all. */
  method PopLeast(pq: Queue) returns (e: Entry, rest: Queue)
    requires |pq| > 0
    ensures IsLeast(e, pq) && rest == pq - multiset{e}
  {
    ghost var witness_ := LeastExists(pq);
    e :| e in pq && forall x :: x in pq ==> e.dist <= x.dist;
    rest := pq - multiset{e};
  }

  /** What the queue, the entries and the visited nodes keep, whatever the weights. */
  ghost predicate Consistent(g: Graph, s: Node, dist: Distances, pq: Queue, visited: set<Node>) {
    && g.adj.Keys + {s} <= dist.Keys <= g.Nodes() + {s}
    && visited <= dist.Keys
    && BellmanFord.Witnessed(g, s, dist)
    && dist[s].AtMost(Fin(0.0))
    && (forall e :: e in pq ==>
          && e.node in dist && dist[e.node].AtMost(Fin(e.dist))
          && HasWalk(g, s, e.node, e.dist))
    && forall v :: v in dist && dist[v].Fin? && v !in visited ==> Entry(dist[v].d, v) in pq
  }

  /** Edges out of a visited node have been used: the entry of their end is no larger. */
  ghost predicate EdgesUsed(g: Graph, dist: Distances, v: Node, k: nat) {
    && v in dist && dist[v].Fin?
    && (v in g.adj ==> forall j :: 0 <= j < k && j < |g.adj[v]| ==>
          && g.adj[v][j].to in dist
          && dist[g.adj[v][j].to].AtMost(dist[v].Plus(g.adj[v][j].weight)))
  }

  /** What holds besides when no weight is negative: visited nodes are final. */
  ghost predicate Final(g: Graph, dist: Distances, pq: Queue, visited: set<Node>, frontier: real) {
    && (forall v :: v in visited ==> v in dist && dist[v].Fin? && dist[v].d <= frontier)
    && (forall e :: e in pq ==> frontier <= e.dist)
  }

  ghost predicate AllUsed(g: Graph, dist: Distances, visited: set<Node>) {
    forall v :: v in visited ==> EdgesUsed(g, dist, v, if v in g.adj then |g.adj[v]| else 0)
  }

  function Neighbours(g: Graph, u: Node): seq<Edge> {
    if u in g.adj then g.adj[u] else []
  }

  /** With no negative weight: the state after k edges of u, which was visited at distance d. */
  ghost predicate MidVisit(g: Graph, dist0: Distances, dist: Distances, pq: Queue, visited: set<Node>,
                           u: Node, d: real, k: nat)
  {
    && visited <= dist0.Keys && u in visited
    && Final(g, dist, pq, visited, d)
    && AllUsed(g, dist, visited - {u})
    && EdgesUsed(g, dist, u, k)
    && dist[u] == Fin(d)
  }

  /** A node seen for the first time enters the table at infinity. */
  function Discover(dist: Distances, n: Node): Distances {
    if n in dist then dist else dist[n := Inf]
  }

  lemma {:induction false} DiscoverKeepsConsistent(g: Graph, s: Node, dist: Distances, pq: Queue,
                                                   visited: set<Node>, n: Node)
    requires Consistent(g, s, dist, pq, visited) && n in g.Nodes()
    ensures Consistent(g, s, Discover(dist, n), pq, visited)
  {
    hide HasWalk, Graph.Nodes;
  }

  lemma {:induction false} DiscoverKeepsMidVisit(g: Graph, dist0: Distances, dist: Distances, pq: Queue,
                                                 visited: set<Node>, u: Node, d: real, k: nat, n: Node)
    requires MidVisit(g, dist0, dist, pq, visited, u, d, k)
    ensures MidVisit(g, dist0, Discover(dist, n), pq, visited, u, d, k)
  {
    var after := Discover(dist, n);
    forall v | v in visited - {u} ensures EdgesUsed(g, after, v, if v in g.adj then |g.adj[v]| else 0) {
      assert EdgesUsed(g, dist, v, if v in g.adj then |g.adj[v]| else 0);
    }
  }

  lemma {:induction false} ImproveKeepsConsistent(g: Graph, s: Node, dist: Distances, pq: Queue,
                                                  visited: set<Node>, u: Node, d: real, k: nat)
    requires Consistent(g, s, dist, pq, visited) && u in g.adj && k < |g.adj[u]|
    requires HasWalk(g, s, u, d)
    requires var e := g.adj[u][k]; e.to in dist && Fin(d + e.weight).Less(dist[e.to])
    ensures var e := g.adj[u][k];
            Consistent(g, s, dist[e.to := Fin(d + e.weight)], pq + multiset{Entry(d + e.weight, e.to)}, visited)
  {
    hide HasWalk, Graph.Nodes;
    ExtendHasWalk(g, s, u, d, g.adj[u][k]);
  }

  lemma {:induction false} ImproveKeepsMidVisit(g: Graph, dist0: Distances, dist: Distances, pq: Queue,
                                                visited: set<Node>, u: Node, d: real, k: nat)
    requires NonNegative(g) && u in g.adj && k < |g.adj[u]|
    requires MidVisit(g, dist0, dist, pq, visited, u, d, k)
    requires var e := g.adj[u][k]; e.to in dist && Fin(d + e.weight).Less(dist[e.to])
    ensures var e := g.adj[u][k];
            MidVisit(g, dist0, dist[e.to := Fin(d + e.weight)], pq + multiset{Entry(d + e.weight, e.to)},
                     visited, u, d, k + 1)
  {
    var e := g.adj[u][k];
    assert IsArc(g, Arc(u, e.to, e.weight));
    assert e.to !in visited;
    var after := dist[e.to := Fin(d + e.weight)];
    forall v | v in visited - {u} ensures EdgesUsed(g, after, v, if v in g.adj then |g.adj[v]| else 0) {
      assert EdgesUsed(g, dist, v, if v in g.adj then |g.adj[v]| else 0);
    }
  }

  /** What one turn of the inner loop does to the table and the queue. */
  function RelaxedEdge(dist: Distances, pq: Queue, d: real, e: Edge): (Distances, Queue) {
    var known := Discover(dist, e.to);
    if Fin(d + e.weight).Less(known[e.to]) then
      (known[e.to := Fin(d + e.weight)], pq + multiset{Entry(d + e.weight, e.to)})
    else (known, pq)
  }

  method RelaxEdge(dist0: Distances, pq0: Queue, d: real, e: Edge) returns (dist: Distances, pq: Queue)
    ensures (dist, pq) == RelaxedEdge(dist0, pq0, d, e)
  {
    dist, pq := dist0, pq0;
    if e.to !in dist {
      dist := dist[e.to := Inf];
    }
    var newDist := d + e.weight;
    if Fin(newDist).Less(dist[e.to]) {
      dist := dist[e.to := Fin(newDist)];
      pq := pq + multiset{Entry(newDist, e.to)};
    }
  }

  /** The entries of visited nodes are what they were. */
  ghost predicate Unrevised(before: Distances, after: Distances, visited: set<Node>) {
    forall v :: v in visited ==> v in before && v in after && after[v] == before[v]
  }

  /** The state between two turns of the inner loop. */
  ghost predicate InVisit(g: Graph, s: Node, dist0: Distances, dist: Distances, pq: Queue,
                          visited: set<Node>, u: Node, d: real, k: nat)
  {
    && Consistent(g, s, dist, pq, visited)
    && (NonNegative(g) ==> MidVisit(g, dist0, dist, pq, visited, u, d, k))
  }

  lemma {:induction false} RelaxEdgeKeeps(g: Graph, s: Node, dist0: Distances, dist: Distances, pq: Queue,
                       visited: set<Node>, u: Node, d: real, k: nat)
    requires InVisit(g, s, dist0, dist, pq, visited, u, d, k)
    requires u in g.adj && k < |g.adj[u]| && HasWalk(g, s, u, d)
    ensures var (dist', pq') := RelaxedEdge(dist, pq, d, g.adj[u][k]);
            && InVisit(g, s, dist0, dist', pq', visited, u, d, k + 1)
            && (NonNegative(g) ==> Unrevised(dist, dist', visited))
  {
    hide Consistent, MidVisit, HasWalk, NonNegative, Unrevised;
    var e := g.adj[u][k];
    assert e.to in g.Nodes();
    DiscoverKeepsConsistent(g, s, dist, pq, visited, e.to);
    var known := Discover(dist, e.to);
    var better := Fin(d + e.weight).Less(known[e.to]);
    if better {
      ImproveKeepsConsistent(g, s, known, pq, visited, u, d, k);
    }
    if NonNegative(g) {
      DiscoverKeepsMidVisit(g, dist0, dist, pq, visited, u, d, k, e.to);
      if better {
        ImproveKeepsMidVisit(g, dist0, known, pq, visited, u, d, k);
      } else {
        EdgeDone(g, dist0, known, pq, visited, u, d, k);
      }
      VisitedKnown(g, s, dist, pq, visited);
      EdgeRevisesNone(g, dist0, dist, pq, visited, u, d, k);
    }
  }

  lemma {:induction false} EdgeDone(g: Graph, dist0: Distances, dist: Distances, pq: Queue, visited: set<Node>,
                                    u: Node, d: real, k: nat)
    requires u in g.adj && k < |g.adj[u]| && MidVisit(g, dist0, dist, pq, visited, u, d, k)
    requires var e := g.adj[u][k]; e.to in dist && !Fin(d + e.weight).Less(dist[e.to])
    ensures MidVisit(g, dist0, dist, pq, visited, u, d, k + 1)
  {
  }

  lemma {:induction false} VisitedKnown(g: Graph, s: Node, dist: Distances, pq: Queue, visited: set<Node>)
    requires Consistent(g, s, dist, pq, visited)
    ensures visited <= dist.Keys
  {
  }

  lemma {:induction false} EdgeRevisesNone(g: Graph, dist0: Distances, dist: Distances, pq: Queue, visited: set<Node>,
                                           u: Node, d: real, k: nat)
    requires NonNegative(g) && u in g.adj && k < |g.adj[u]| && visited <= dist.Keys
    requires MidVisit(g, dist0, dist, pq, visited, u, d, k)
    ensures Unrevised(dist, RelaxedEdge(dist, pq, d, g.adj[u][k]).0, visited)
  {
    var e := g.adj[u][k];
    assert IsArc(g, Arc(u, e.to, e.weight));
  }

  lemma {:induction false} VisitDone(g: Graph, s: Node, dist0: Distances, dist: Distances, pq: Queue,
                                     visited: set<Node>, u: Node, d: real)
    requires InVisit(g, s, dist0, dist, pq, visited, u, d, |Neighbours(g, u)|)
    ensures BetweenVisits(g, s, dist, pq, visited, d)
  {
    if NonNegative(g) {
      forall v | v in visited ensures EdgesUsed(g, dist, v, if v in g.adj then |g.adj[v]| else 0) {
        if v != u {
          assert v in visited - {u};
        }
      }
    }
  }

  lemma {:induction false} VisitedAreKnown(g: Graph, s: Node, dist: Distances, pq: Queue, visited: set<Node>,
                                           u: Node, d: real)
    requires InVisit(g, s, dist, dist, pq, visited, u, d, 0)
    ensures Unrevised(dist, dist, visited)
  {
  }

  /** The inner loop: every edge out of a node that has just been visited at distance d. */
  method RelaxEdges(g: Graph, s: Node, u: Node, d: real, dist0: Distances, pq0: Queue, visited: set<Node>)
    returns (dist: Distances, pq: Queue)
    requires InVisit(g, s, dist0, dist0, pq0, visited, u, d, 0) && HasWalk(g, s, u, d)
    ensures InVisit(g, s, dist0, dist, pq, visited, u, d, |Neighbours(g, u)|)
    ensures NonNegative(g) ==> Unrevised(dist0, dist, visited)
  {
    dist, pq := dist0, pq0;
    var edges := Neighbours(g, u);
    VisitedAreKnown(g, s, dist0, pq0, visited, u, d);
    for k := 0 to |edges|
      invariant InVisit(g, s, dist0, dist, pq, visited, u, d, k)
      invariant NonNegative(g) ==> Unrevised(dist0, dist, visited)
    {
      RelaxEdgeKeeps(g, s, dist0, dist, pq, visited, u, d, k);
      dist, pq := RelaxEdge(dist, pq, d, edges[k]);
    }
  }

  /** The state between two turns of the outer loop. */
  ghost predicate BetweenVisits(g: Graph, s: Node, dist: Distances, pq: Queue, visited: set<Node>, frontier: real) {
    && Consistent(g, s, dist, pq, visited)
    && (NonNegative(g) ==> Final(g, dist, pq, visited, frontier) && AllUsed(g, dist, visited))
  }

  lemma {:induction false} PopKeepsConsistent(g: Graph, s: Node, dist: Distances, pq: Queue, visited: set<Node>,
                                              e: Entry)
    requires Consistent(g, s, dist, pq, visited) && IsLeast(e, pq) && e.node !in visited
    ensures Consistent(g, s, dist, pq - multiset{e}, visited + {e.node})
    ensures e.node in dist && dist[e.node] == Fin(e.dist) && visited <= dist.Keys && HasWalk(g, s, e.node, e.dist)
  {
    hide HasWalk, Graph.Nodes;
  }

  lemma {:induction false} PopKeepsMidVisit(g: Graph, dist: Distances, pq: Queue, visited: set<Node>, frontier: real,
                                            e: Entry)
    requires Final(g, dist, pq, visited, frontier) && AllUsed(g, dist, visited) && IsLeast(e, pq)
    requires e.node in dist && dist[e.node] == Fin(e.dist) && visited <= dist.Keys && e.node !in visited
    ensures MidVisit(g, dist, dist, pq - multiset{e}, visited + {e.node}, e.node, e.dist, 0)
  {
    assert visited + {e.node} - {e.node} == visited;
  }

  /** The least entry of an unvisited node carries the distance in the table. */
  lemma {:induction false} PopStartsVisit(g: Graph, s: Node, dist: Distances, pq: Queue, visited: set<Node>,
                                          frontier: real, e: Entry)
    requires BetweenVisits(g, s, dist, pq, visited, frontier) && IsLeast(e, pq) && e.node !in visited
    ensures InVisit(g, s, dist, dist, pq - multiset{e}, visited + {e.node}, e.node, e.dist, 0)
    ensures HasWalk(g, s, e.node, e.dist)
  {
    hide Consistent, MidVisit, Final, AllUsed, HasWalk, NonNegative, IsLeast;
    PopKeepsConsistent(g, s, dist, pq, visited, e);
    if NonNegative(g) {
      PopKeepsMidVisit(g, dist, pq, visited, frontier, e);
    }
  }

  lemma {:induction false} PopStale(g: Graph, s: Node, dist: Distances, pq: Queue, visited: set<Node>,
                                    frontier: real, e: Entry)
    requires BetweenVisits(g, s, dist, pq, visited, frontier) && e in pq && e.node in visited
    ensures BetweenVisits(g, s, dist, pq - multiset{e}, visited, frontier)
  {
  }

  /** Once every finite entry belongs to a visited node, no walk is lighter than the entry of its end. */
  lemma {:induction false} UsedAlongWalk(g: Graph, s: Node, dist: Distances, visited: set<Node>,
                                         frontier: real, p: seq<Arc>, v: Node)
    requires BetweenVisits(g, s, dist, multiset{}, visited, frontier) && NonNegative(g)
    requires IsWalk(g, s, p, v)
    ensures v in dist && dist[v].AtMost(Fin(Weight(p)))
    decreases |p|
  {
    if p != [] {
      var a := p[|p| - 1];
      UsedAlongWalk(g, s, dist, visited, frontier, p[..|p| - 1], a.src);
      assert EdgesUsed(g, dist, a.src, |g.adj[a.src]|);
      var j :| 0 <= j < |g.adj[a.src]| && g.adj[a.src][j] == Edge(a.dst, a.weight);
    }
  }

  /** order lists the visits so far: each node once. */
  ghost predicate Visits(order: seq<Entry>, visited: set<Node>) {
    && (forall i :: 0 <= i < |order| ==> order[i].node in visited)
    && (forall v :: v in visited ==> exists i :: 0 <= i < |order| && order[i].node == v)
    && forall i, j :: 0 <= i < j < |order| ==> order[i].node != order[j].node
  }

  /** The visits came at growing distance, and the table has kept the distance of each. */
  ghost predicate KeptInOrder(order: seq<Entry>, dist: Distances, frontier: real) {
    && (forall i, j :: 0 <= i <= j < |order| ==> order[i].dist <= order[j].dist)
    && forall i :: 0 <= i < |order| ==>
         order[i].dist <= frontier && order[i].node in dist && dist[order[i].node] == Fin(order[i].dist)
  }

  lemma {:induction false} OneMoreVisit(order: seq<Entry>, visited: set<Node>, e: Entry)
    requires Visits(order, visited) && e.node !in visited
    ensures Visits(order + [e], visited + {e.node})
  {
    var more := order + [e];
    forall v | v in visited + {e.node} ensures exists i :: 0 <= i < |more| && more[i].node == v {
      if v == e.node {
        assert more[|order|].node == v;
      } else {
        var i :| 0 <= i < |order| && order[i].node == v;
        assert more[i].node == v;
      }
    }
  }

  lemma {:induction false} VisitKept(order: seq<Entry>, before: Distances, after: Distances, visited: set<Node>,
                                     frontier: real, e: Entry)
    requires Visits(order, visited) && KeptInOrder(order, before, frontier) && frontier <= e.dist
    requires Unrevised(before, after, visited + {e.node}) && e.node in before && before[e.node] == Fin(e.dist)
    ensures KeptInOrder(order + [e], after, e.dist)
  {
  }

  lemma {:induction false} PoppedIsNext(g: Graph, s: Node, dist: Distances, pq: Queue, visited: set<Node>,
                                        frontier: real, e: Entry)
    requires BetweenVisits(g, s, dist, pq, visited, frontier) && IsLeast(e, pq) && e.node !in visited && NonNegative(g)
    ensures frontier <= e.dist && e.node in dist && dist[e.node] == Fin(e.dist)
  {
  }

  /** order is the list of visits. Whatever the weights each node is visited at most once; with none negative the
      visits come at growing distance, and each node keeps the distance it was visited at, which is final. */
  method Search(g: Graph, start: Node) returns (distances: Distances, ghost order: seq<Entry>)
    requires g.Valid()
    ensures g.adj.Keys + {start} <= distances.Keys <= g.Nodes() + {start}
    ensures BellmanFord.Witnessed(g, start, distances)
    ensures forall i, j :: 0 <= i < j < |order| ==> order[i].node != order[j].node
    ensures NonNegative(g) ==>
              && (forall v :: v in distances ==> IsDistance(g, start, v, distances[v]))
              && forall p: seq<Arc>, v :: IsWalk(g, start, p, v) ==> v in distances
    ensures NonNegative(g) ==>
              && (forall i, j :: 0 <= i <= j < |order| ==> order[i].dist <= order[j].dist)
              && (forall i :: 0 <= i < |order| ==>
                    order[i].node in distances && distances[order[i].node] == Fin(order[i].dist))
  {
    hide Visits, KeptInOrder, Unrevised, IsLeast, BellmanFord.Witnessed, BetweenVisits, InVisit, IsDistance, IsWalk,
         HasWalk, Graph.Nodes, NonNegative;
    distances := map n | n in g.keys :: Inf;
    distances := distances[start := Fin(0.0)];
    var pq: Queue := multiset{Entry(0.0, start)};
    var visited: set<Node> := {};
    StartIsConsistent(g, start, distances);
    ghost var frontier := 0.0;
    order := [];
    NoVisits(distances, frontier);
    while |pq| > 0
      invariant BetweenVisits(g, start, distances, pq, visited, frontier)
      invariant Visits(order, visited)
      invariant NonNegative(g) ==> KeptInOrder(order, distances, frontier)
      decreases g.Nodes() + {start} - visited, |pq|
    {
      var e, rest := PopLeast(pq);
      if e.node in visited {
        PoppedIsIn(e, pq);
        PopStale(g, start, distances, pq, visited, frontier, e);
        pq := rest;
        continue;
      }
      PopStartsVisit(g, start, distances, pq, visited, frontier, e);
      ghost var before, was, queue := distances, visited, pq;
      visited := visited + {e.node};
      NodeIsKnown(g, start, distances, rest, visited, e);
      distances, pq := RelaxEdges(g, start, e.node, e.dist, distances, rest, visited);
      VisitDone(g, start, before, distances, pq, visited, e.node, e.dist);
      OneMoreVisit(order, was, e);
      if NonNegative(g) {
        PoppedIsNext(g, start, before, queue, was, frontier, e);
        VisitKept(order, before, distances, was, frontier, e);
      }
      order := order + [e];
      frontier := e.dist;
    }
    assert pq == multiset{};
    OrderSays(order, visited, distances, frontier);
    EmptyQueueSays(g, start, distances, visited, frontier);
  }

  /** What the table is once the queue has run empty. */
  lemma {:induction false} EmptyQueueSays(g: Graph, s: Node, dist: Distances, visited: set<Node>, frontier: real)
    requires BetweenVisits(g, s, dist, multiset{}, visited, frontier)
    ensures g.adj.Keys + {s} <= dist.Keys <= g.Nodes() + {s} && BellmanFord.Witnessed(g, s, dist)
    ensures NonNegative(g) ==>
              && (forall v :: v in dist ==> IsDistance(g, s, v, dist[v]))
              && forall p: seq<Arc>, v :: IsWalk(g, s, p, v) ==> v in dist
  {
    hide Graph.Nodes;
    if NonNegative(g) {
      forall p: seq<Arc>, v | IsWalk(g, s, p, v)
        ensures v in dist && dist[v].AtMost(Fin(Weight(p)))
      {
        UsedAlongWalk(g, s, dist, visited, frontier, p, v);
      }
    }
  }

  lemma {:induction false} StartIsConsistent(g: Graph, s: Node, dist: Distances)
    requires g.Valid() && dist == (map n | n in g.keys :: Inf)[s := Fin(0.0)]
    ensures BetweenVisits(g, s, dist, multiset{Entry(0.0, s)}, {}, 0.0)
  {
    assert IsWalk(g, s, [], s) && Weight([]) == 0.0;
  }

  lemma {:induction false} NoVisits(dist: Distances, frontier: real)
    ensures Visits([], {}) && KeptInOrder([], dist, frontier)
  {
  }

  lemma {:induction false} PoppedIsIn(e: Entry, pq: Queue)
    requires IsLeast(e, pq)
    ensures e in pq
  {
  }

  lemma {:induction false} NodeIsKnown(g: Graph, s: Node, dist: Distances, pq: Queue, visited: set<Node>, e: Entry)
    requires InVisit(g, s, dist, dist, pq, visited, e.node, e.dist, 0) && e.node in visited
    ensures e.node in g.Nodes() + {s}
  {
  }

  lemma {:induction false} OrderSays(order: seq<Entry>, visited: set<Node>, dist: Distances, frontier: real)
    requires Visits(order, visited)
    ensures forall i, j :: 0 <= i < j < |order| ==> order[i].node != order[j].node
    ensures KeptInOrder(order, dist, frontier) ==>
              && (forall i, j :: 0 <= i <= j < |order| ==> order[i].dist <= order[j].dist)
              && (forall i :: 0 <= i < |order| ==> order[i].node in dist && dist[order[i].node] == Fin(order[i].dist))
  {
  }

  /** On a graph without negative weights both searches give the same table, except that
      Dijkstra leaves out nodes that are no keys and that no walk reaches. */
  method SearchBothWays(g: Graph, start: Node) returns (fast: Distances, slow: Distances)
    requires g.Valid() && NonNegative(g)
    ensures fast.Keys <= slow.Keys
    ensures forall v :: v in fast ==> fast[v] == slow[v]
    ensures forall v :: v in slow && v !in fast ==> slow[v] == Inf
  {
    ghost var order;
    fast, order := Search(g, start);
    var result, negative := BellmanFord.Search(g, start);
    NonNegativeHasNoNegativeCycle(g, start);
    slow := result.value;
    forall v | v in fast ensures fast[v] == slow[v] {
      DistanceIsUnique(g, start, v, fast[v], slow[v]);
    }
  }
}
