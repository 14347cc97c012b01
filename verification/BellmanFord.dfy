/** Bellman-Ford with relaxation in place, and its test for negative cycles. */
module BellmanFord {
  import opened Options
  import opened Walks

  type Distances = map<Node, Dist>

  /** Every finite entry is the weight of some walk from s. */
  ghost predicate Witnessed(g: Graph, s: Node, dist: Distances) {
    forall v :: v in dist && dist[v].Fin? ==> HasWalk(g, s, v, dist[v].d)
  }

  /** No walk of at most k edges is lighter than the entry of its last node. */
  ghost predicate CoversWalks(g: Graph, s: Node, dist: Distances, k: nat) {
    forall p: seq<Arc>, v :: IsWalk(g, s, p, v) && |p| <= k ==> v in dist && dist[v].AtMost(Fin(Weight(p)))
  }

  ghost predicate Lowered(before: Distances, after: Distances) {
    before.Keys == after.Keys && forall v :: v in before ==> after[v].AtMost(before[v])
  }

  /** The first k edges out of u have been relaxed against the entries in before. */
  ghost predicate Relaxed(g: Graph, before: Distances, after: Distances, u: Node, k: nat)
    requires u in g.adj && k <= |g.adj[u]|
  {
    && u in before
    && forall j :: 0 <= j < k ==>
         g.adj[u][j].to in after && after[g.adj[u][j].to].AtMost(before[u].Plus(g.adj[u][j].weight))
  }

  ghost predicate RelaxedKeys(g: Graph, before: Distances, after: Distances, n: nat)
    requires g.Valid() && n <= |g.keys|
  {
    forall i :: 0 <= i < n ==> Relaxed(g, before, after, g.keys[i], |g.adj[g.keys[i]]|)
  }

  lemma {:induction false} ImprovedEntryIsWitnessed(g: Graph, s: Node, dist: Distances, u: Node, k: nat)
    requires Witnessed(g, s, dist) && u in g.adj && k < |g.adj[u]| && u in dist && dist[u].Fin?
    ensures Witnessed(g, s, dist[g.adj[u][k].to := dist[u].Plus(g.adj[u][k].weight)])
  {
    ExtendHasWalk(g, s, u, dist[u].d, g.adj[u][k]);
  }

  /** A round over all the edges extends the cover to walks of one more edge. */
  lemma {:induction false} RoundExtendsCover(g: Graph, s: Node, before: Distances, after: Distances, k: nat)
    requires g.Valid()
    requires CoversWalks(g, s, before, k) && Lowered(before, after)
    requires RelaxedKeys(g, before, after, |g.keys|)
    ensures CoversWalks(g, s, after, k + 1)
  {
    forall p: seq<Arc>, v | IsWalk(g, s, p, v) && |p| <= k + 1
      ensures v in after && after[v].AtMost(Fin(Weight(p)))
    {
      if |p| == k + 1 {
        var a := p[k];
        assert IsWalk(g, s, p[..k], a.src);
        var i :| 0 <= i < |g.keys| && g.keys[i] == a.src;
        var j :| 0 <= j < |g.adj[a.src]| && g.adj[a.src][j] == Edge(a.dst, a.weight);
        assert Relaxed(g, before, after, g.keys[i], |g.adj[g.keys[i]]|);
      }
    }
  }

  /** Relaxing the edges of one more key keeps what has been relaxed before. */
  lemma {:induction false} OneMoreKeyRelaxed(g: Graph, before: Distances, mid: Distances, after: Distances, n: nat)
    requires g.Valid() && n < |g.keys|
    requires RelaxedKeys(g, before, mid, n) && Lowered(before, mid) && Lowered(mid, after)
    requires Relaxed(g, before, after, g.keys[n], |g.adj[g.keys[n]]|)
    ensures RelaxedKeys(g, before, after, n + 1) && Lowered(before, after)
  {
    forall i | 0 <= i < n ensures Relaxed(g, before, after, g.keys[i], |g.adj[g.keys[i]]|) {
      assert Relaxed(g, before, mid, g.keys[i], |g.adj[g.keys[i]]|);
    }
  }

  /** The inner loop: every edge out of u, in order, against the live entries. */
  method RelaxEdgesOf(g: Graph, s: Node, u: Node, current: Distances, ghost before: Distances)
    returns (dist: Distances)
    requires g.Valid() && u in g.adj && current.Keys == g.Nodes() + {s} && Witnessed(g, s, current)
    requires Lowered(before, current)
    ensures Lowered(current, dist) && Witnessed(g, s, dist)
    ensures Relaxed(g, before, dist, u, |g.adj[u]|)
  {
    hide Witnessed, Relaxed;
    dist := current;
    NothingRelaxed(g, before, current, u);
    for k := 0 to |g.adj[u]|
      invariant Lowered(current, dist) && Witnessed(g, s, dist)
      invariant Relaxed(g, before, dist, u, k)
    {
      var e := g.adj[u][k];
      assert e.to in g.Nodes();
      var candidate := dist[u].Plus(e.weight);
      ghost var was := dist;
      if candidate.Less(dist[e.to]) {
        ImprovedEntryIsWitnessed(g, s, dist, u, k);
        dist := dist[e.to := candidate];
      }
      OneMoreRelaxed(g, before, current, was, dist, u, k);
    }
  }

  lemma {:induction false} NothingRelaxed(g: Graph, before: Distances, after: Distances, u: Node)
    requires u in g.adj && u in before
    ensures Relaxed(g, before, after, u, 0)
  {
  }

  lemma {:induction false} OneMoreRelaxed(g: Graph, before: Distances, current: Distances, was: Distances,
                                          dist: Distances, u: Node, k: nat)
    requires u in g.adj && k < |g.adj[u]| && g.adj[u][k].to in was && u in was
    requires Lowered(before, current) && Lowered(current, was) && Lowered(was, dist)
    requires Relaxed(g, before, was, u, k) && dist[g.adj[u][k].to].AtMost(was[u].Plus(g.adj[u][k].weight))
    ensures Relaxed(g, before, dist, u, k + 1) && Lowered(current, dist)
  {
  }

  /** One pass of the outer loop: the edges of every key. */
  method RelaxAll(g: Graph, s: Node, before: Distances) returns (dist: Distances)
    requires g.Valid() && before.Keys == g.Nodes() + {s} && Witnessed(g, s, before)
    ensures Lowered(before, dist) && Witnessed(g, s, dist)
    ensures RelaxedKeys(g, before, dist, |g.keys|)
  {
    dist := before;
    for i := 0 to |g.keys|
      invariant Lowered(before, dist) && Witnessed(g, s, dist)
      invariant RelaxedKeys(g, before, dist, i)
    {
      var next := RelaxEdgesOf(g, s, g.keys[i], dist, before);
      OneMoreKeyRelaxed(g, before, dist, next, i);
      dist := next;
    }
  }

  /** The last pass: is there still an edge that offers a shorter way? */
  method FindImprovableEdge(g: Graph, s: Node, dist: Distances) returns (found: bool)
    requires g.Valid() && dist.Keys == g.Nodes() + {s}
    ensures found ==> exists a :: IsArc(g, a) && a.src in dist && a.dst in dist
                                  && dist[a.src].Plus(a.weight).Less(dist[a.dst])
    ensures !found ==> Settled(g, dist)
  {
    found := false;
    for i := 0 to |g.keys|
      invariant found ==> exists a :: IsArc(g, a) && a.src in dist && a.dst in dist
                                      && dist[a.src].Plus(a.weight).Less(dist[a.dst])
      invariant !found ==> RelaxedKeys(g, dist, dist, i)
    {
      var u := g.keys[i];
      for k := 0 to |g.adj[u]|
        invariant found ==> exists a :: IsArc(g, a) && a.src in dist && a.dst in dist
                                        && dist[a.src].Plus(a.weight).Less(dist[a.dst])
        invariant !found ==> RelaxedKeys(g, dist, dist, i) && Relaxed(g, dist, dist, u, k)
      {
        var e := g.adj[u][k];
        assert e.to in g.Nodes();
        if dist[u].Plus(e.weight).Less(dist[e.to]) {
          assert IsArc(g, Arc(u, e.to, e.weight));
          found := true;
          break;
        }
      }
    }
    if !found {
      forall a | IsArc(g, a)
        ensures a.src in dist && a.dst in dist && dist[a.dst].AtMost(dist[a.src].Plus(a.weight))
      {
        var i :| 0 <= i < |g.keys| && g.keys[i] == a.src;
        assert Relaxed(g, dist, dist, g.keys[i], |g.adj[g.keys[i]]|);
        var j :| 0 <= j < |g.adj[a.src]| && g.adj[a.src][j] == Edge(a.dst, a.weight);
      }
    }
  }

  /** When every walk shorter than the number of nodes is covered and no negative cycle is in
      reach, no edge can be improved. */
  lemma {:induction false} CoverWithoutNegativeCycleIsSettled(g: Graph, s: Node, dist: Distances, a: Arc)
    requires dist.Keys == g.Nodes() + {s} && Witnessed(g, s, dist)
    requires CoversWalks(g, s, dist, |g.Nodes() + {s}| - 1)
    requires !NegativeCycleReachable(g, s)
    requires IsArc(g, a)
    ensures a.src in dist && a.dst in dist && !dist[a.src].Plus(a.weight).Less(dist[a.dst])
  {
    var i :| 0 <= i < |g.adj[a.src]| && g.adj[a.src][i] == Edge(a.dst, a.weight);
    assert g.adj[a.src][i].to == a.dst;
    if dist[a.src].Fin? {
      var p :| IsWalk(g, s, p, a.src) && Weight(p) == dist[a.src].d;
      Extend(g, s, p, a);
      var q := ShortWalk(g, s, p + [a], a.dst);
    }
  }

  /** Settled and witnessed entries, with the start at zero or below, are the distances. */
  lemma {:induction false} SettledWitnessedIsDistance(g: Graph, s: Node, dist: Distances, v: Node)
    requires Settled(g, dist) && Witnessed(g, s, dist)
    requires s in dist && dist[s].AtMost(Fin(0.0)) && v in dist
    ensures IsDistance(g, s, v, dist[v])
  {
    forall p: seq<Arc> | IsWalk(g, s, p, v) ensures dist[v].AtMost(Fin(Weight(p))) {
      SettledAlongWalk(g, dist, s, p, v);
    }
  }

  /** The set of nodes, gathered from the keys and from the ends of their edges. */
  method CollectNodes(g: Graph) returns (nodes: set<Node>)
    requires g.Valid()
    ensures nodes == g.Nodes()
  {
    nodes := set n | n in g.keys;
    for i := 0 to |g.keys|
      invariant g.adj.Keys <= nodes <= g.Nodes()
      invariant forall x, k :: 0 <= x < i && 0 <= k < |g.adj[g.keys[x]]| ==> g.adj[g.keys[x]][k].to in nodes
    {
      for k := 0 to |g.adj[g.keys[i]]|
        invariant g.adj.Keys <= nodes <= g.Nodes()
        invariant forall x, y :: 0 <= x < i && 0 <= y < |g.adj[g.keys[x]]| ==> g.adj[g.keys[x]][y].to in nodes
        invariant forall y :: 0 <= y < k ==> g.adj[g.keys[i]][y].to in nodes
      {
        nodes := nodes + {g.adj[g.keys[i]][k].to};
      }
    }
    forall n | n in g.Nodes() ensures n in nodes {
      if n !in g.adj {
        var u, k :| u in g.adj && 0 <= k < |g.adj[u]| && g.adj[u][k].to == n;
        var x :| 0 <= x < |g.keys| && g.keys[x] == u;
        assert g.adj[g.keys[x]][k].to in nodes;
      }
    }
  }

  lemma {:induction false} NoEdgesFromOutside(g: Graph, s: Node, p: seq<Arc>, t: Node)
    requires s !in g.adj && IsWalk(g, s, p, t)
    ensures p == [] && s == t
  {
    if p != [] {
      Split(g, s, p, t, 1);
    }
  }

  /** After all the rounds, every walk that is short enough is covered, wherever the start is. */
  lemma {:induction false} CoverAfterAllRounds(g: Graph, s: Node, dist: Distances, rounds: nat)
    requires s in dist && dist[s].AtMost(Fin(0.0))
    requires CoversWalks(g, s, dist, rounds) && rounds >= |g.Nodes()| - 1
    ensures CoversWalks(g, s, dist, |g.Nodes() + {s}| - 1)
  {
    if s in g.adj {
      assert g.Nodes() + {s} == g.Nodes();
    } else {
      forall p: seq<Arc>, v | IsWalk(g, s, p, v) ensures v in dist && dist[v].AtMost(Fin(Weight(p))) {
        NoEdgesFromOutside(g, s, p, v);
      }
    }
  }

  /** The table before the first round. */
  lemma {:induction false} EmptyWalkIsCovered(g: Graph, s: Node, dist: Distances)
    requires s in dist && dist[s] == Fin(0.0)
    requires forall v :: v in dist && v != s ==> dist[v] == Inf
    ensures Witnessed(g, s, dist) && CoversWalks(g, s, dist, 0)
  {
    assert IsWalk(g, s, [], s) && Weight([]) == 0.0;
  }

  lemma {:induction false} LoweredKeepsStart(before: Distances, after: Distances, s: Node)
    requires Lowered(before, after) && s in before && before[s].AtMost(Fin(0.0))
    ensures after.Keys == before.Keys && after[s].AtMost(Fin(0.0))
  {
  }

  /** An edge that can still be improved after all the rounds betrays a negative cycle. */
  lemma {:induction false} ImprovableMeansNegativeCycle(g: Graph, s: Node, dist: Distances, a: Arc)
    requires dist.Keys == g.Nodes() + {s} && Witnessed(g, s, dist)
    requires CoversWalks(g, s, dist, |g.Nodes() + {s}| - 1)
    requires IsArc(g, a) && a.src in dist && a.dst in dist
    requires dist[a.src].Plus(a.weight).Less(dist[a.dst])
    ensures NegativeCycleReachable(g, s)
  {
    if !NegativeCycleReachable(g, s) {
      CoverWithoutNegativeCycleIsSettled(g, s, dist, a);
    }
  }

  lemma {:induction false} StartIsFinite(dist: Distances, s: Node)
    requires s in dist && dist[s].AtMost(Fin(0.0))
    ensures dist[s].Fin?
  {
  }

  method Search(g: Graph, start: Node) returns (distances: Option<Distances>, hasNegativeCycle: bool)
    requires g.Valid()
    ensures hasNegativeCycle <==> NegativeCycleReachable(g, start)
    ensures distances.None? <==> hasNegativeCycle
    ensures distances.Some? ==>
              && distances.value.Keys == g.Nodes() + {start}
              && forall v :: v in distances.value ==> IsDistance(g, start, v, distances.value[v])
  {
    hide IsWalk, Weight, Witnessed, CoversWalks, Relaxed, RelaxedKeys, IsDistance, Lowered, Settled, IsArc,
         NegativeCycleReachable, Graph.Nodes;
    var nodes := CollectNodes(g);
    var dist: Distances := map n | n in nodes :: Inf;
    dist := dist[start := Fin(0.0)];
    EmptyWalkIsCovered(g, start, dist);
    var round := 0;
    while round < |nodes| - 1
      invariant dist.Keys == g.Nodes() + {start} && Witnessed(g, start, dist)
      invariant dist[start].AtMost(Fin(0.0))
      invariant CoversWalks(g, start, dist, round)
      invariant round <= |nodes| - 1 || round == 0
    {
      var before := dist;
      dist := RelaxAll(g, start, before);
      RoundExtendsCover(g, start, before, dist, round);
      LoweredKeepsStart(before, dist, start);
      round := round + 1;
    }
    CoverAfterAllRounds(g, start, dist, round);
    hasNegativeCycle := FindImprovableEdge(g, start, dist);
    if hasNegativeCycle {
      ghost var a :| IsArc(g, a) && a.src in dist && a.dst in dist
                     && dist[a.src].Plus(a.weight).Less(dist[a.dst]);
      ImprovableMeansNegativeCycle(g, start, dist, a);
      return None, true;
    }
    StartIsFinite(dist, start);
    SettledMeansNoNegativeCycle(g, dist, start);
    forall v | v in dist ensures IsDistance(g, start, v, dist[v]) {
      SettledWitnessedIsDistance(g, start, dist, v);
    }
    return Some(dist), false;
  }
}
