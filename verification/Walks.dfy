/** Directed weighted graphs, walks in them, and what a shortest distance is. */
module Walks {

  type Node = string

  datatype Edge = Edge(to: Node, weight: real)

  /** A Python dictionary from node to adjacency list, with the order in which it is iterated. */
  datatype Graph = Graph(keys: seq<Node>, adj: map<Node, seq<Edge>>) {
    ghost predicate Valid() {
      forall n :: n in keys <==> n in adj
    }

    /** The keys of the graph and every node that an edge leads to. */
    ghost function Nodes(): set<Node> {
      adj.Keys + set u, k | u in adj && 0 <= k < |adj[u]| :: adj[u][k].to
    }
  }

  /** One edge of a walk, with both its ends. */
  datatype Arc = Arc(src: Node, dst: Node, weight: real)

  ghost predicate IsArc(g: Graph, a: Arc) {
    a.src in g.adj && Edge(a.dst, a.weight) in g.adj[a.src]
  }

  /** p leads from s to t, each arc an edge of the graph that starts where the one before it ends. */
  ghost predicate IsWalk(g: Graph, s: Node, p: seq<Arc>, t: Node) {
    if p == [] then s == t
    else
      var a := p[|p| - 1];
      IsArc(g, a) && a.dst == t && IsWalk(g, s, p[..|p| - 1], a.src)
  }

  ghost function Weight(p: seq<Arc>): real {
    if p == [] then 0.0 else Weight(p[..|p| - 1]) + p[|p| - 1].weight
  }

  /** float('inf') is a value of its own. */
  datatype Dist = Inf | Fin(d: real) {
    predicate Less(other: Dist) {
      match (this, other)
      case (Fin(a), Fin(b)) => a < b
      case (Fin(_), Inf) => true
      case (Inf, _) => false
    }

    function Plus(w: real): Dist {
      match this
      case Inf => Inf
      case Fin(a) => Fin(a + w)
    }

    ghost predicate AtMost(other: Dist) {
      !other.Less(this)
    }
  }

  /** Some walk from s to t has weight w. */
  ghost predicate HasWalk(g: Graph, s: Node, t: Node, w: real) {
    exists p :: IsWalk(g, s, p, t) && Weight(p) == w
  }

  /** d is the least weight of a walk from s to t, or Inf when there is no walk at all. */
  ghost predicate IsDistance(g: Graph, s: Node, t: Node, d: Dist) {
    && (d.Fin? ==> HasWalk(g, s, t, d.d))
    && forall p :: IsWalk(g, s, p, t) ==> d.AtMost(Fin(Weight(p)))
  }

  ghost predicate NegativeCycleAt(g: Graph, u: Node, c: seq<Arc>) {
    IsWalk(g, u, c, u) && Weight(c) < 0.0
  }

  /** Some walk from s leads to a node that lies on a closed walk of negative weight. */
  ghost predicate NegativeCycleReachable(g: Graph, s: Node) {
    exists u, p, c :: IsWalk(g, s, p, u) && NegativeCycleAt(g, u, c)
  }

  ghost predicate NonNegative(g: Graph) {
    forall a :: IsArc(g, a) ==> a.weight >= 0.0
  }

  // ----- joining and splitting walks

  lemma {:induction false} Extend(g: Graph, s: Node, p: seq<Arc>, a: Arc)
    requires IsWalk(g, s, p, a.src) && IsArc(g, a)
    ensures IsWalk(g, s, p + [a], a.dst)
    ensures Weight(p + [a]) == Weight(p) + a.weight
  {
    assert (p + [a])[..|p|] == p;
  }

  lemma {:induction false} ExtendHasWalk(g: Graph, s: Node, u: Node, w: real, e: Edge)
    requires HasWalk(g, s, u, w) && u in g.adj && e in g.adj[u]
    ensures HasWalk(g, s, e.to, w + e.weight)
  {
    var p :| IsWalk(g, s, p, u) && Weight(p) == w;
    Extend(g, s, p, Arc(u, e.to, e.weight));
  }

  lemma {:induction false} Join(g: Graph, s: Node, p: seq<Arc>, u: Node, q: seq<Arc>, t: Node)
    requires IsWalk(g, s, p, u) && IsWalk(g, u, q, t)
    ensures IsWalk(g, s, p + q, t)
    ensures Weight(p + q) == Weight(p) + Weight(q)
    decreases |q|
  {
    if q == [] {
      assert p + q == p;
    } else {
      var a := q[|q| - 1];
      Join(g, s, p, u, q[..|q| - 1], a.src);
      assert p + q == (p + q[..|q| - 1]) + [a];
      Extend(g, s, p + q[..|q| - 1], a);
    }
  }

  /** The node a walk stands on after its first k arcs. */
  ghost function NodeAt(s: Node, p: seq<Arc>, k: nat): Node
    requires k <= |p|
  {
    if k == 0 then s else p[k - 1].dst
  }

  lemma {:induction false} Split(g: Graph, s: Node, p: seq<Arc>, t: Node, k: nat)
    requires IsWalk(g, s, p, t) && k <= |p|
    ensures IsWalk(g, s, p[..k], NodeAt(s, p, k))
    ensures IsWalk(g, NodeAt(s, p, k), p[k..], t)
    ensures Weight(p) == Weight(p[..k]) + Weight(p[k..])
    decreases |p|
  {
    if k == |p| {
      assert p[..k] == p && p[k..] == [];
    } else {
      var n := |p| - 1;
      var q, a := p[..n], p[n];
      Split(g, s, q, a.src, k);
      assert q[..k] == p[..k] && p[k..] == q[k..] + [a];
      Extend(g, NodeAt(s, p, k), q[k..], a);
    }
  }

  lemma {:induction false} WalkStaysInNodes(g: Graph, s: Node, p: seq<Arc>, t: Node, k: nat)
    requires IsWalk(g, s, p, t) && k <= |p|
    ensures NodeAt(s, p, k) in g.Nodes() + {s}
    decreases |p|
  {
    if 0 < k {
      var n := |p| - 1;
      if k == |p| {
        var a := p[n];
        var i :| 0 <= i < |g.adj[a.src]| && g.adj[a.src][i] == Edge(a.dst, a.weight);
        assert g.adj[a.src][i].to == a.dst;
      } else {
        WalkStaysInNodes(g, s, p[..n], p[n].src, k);
      }
    }
  }

  // ----- short walks suffice when no negative cycle is in reach

  /** More entries than there are values: two entries are equal. */
  lemma {:induction false} Pigeonhole(xs: seq<Node>, S: set<Node>) returns (i: nat, j: nat)
    requires forall x :: x in xs ==> x in S
    requires |xs| > |S|
    ensures i < j < |xs| && xs[i] == xs[j]
    decreases |xs|
  {
    var n := |xs| - 1;
    var x := xs[n];
    if x in xs[..n] {
      i :| 0 <= i < n && xs[i] == x;
      j := n;
    } else {
      i, j := Pigeonhole(xs[..n], S - {x});
    }
  }

  /** A walk with as many arcs as there are nodes runs through a cycle; leaving the cycle out
      makes the walk shorter and, as the cycle is not negative, no heavier. */
  lemma {:induction false} CutCycle(g: Graph, s: Node, p: seq<Arc>, t: Node) returns (q: seq<Arc>)
    requires IsWalk(g, s, p, t) && |p| >= |g.Nodes() + {s}|
    requires !NegativeCycleReachable(g, s)
    ensures IsWalk(g, s, q, t) && |q| < |p| && Weight(q) <= Weight(p)
  {
    var visited := seq(|p| + 1, k requires 0 <= k <= |p| => NodeAt(s, p, k));
    forall x | x in visited ensures x in g.Nodes() + {s} {
      var k :| 0 <= k < |visited| && visited[k] == x;
      WalkStaysInNodes(g, s, p, t, k);
    }
    var i, j := Pigeonhole(visited, g.Nodes() + {s});
    var u := NodeAt(s, p, i);
    Split(g, s, p, t, j);
    Split(g, s, p[..j], u, i);
    assert p[..j][..i] == p[..i] && NodeAt(s, p[..j], i) == u;
    var cycle := p[..j][i..];
    assert IsWalk(g, s, p[..i], u) && IsWalk(g, u, cycle, u);
    assert Weight(cycle) >= 0.0 by {
      if Weight(cycle) < 0.0 {
        assert NegativeCycleAt(g, u, cycle);
      }
    }
    q := p[..i] + p[j..];
    Join(g, s, p[..i], u, p[j..], t);
  }

  lemma {:induction false} ShortWalk(g: Graph, s: Node, p: seq<Arc>, t: Node) returns (q: seq<Arc>)
    requires IsWalk(g, s, p, t) && !NegativeCycleReachable(g, s)
    ensures IsWalk(g, s, q, t) && |q| < |g.Nodes() + {s}| && Weight(q) <= Weight(p)
    decreases |p|
  {
    if |p| < |g.Nodes() + {s}| {
      q := p;
    } else {
      q := CutCycle(g, s, p, t);
      q := ShortWalk(g, s, q, t);
    }
  }

  // ----- distances that no edge can improve

  /** No edge of the graph offers a shorter way to the node it leads to. */
  ghost predicate Settled(g: Graph, dist: map<Node, Dist>) {
    forall a :: IsArc(g, a) ==>
      a.src in dist && a.dst in dist && dist[a.dst].AtMost(dist[a.src].Plus(a.weight))
  }

  /** Along any walk, settled distances grow by at most the weight of the walk. */
  lemma {:induction false} SettledAlongWalk(g: Graph, dist: map<Node, Dist>, s: Node, p: seq<Arc>, t: Node)
    requires Settled(g, dist) && IsWalk(g, s, p, t) && s in dist
    ensures t in dist && dist[t].AtMost(dist[s].Plus(Weight(p)))
    decreases |p|
  {
    if p != [] {
      SettledAlongWalk(g, dist, s, p[..|p| - 1], p[|p| - 1].src);
    }
  }

  /** Settled distances that are finite at the start rule out every reachable negative cycle. */
  lemma {:induction false} SettledMeansNoNegativeCycle(g: Graph, dist: map<Node, Dist>, s: Node)
    requires Settled(g, dist) && s in dist && dist[s].Fin?
    ensures !NegativeCycleReachable(g, s)
  {
    forall u, p, c | IsWalk(g, s, p, u) && IsWalk(g, u, c, u) ensures Weight(c) >= 0.0 {
      SettledAlongWalk(g, dist, s, p, u);
      SettledAlongWalk(g, dist, u, c, u);
    }
  }

  lemma {:induction false} DistanceIsUnique(g: Graph, s: Node, t: Node, d: Dist, d': Dist)
    requires IsDistance(g, s, t, d) && IsDistance(g, s, t, d')
    ensures d == d'
  {
    if d.Fin? {
      var p :| IsWalk(g, s, p, t) && Weight(p) == d.d;
      assert d'.AtMost(Fin(Weight(p)));
    }
    if d'.Fin? {
      var p :| IsWalk(g, s, p, t) && Weight(p) == d'.d;
      assert d.AtMost(Fin(Weight(p)));
    }
  }

  lemma {:induction false} NonNegativeWalk(g: Graph, s: Node, p: seq<Arc>, t: Node)
    requires NonNegative(g) && IsWalk(g, s, p, t)
    ensures Weight(p) >= 0.0
    decreases |p|
  {
    if p != [] {
      NonNegativeWalk(g, s, p[..|p| - 1], p[|p| - 1].src);
      assert IsArc(g, p[|p| - 1]);
    }
  }

  lemma {:induction false} NonNegativeHasNoNegativeCycle(g: Graph, s: Node)
    requires NonNegative(g)
    ensures !NegativeCycleReachable(g, s)
  {
    forall u, c | IsWalk(g, u, c, u) ensures Weight(c) >= 0.0 {
      NonNegativeWalk(g, u, c, u);
    }
  }
}
