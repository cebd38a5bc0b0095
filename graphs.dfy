/**
 * The route graph: a dictionary from node label to a dictionary from
 * neighbour label to a non-negative edge weight, and the paths through it.
 */
module Graphs {

  type Node = string

  type Graph = map<Node, map<Node, nat>>

  /** Every neighbour named in an adjacency dictionary is itself a node. */
  ghost predicate WellFormed(g: Graph) {
    forall u, v :: u in g && v in g[u] ==> v in g
  }

  /** Consecutive labels of `p` are joined by an edge of `g`. */
  ghost predicate IsWalk(g: Graph, p: seq<Node>) {
    forall i :: 0 <= i < |p| - 1 ==> p[i] in g && p[i + 1] in g[p[i]]
  }

  /** `p` is a walk of `g` from `s` to `t` (the one-node walk `[s]` goes from `s` to `s`). */
  ghost predicate IsPath(g: Graph, p: seq<Node>, s: Node, t: Node) {
    |p| > 0 && p[0] == s && p[|p| - 1] == t && IsWalk(g, p)
  }

  lemma DropLast(g: Graph, p: seq<Node>)
    requires IsWalk(g, p) && |p| > 0
    ensures IsWalk(g, p[..|p| - 1])
  {
    var q := p[..|p| - 1];
    forall i | 0 <= i < |q| - 1 ensures q[i] in g && q[i + 1] in g[q[i]] {
      assert q[i] == p[i] && q[i + 1] == p[i + 1];
    }
  }

  /** Total weight of the edges along a walk. */
  ghost function Weight(g: Graph, p: seq<Node>): (w: nat)
    requires IsWalk(g, p)
    decreases |p|
  {
    if |p| <= 1 then 0
    else
      DropLast(g, p);
      Weight(g, p[..|p| - 1]) + g[p[|p| - 2]][p[|p| - 1]]
  }

  ghost predicate Reachable(g: Graph, s: Node, t: Node) {
    exists p :: IsPath(g, p, s, t)
  }

  /** Some path from `s` to `t` weighs exactly `w`. */
  ghost predicate Witnessed(g: Graph, s: Node, t: Node, w: nat) {
    exists p :: IsPath(g, p, s, t) && Weight(g, p) == w
  }

  /** No path from `s` to `t` weighs less than `w`. */
  ghost predicate LowerBound(g: Graph, s: Node, t: Node, w: nat) {
    forall p :: IsPath(g, p, s, t) ==> w <= Weight(g, p)
  }

  /** `w` is the shortest-path distance from `s` to `t`. */
  ghost predicate IsShortest(g: Graph, s: Node, t: Node, w: nat) {
    Witnessed(g, s, t, w) && LowerBound(g, s, t, w)
  }

  /** The shortest distance is unique, whatever order a search explores ties in. */
  lemma ShortestUnique(g: Graph, s: Node, t: Node, w1: nat, w2: nat)
    requires IsShortest(g, s, t, w1) && IsShortest(g, s, t, w2)
    ensures w1 == w2
  {
    var p1 :| IsPath(g, p1, s, t) && Weight(g, p1) == w1;
    var p2 :| IsPath(g, p2, s, t) && Weight(g, p2) == w2;
    assert w2 <= Weight(g, p1) && w1 <= Weight(g, p2);
  }

  /** Every node is at distance 0 from itself. */
  lemma SelfShortest(g: Graph, s: Node)
    ensures IsShortest(g, s, s, 0)
  {
    assert IsPath(g, [s], s, s) && Weight(g, [s]) == 0;
  }

  /** Following one more edge adds its weight. */
  lemma Extend(g: Graph, p: seq<Node>, v: Node)
    requires IsWalk(g, p) && |p| > 0
    requires p[|p| - 1] in g && v in g[p[|p| - 1]]
    ensures IsWalk(g, p + [v])
    ensures Weight(g, p + [v]) == Weight(g, p) + g[p[|p| - 1]][v]
  {
    var q := p + [v];
    forall i | 0 <= i < |q| - 1 ensures q[i] in g && q[i + 1] in g[q[i]] {
      if i < |p| - 1 {
        assert q[i] == p[i] && q[i + 1] == p[i + 1];
      }
    }
    assert q[..|q| - 1] == p;
  }

  /** A path from `s` to `u` extended by the edge `u -> v` is a path from `s` to `v`. */
  lemma ExtendWitness(g: Graph, s: Node, u: Node, w: nat, v: Node)
    requires Witnessed(g, s, u, w)
    requires u in g && v in g[u]
    ensures Witnessed(g, s, v, w + g[u][v])
  {
    var p :| IsPath(g, p, s, u) && Weight(g, p) == w;
    Extend(g, p, v);
    assert IsPath(g, p + [v], s, v);
  }

  /** A prefix of a walk is a walk and weighs no more (weights are non-negative). */
  lemma {:induction false} PrefixWeight(g: Graph, p: seq<Node>, j: nat)
    requires IsWalk(g, p) && 1 <= j <= |p|
    ensures IsWalk(g, p[..j])
    ensures Weight(g, p[..j]) <= Weight(g, p)
    decreases |p|
  {
    if j < |p| {
      DropLast(g, p);
      var q := p[..|p| - 1];
      PrefixWeight(g, q, j);
      assert q[..j] == p[..j];
    } else {
      assert p[..j] == p;
    }
  }

  /**
   * A feasible potential bounds every path from below: if no edge `u -> v`
   * lets `pi` rise by more than its weight, no path can climb from
   * `pi[first]` to `pi[last]` for less than the difference.
   */
  ghost predicate Feasible(g: Graph, pi: map<Node, int>) {
    forall u, v :: u in g && v in g[u] ==> u in pi && v in pi && pi[v] <= pi[u] + g[u][v]
  }

  lemma {:induction false} PotentialBound(g: Graph, pi: map<Node, int>, p: seq<Node>)
    requires Feasible(g, pi)
    requires IsWalk(g, p) && |p| > 0 && p[0] in pi
    ensures p[|p| - 1] in pi
    ensures pi[p[|p| - 1]] - pi[p[0]] <= Weight(g, p)
    decreases |p|
  {
    if |p| > 1 {
      DropLast(g, p);
      var q := p[..|p| - 1];
      assert q[0] == p[0];
      PotentialBound(g, pi, q);
      assert p[|p| - 2] == q[|q| - 1];
    }
  }
}
