/**
 * Dijkstra's label-setting shortest-path search with a binary-heap frontier
 * and lazy deletion: an improved distance pushes a fresh tuple, and a stale
 * tuple is skipped when it is popped for an already finalised node.
 */
module ShortestPath {
  import opened Graphs
  import opened Frontier

  /** A distance, or `float('inf')` for "no route". */
  datatype Dist = Fin(n: nat) | Inf

  /** Python's `d < x` for an integer `d` and a tentative distance `x`. */
  predicate Improves(d: nat, x: Dist) {
    x.Inf? || d < x.n
  }

  /** `x <= d` for a tentative distance `x`. */
  predicate AtMost(x: Dist, d: nat) {
    x.Fin? && x.n <= d
  }

  /** `x` is no farther than `y`. */
  predicate NoWorse(x: Dist, y: Dist) {
    y.Inf? || (x.Fin? && x.n <= y.n)
  }

  // ---------------------------------------------------------------------
  // The state of the search between two pops, and while relaxing edges.
  // ---------------------------------------------------------------------

  /** Every finite tentative distance is the weight of a real path, and no queued tuple undercuts it. */
  ghost predicate Sound(g: Graph, start: Node, pq: multiset<Entry>, dist: map<Node, Dist>) {
    && dist.Keys == g.Keys + {start}
    && dist[start] == Fin(0)
    && (forall v :: v in dist && dist[v].Fin? ==> Witnessed(g, start, v, dist[v].n))
    && (forall e :: e in pq ==> e.node in dist && AtMost(dist[e.node], e.distance))
  }

  /** An unfinalised node with a finite tentative distance has that distance queued. */
  ghost predicate Tracked(pq: multiset<Entry>, dist: map<Node, Dist>, visited: set<Node>) {
    forall v :: v in dist && v !in visited && dist[v].Fin? ==> Entry(dist[v].n, v) in pq
  }

  /** Every edge out of a finalised node is relaxed, except `u -> y` for `y` in `todo`. */
  ghost predicate RelaxedBut(g: Graph, dist: map<Node, Dist>, visited: set<Node>, u: Node, todo: set<Node>) {
    forall x :: x in visited && x in g ==>
      x in dist && dist[x].Fin? &&
      forall y :: y in g[x] && (x == u ==> y !in todo) ==> y in dist && AtMost(dist[y], dist[x].n + g[x][y])
  }

  /** Every edge out of a finalised node is relaxed. */
  ghost predicate Relaxed(g: Graph, dist: map<Node, Dist>, visited: set<Node>) {
    forall x :: x in visited && x in g ==>
      x in dist && dist[x].Fin? &&
      forall y :: y in g[x] ==> y in dist && AtMost(dist[y], dist[x].n + g[x][y])
  }

  /** Finalised nodes are no farther than any queued tuple. */
  ghost predicate Settled(dist: map<Node, Dist>, visited: set<Node>, pq: multiset<Entry>) {
    && visited <= dist.Keys
    && forall x :: x in visited ==> forall e :: e in pq ==> AtMost(dist[x], e.distance)
  }

  /** What holds each time the `while priority_queue` loop tests its condition. */
  ghost predicate Searching(g: Graph, start: Node, end: Node, pq: multiset<Entry>, dist: map<Node, Dist>, visited: set<Node>) {
    && Sound(g, start, pq, dist)
    && Tracked(pq, dist, visited)
    && Relaxed(g, dist, visited)
    && Settled(dist, visited, pq)
    && visited <= g.Keys
    && end !in visited
  }

  /** What holds while the edges out of the just finalised node `u`, at distance `d`, are relaxed. */
  ghost predicate Relaxing(g: Graph, start: Node, end: Node, pq: multiset<Entry>, dist: map<Node, Dist>, visited: set<Node>,
                           u: Node, d: nat, todo: set<Node>) {
    && u in visited && u in g && todo <= g[u].Keys
    && Sound(g, start, pq, dist)
    && Tracked(pq, dist, visited)
    && RelaxedBut(g, dist, visited, u, todo)
    && Settled(dist, visited, pq)
    && (forall x :: x in visited ==> AtMost(dist[x], d))
    && dist[u] == Fin(d)
    && visited <= g.Keys
    && end !in visited
  }

  /** Tentative distances have only decreased, finalised ones are unchanged, and no queued tuple is lost. */
  ghost predicate Improved(dist: map<Node, Dist>, pq: multiset<Entry>, dist': map<Node, Dist>, pq': multiset<Entry>,
                           visited: set<Node>) {
    && dist'.Keys == dist.Keys
    && (forall x :: x in dist ==> NoWorse(dist'[x], dist[x]))
    && (forall x :: x in visited && x in dist ==> dist'[x] == dist[x])
    && pq <= pq'
  }

  // ---------------------------------------------------------------------
  // Why the frontier bounds every path.
  // ---------------------------------------------------------------------

  /**
   * A path from `start` that stays among finalised nodes up to its last
   * node is no shorter than that node's tentative distance.
   */
  lemma {:induction false} InsidePath(g: Graph, start: Node, dist: map<Node, Dist>, visited: set<Node>, p: seq<Node>)
    requires dist.Keys == g.Keys + {start} && dist[start] == Fin(0)
    requires Relaxed(g, dist, visited)
    requires |p| > 0 && p[0] == start && IsWalk(g, p)
    requires forall i :: 0 <= i < |p| - 1 ==> p[i] in visited
    ensures p[|p| - 1] in dist && AtMost(dist[p[|p| - 1]], Weight(g, p))
    decreases |p|
  {
    if |p| > 1 {
      DropLast(g, p);
      var q := p[..|p| - 1];
      assert forall i :: 0 <= i < |q| - 1 ==> q[i] == p[i];
      InsidePath(g, start, dist, visited, q);
      assert q[|q| - 1] == p[|p| - 2];
    }
  }

  /**
   * Every path from `start` to an unfinalised node crosses the frontier:
   * some queued tuple is no longer than the path.
   */
  lemma {:induction false} FrontierCut(g: Graph, start: Node, pq: multiset<Entry>, dist: map<Node, Dist>, visited: set<Node>,
                                       p: seq<Node>)
    requires dist.Keys == g.Keys + {start} && dist[start] == Fin(0)
    requires Tracked(pq, dist, visited) && Relaxed(g, dist, visited)
    requires |p| > 0 && p[0] == start && IsWalk(g, p) && p[|p| - 1] !in visited
    ensures exists e :: e in pq && e.distance <= Weight(g, p)
    decreases |p|
  {
    if i :| 0 <= i < |p| - 1 && p[i] !in visited {
      PrefixWeight(g, p, i + 1);
      FrontierCut(g, start, pq, dist, visited, p[..i + 1]);
    } else {
      InsidePath(g, start, dist, visited, p);
      var v := p[|p| - 1];
      assert Entry(dist[v].n, v) in pq;
    }
  }

  // ---------------------------------------------------------------------
  // One step of the search at a time.
  // ---------------------------------------------------------------------

  lemma Init(g: Graph, start: Node, end: Node)
    requires start in g || start == end
    ensures Searching(g, start, end, multiset{Entry(0, start)}, (map v | v in g :: Inf)[start := Fin(0)], {})
  {
    SelfShortest(g, start);
  }

  /** Popping a tuple for an already finalised node changes nothing but the heap. */
  lemma PopStale(g: Graph, start: Node, end: Node, pq: multiset<Entry>, dist: map<Node, Dist>, visited: set<Node>, e: Entry)
    requires Searching(g, start, end, pq, dist, visited)
    requires e in pq && e.node in visited
    ensures Searching(g, start, end, pq - multiset{e}, dist, visited)
  {
    var pq' := pq - multiset{e};
    forall v | v in dist && v !in visited && dist[v].Fin? ensures Entry(dist[v].n, v) in pq' {
      assert Entry(dist[v].n, v) != e;
    }
  }

  /**
   * Every node strictly closer to `start` than the least queued tuple is
   * already finalised: popping in distance order misses no nearer node.
   */
  lemma NearerFinalised(g: Graph, start: Node, pq: multiset<Entry>, dist: map<Node, Dist>, visited: set<Node>, e: Entry)
    requires Sound(g, start, pq, dist) && Tracked(pq, dist, visited) && Relaxed(g, dist, visited)
    requires IsLeast(pq, e)
    ensures forall v, w: nat :: IsShortest(g, start, v, w) && w < e.distance ==> v in visited
  {
    LeastDistance(pq, e);
    forall v, w: nat | IsShortest(g, start, v, w) && w < e.distance ensures v in visited {
      if v !in visited {
        var p :| IsPath(g, p, start, v) && Weight(g, p) == w;
        FrontierCut(g, start, pq, dist, visited, p);
      }
    }
  }

  /** The least queued tuple for an unfinalised node carries that node's exact shortest distance. */
  lemma PopExact(g: Graph, start: Node, pq: multiset<Entry>, dist: map<Node, Dist>, visited: set<Node>, e: Entry)
    requires Sound(g, start, pq, dist) && Tracked(pq, dist, visited) && Relaxed(g, dist, visited)
    requires IsLeast(pq, e) && e.node !in visited
    ensures e.node in dist && dist[e.node] == Fin(e.distance)
    ensures IsShortest(g, start, e.node, e.distance)
  {
    var d, u := e.distance, e.node;
    LeastDistance(pq, e);
    assert Entry(dist[u].n, u) in pq;
    forall p | IsPath(g, p, start, u) ensures d <= Weight(g, p) {
      FrontierCut(g, start, pq, dist, visited, p);
    }
  }

  lemma SoundAfterPop(g: Graph, start: Node, pq: multiset<Entry>, dist: map<Node, Dist>, e: Entry)
    requires Sound(g, start, pq, dist)
    ensures Sound(g, start, pq - multiset{e}, dist)
  {
  }

  lemma TrackedAfterPop(pq: multiset<Entry>, dist: map<Node, Dist>, visited: set<Node>, e: Entry)
    requires Tracked(pq, dist, visited) && e.node in dist && dist[e.node] == Fin(e.distance)
    ensures Tracked(pq - multiset{e}, dist, visited + {e.node})
  {
    var pq' := pq - multiset{e};
    forall v | v in dist && v !in visited + {e.node} && dist[v].Fin? ensures Entry(dist[v].n, v) in pq' {
      assert Entry(dist[v].n, v) != e;
    }
  }

  lemma SettledAfterPop(dist: map<Node, Dist>, visited: set<Node>, pq: multiset<Entry>, e: Entry)
    requires Settled(dist, visited, pq) && IsLeast(pq, e) && e.node in dist && dist[e.node] == Fin(e.distance)
    ensures Settled(dist, visited + {e.node}, pq - multiset{e})
    ensures forall x :: x in visited + {e.node} ==> AtMost(dist[x], e.distance)
  {
    LeastDistance(pq, e);
  }

  lemma RelaxedAfterPop(g: Graph, dist: map<Node, Dist>, visited: set<Node>, u: Node, d: nat)
    requires Relaxed(g, dist, visited) && u in g && u in dist && dist[u] == Fin(d)
    ensures RelaxedBut(g, dist, visited + {u}, u, g[u].Keys)
  {
  }

  /**
   * Popping the least tuple for an unfinalised node `u` finds the exact
   * shortest distance of `u`, and finalising `u` starts the relaxation of
   * its edges.
   */
  lemma PopFresh(g: Graph, start: Node, end: Node, pq: multiset<Entry>, dist: map<Node, Dist>, visited: set<Node>, e: Entry)
    requires WellFormed(g) && (start in g || start == end)
    requires Searching(g, start, end, pq, dist, visited)
    requires IsLeast(pq, e) && e.node !in visited
    ensures e.node in dist && dist[e.node] == Fin(e.distance)
    ensures IsShortest(g, start, e.node, e.distance)
    ensures e.node != end ==>
      Relaxing(g, start, end, pq - multiset{e}, dist, visited + {e.node}, e.node, e.distance, g[e.node].Keys)
  {
    PopExact(g, start, pq, dist, visited, e);
    SoundAfterPop(g, start, pq, dist, e);
    TrackedAfterPop(pq, dist, visited, e);
    SettledAfterPop(dist, visited, pq, e);
    if e.node != end {
      RelaxedAfterPop(g, dist, visited, e.node, e.distance);
    }
  }

  lemma SoundAfterImprove(g: Graph, start: Node, pq: multiset<Entry>, dist: map<Node, Dist>, u: Node, d: nat, v: Node)
    requires WellFormed(g) && Sound(g, start, pq, dist)
    requires u in g && v in g[u] && dist[u] == Fin(d) && Improves(d + g[u][v], dist[v])
    ensures Sound(g, start, pq + multiset{Entry(d + g[u][v], v)}, dist[v := Fin(d + g[u][v])])
  {
    var distance := d + g[u][v];
    var dist' := dist[v := Fin(distance)];
    ExtendWitness(g, start, u, d, v);
    assert dist'.Keys == dist.Keys;
    forall x | x in dist' && dist'[x].Fin? ensures Witnessed(g, start, x, dist'[x].n) {
      if x != v {
        assert dist'[x] == dist[x];
      }
    }
  }

  lemma TrackedAfterImprove(pq: multiset<Entry>, dist: map<Node, Dist>, visited: set<Node>, v: Node, distance: nat)
    requires Tracked(pq, dist, visited)
    ensures Tracked(pq + multiset{Entry(distance, v)}, dist[v := Fin(distance)], visited)
  {
  }

  lemma SettledAfterImprove(dist: map<Node, Dist>, visited: set<Node>, pq: multiset<Entry>, d: nat, v: Node, distance: nat)
    requires Settled(dist, visited, pq) && v in dist
    requires forall x :: x in visited ==> AtMost(dist[x], d)
    requires d <= distance && Improves(distance, dist[v])
    ensures v !in visited
    ensures Settled(dist[v := Fin(distance)], visited, pq + multiset{Entry(distance, v)})
    ensures forall x :: x in visited ==> AtMost(dist[v := Fin(distance)][x], d)
  {
  }

  lemma ImprovedAfterImprove(dist0: map<Node, Dist>, pq0: multiset<Entry>, dist: map<Node, Dist>, pq: multiset<Entry>,
                             visited: set<Node>, v: Node, distance: nat)
    requires Improved(dist0, pq0, dist, pq, visited)
    requires v in dist && v !in visited && Improves(distance, dist[v])
    ensures Improved(dist0, pq0, dist[v := Fin(distance)], pq + multiset{Entry(distance, v)}, visited)
  {
  }

  lemma RelaxedAfterImprove(g: Graph, dist: map<Node, Dist>, visited: set<Node>, u: Node, d: nat, todo: set<Node>, v: Node)
    requires RelaxedBut(g, dist, visited, u, todo) && u in g && v in g[u] && v in dist
    requires u in visited && u in dist && dist[u] == Fin(d) && v !in visited && Improves(d + g[u][v], dist[v])
    ensures RelaxedBut(g, dist[v := Fin(d + g[u][v])], visited, u, todo - {v})
  {
    var dist' := dist[v := Fin(d + g[u][v])];
    forall x | x in visited && x in g
      ensures x in dist' && dist'[x].Fin? &&
        forall y :: y in g[x] && (x == u ==> y !in todo - {v}) ==> y in dist' && AtMost(dist'[y], dist'[x].n + g[x][y])
    {
      assert dist'[x] == dist[x];
      forall y | y in g[x] && (x == u ==> y !in todo - {v}) ensures y in dist' && AtMost(dist'[y], dist'[x].n + g[x][y]) {
        if !(x == u && y == v) {
          assert x == u ==> y !in todo;
        }
      }
    }
  }

  lemma RelaxingIntro(g: Graph, start: Node, end: Node, pq: multiset<Entry>, dist: map<Node, Dist>, visited: set<Node>,
                      u: Node, d: nat, todo: set<Node>)
    requires u in visited && u in g && todo <= g[u].Keys
    requires Sound(g, start, pq, dist) && Tracked(pq, dist, visited)
    requires RelaxedBut(g, dist, visited, u, todo) && Settled(dist, visited, pq)
    requires (forall x :: x in visited ==> AtMost(dist[x], d)) && dist[u] == Fin(d)
    requires visited <= g.Keys && end !in visited
    ensures Relaxing(g, start, end, pq, dist, visited, u, d, todo)
  {
  }

  /** A neighbour reached more cheaply through `u` gets the new distance and a fresh heap tuple. */
  lemma RelaxImproves(g: Graph, start: Node, end: Node, visited: set<Node>, u: Node, d: nat, todo: set<Node>, v: Node,
                      pq0: multiset<Entry>, dist0: map<Node, Dist>, pq: multiset<Entry>, dist: map<Node, Dist>)
    requires WellFormed(g)
    requires Relaxing(g, start, end, pq, dist, visited, u, d, todo) && Improved(dist0, pq0, dist, pq, visited)
    requires v in todo && Improves(d + g[u][v], dist[v])
    ensures Relaxing(g, start, end, pq + multiset{Entry(d + g[u][v], v)}, dist[v := Fin(d + g[u][v])], visited, u, d, todo - {v})
    ensures Improved(dist0, pq0, dist[v := Fin(d + g[u][v])], pq + multiset{Entry(d + g[u][v], v)}, visited)
  {
    var distance := d + g[u][v];
    SoundAfterImprove(g, start, pq, dist, u, d, v);
    TrackedAfterImprove(pq, dist, visited, v, distance);
    SettledAfterImprove(dist, visited, pq, d, v, distance);
    RelaxedAfterImprove(g, dist, visited, u, d, todo, v);
    ImprovedAfterImprove(dist0, pq0, dist, pq, visited, v, distance);
    RelaxingIntro(g, start, end, pq + multiset{Entry(distance, v)}, dist[v := Fin(distance)], visited, u, d, todo - {v});
  }

  /** A neighbour not reached more cheaply through `u` keeps its distance. */
  lemma RelaxKeeps(g: Graph, start: Node, end: Node, visited: set<Node>, u: Node, d: nat, todo: set<Node>, v: Node,
                   pq: multiset<Entry>, dist: map<Node, Dist>)
    requires WellFormed(g)
    requires Relaxing(g, start, end, pq, dist, visited, u, d, todo)
    requires v in todo && !Improves(d + g[u][v], dist[v])
    ensures Relaxing(g, start, end, pq, dist, visited, u, d, todo - {v})
  {
    assert RelaxedBut(g, dist, visited, u, todo - {v});
  }

  lemma AllRelaxed(g: Graph, start: Node, end: Node, pq: multiset<Entry>, dist: map<Node, Dist>, visited: set<Node>,
                   u: Node, d: nat)
    requires Relaxing(g, start, end, pq, dist, visited, u, d, {})
    ensures Searching(g, start, end, pq, dist, visited)
  {
  }

  /** A search that ran out of queued tuples never met `end`: no path leads there. */
  lemma Exhausted(g: Graph, start: Node, end: Node, dist: map<Node, Dist>, visited: set<Node>)
    requires Searching(g, start, end, multiset{}, dist, visited)
    ensures !Reachable(g, start, end)
    ensures forall v :: Reachable(g, start, v) <==> v in visited
  {
    forall v ensures Reachable(g, start, v) <==> v in visited {
      if v in visited {
        assert Witnessed(g, start, v, dist[v].n);
      } else {
        forall p | IsPath(g, p, start, v) ensures false {
          FrontierCut(g, start, multiset{}, dist, visited, p);
        }
      }
    }
  }

  // ---------------------------------------------------------------------
  // The finalisation trace.
  // ---------------------------------------------------------------------

  /**
   * The trace of finalised nodes: each finalised once, in nondecreasing
   * order of distance, each at its exact shortest distance.
   */
  ghost predicate FinalisedInOrder(g: Graph, start: Node, settled: seq<Entry>) {
    && (forall i, j :: 0 <= i < j < |settled| ==> settled[i].node != settled[j].node)
    && (forall i, j :: 0 <= i < j < |settled| ==> settled[i].distance <= settled[j].distance)
    && (forall i :: 0 <= i < |settled| ==> IsShortest(g, start, settled[i].node, settled[i].distance))
  }

  /** The trace agrees with the search state: its nodes are finalised, at their kept distances. */
  ghost predicate Traced(dist: map<Node, Dist>, visited: set<Node>, settled: seq<Entry>) {
    forall i :: 0 <= i < |settled| ==>
      settled[i].node in visited && settled[i].node in dist && dist[settled[i].node] == Fin(settled[i].distance)
  }

  lemma Finalise(g: Graph, start: Node, pq: multiset<Entry>, dist: map<Node, Dist>, visited: set<Node>,
                 settled: seq<Entry>, e: Entry)
    requires Settled(dist, visited, pq)
    requires FinalisedInOrder(g, start, settled) && Traced(dist, visited, settled)
    requires e in pq && e.node !in visited && IsShortest(g, start, e.node, e.distance)
    requires e.node in dist && dist[e.node] == Fin(e.distance)
    ensures FinalisedInOrder(g, start, settled + [e])
    ensures Traced(dist, visited + {e.node}, settled + [e])
  {
    var s' := settled + [e];
    forall i | 0 <= i < |settled| ensures settled[i].node != e.node && settled[i].distance <= e.distance {
      assert AtMost(dist[settled[i].node], e.distance);
    }
    assert forall i :: 0 <= i < |settled| ==> s'[i] == settled[i];
  }

  /** The nodes a trace finalised. */
  ghost function Nodes(settled: seq<Entry>): (s: set<Node>)
    decreases |settled|
  {
    if |settled| == 0 then {} else Nodes(settled[..|settled| - 1]) + {settled[|settled| - 1].node}
  }

  lemma NodesAppend(settled: seq<Entry>, e: Entry)
    ensures Nodes(settled + [e]) == Nodes(settled) + {e.node}
  {
    assert (settled + [e])[..|settled|] == settled;
  }

  ghost predicate EndsWith(s: seq<Entry>, e: Entry) {
    |s| > 0 && s[|s| - 1] == e
  }

  lemma EndsWithAppend(s: seq<Entry>, e: Entry)
    ensures EndsWith(s + [e], e)
  {
  }

  lemma TracedAfterRelax(dist: map<Node, Dist>, dist': map<Node, Dist>, pq: multiset<Entry>, pq': multiset<Entry>,
                         visited: set<Node>, settled: seq<Entry>)
    requires Traced(dist, visited, settled) && Improved(dist, pq, dist', pq', visited)
    ensures Traced(dist', visited, settled)
  {
  }

  // ---------------------------------------------------------------------
  // What one pass over the edges of a finalised node computes.
  // ---------------------------------------------------------------------

  /**
   * The state once the edges from `u`, finalised at `d`, to every
   * neighbour not in `todo` are relaxed, starting from `dist` and `pq`: a
   * neighbour strictly closer through `u` has `d` plus the edge weight and
   * one tuple for it was pushed; every other node keeps its distance and
   * nothing else was pushed.
   */
  ghost predicate RelaxedPass(g: Graph, dist: map<Node, Dist>, pq: multiset<Entry>, u: Node, d: nat, todo: set<Node>,
                              dist': map<Node, Dist>, pq': multiset<Entry>)
    requires u in g
  {
    && dist'.Keys == dist.Keys
    && (forall x :: x in dist ==>
          dist'[x] == if x in g[u] && x !in todo && Improves(d + g[u][x], dist[x]) then Fin(d + g[u][x]) else dist[x])
    && (forall e :: pq'[e] == pq[e] +
          if e.node in g[u] && e.node !in todo && e.node in dist && e.distance == d + g[u][e.node]
             && Improves(e.distance, dist[e.node]) then 1 else 0)
  }

  /** Relaxing an edge `u -> v` that improves `v` stores the new distance and pushes one tuple. */
  lemma PassImproves(g: Graph, dist: map<Node, Dist>, pq: multiset<Entry>, u: Node, d: nat, todo: set<Node>, v: Node,
                     dist': map<Node, Dist>, pq': multiset<Entry>)
    requires u in g && v in todo && v in g[u] && v in dist
    requires RelaxedPass(g, dist, pq, u, d, todo, dist', pq')
    requires Improves(d + g[u][v], dist'[v])
    ensures RelaxedPass(g, dist, pq, u, d, todo - {v}, dist'[v := Fin(d + g[u][v])], pq' + multiset{Entry(d + g[u][v], v)})
  {
    assert dist'[v] == dist[v];
  }

  /** Relaxing an edge `u -> v` that does not improve `v` changes nothing. */
  lemma PassKeeps(g: Graph, dist: map<Node, Dist>, pq: multiset<Entry>, u: Node, d: nat, todo: set<Node>, v: Node,
                  dist': map<Node, Dist>, pq': multiset<Entry>)
    requires u in g && v in todo && v in g[u] && v in dist
    requires RelaxedPass(g, dist, pq, u, d, todo, dist', pq')
    requires !Improves(d + g[u][v], dist'[v])
    ensures RelaxedPass(g, dist, pq, u, d, todo - {v}, dist', pq')
  {
    assert dist'[v] == dist[v];
  }

  // ---------------------------------------------------------------------
  // The search.
  // ---------------------------------------------------------------------

  /**
   * The `for neighbor, weight in graph[current_node].items()` loop: relax
   * every edge out of the just finalised node `u`, at distance `d`.
   * Each neighbour strictly closer through `u` gets the shorter distance
   * and one new heap tuple; nothing else changes.
   */
  method RelaxEdges(g: Graph, ghost start: Node, ghost end: Node, pq: multiset<Entry>, dist: map<Node, Dist>,
                    ghost visited: set<Node>, u: Node, d: nat)
    returns (pq': multiset<Entry>, dist': map<Node, Dist>)
    requires WellFormed(g)
    requires u in g && Relaxing(g, start, end, pq, dist, visited, u, d, g[u].Keys)
    ensures Searching(g, start, end, pq', dist', visited)
    ensures Improved(dist, pq, dist', pq', visited)
    ensures RelaxedPass(g, dist, pq, u, d, {}, dist', pq')
  {
    pq', dist' := pq, dist;
    var todo := g[u].Keys;
    while todo != {}
      invariant Relaxing(g, start, end, pq', dist', visited, u, d, todo)
      invariant Improved(dist, pq, dist', pq', visited)
      invariant RelaxedPass(g, dist, pq, u, d, todo, dist', pq')
      decreases todo
    {
      var v :| v in todo;
      var distance := d + g[u][v];
      if Improves(distance, dist'[v]) {
        PassImproves(g, dist, pq, u, d, todo, v, dist', pq');
        RelaxImproves(g, start, end, visited, u, d, todo, v, pq, dist, pq', dist');
        dist' := dist'[v := Fin(distance)];
        pq' := pq' + multiset{Entry(distance, v)};
      } else {
        PassKeeps(g, dist, pq, u, d, todo, v, dist', pq');
        RelaxKeeps(g, start, end, visited, u, d, todo, v, pq', dist');
      }
      todo := todo - {v};
    }
    AllRelaxed(g, start, end, pq', dist', visited, u, d);
  }

  /**
   * `dijkstra(graph, start, end)`: the shortest-path distance from `start`
   * to `end`, or `Inf` when `end` cannot be reached. The ghost `settled`
   * records the nodes the search finalised, in the order it did.
   */
  method Dijkstra(g: Graph, start: Node, end: Node) returns (r: Dist, ghost settled: seq<Entry>)
    requires WellFormed(g)
    requires start in g || start == end
    ensures r.Fin? <==> Reachable(g, start, end)
    ensures r.Fin? ==> IsShortest(g, start, end, r.n)
    ensures start == end ==> r == Fin(0)
    ensures FinalisedInOrder(g, start, settled)
    ensures r.Fin? ==> EndsWith(settled, Entry(r.n, end))
    ensures r.Inf? ==> forall v :: v in Nodes(settled) <==> Reachable(g, start, v)
    ensures r.Fin? ==> forall v, w: nat :: IsShortest(g, start, v, w) && w < r.n ==> v in Nodes(settled)
  {
    var pq: multiset<Entry> := multiset{Entry(0, start)};
    var dist: map<Node, Dist> := map v | v in g :: Inf;
    dist := dist[start := Fin(0)];
    var visited: set<Node> := {};
    settled := [];
    Init(g, start, end);

    while pq != multiset{}
      invariant Searching(g, start, end, pq, dist, visited)
      invariant FinalisedInOrder(g, start, settled) && Traced(dist, visited, settled)
      invariant visited == Nodes(settled)
      decreases g.Keys - visited, |pq|
    {
      LeastExists(pq);
      var e :| IsLeast(pq, e);
      var d, u := e.distance, e.node;
      if u in visited {
        PopStale(g, start, end, pq, dist, visited, e);
        pq := pq - multiset{e};
        continue;
      }
      PopFresh(g, start, end, pq, dist, visited, e);
      Finalise(g, start, pq, dist, visited, settled, e);
      if u == end {
        NearerFinalised(g, start, pq, dist, visited, e);
      }
      pq := pq - multiset{e};
      visited := visited + {u};
      if u == end {
        if start == end {
          SelfShortest(g, start);
          ShortestUnique(g, start, end, d, 0);
        }
        EndsWithAppend(settled, e);
        NodesAppend(settled, e);
        return Fin(d), settled + [e];
      }
      NodesAppend(settled, e);
      settled := settled + [e];
      ghost var dist0, pq0 := dist, pq;
      pq, dist := RelaxEdges(g, start, end, pq, dist, visited, u, d);
      TracedAfterRelax(dist0, dist, pq0, pq, visited, settled);
    }
    Exhausted(g, start, end, dist, visited);
    return Inf, settled;
  }
}
