/**
 * The priority queue of the search. A binary heap of `(distance, node)`
 * tuples is modelled by the multiset of tuples it holds: `heapq.heappush`
 * adds one, and `heapq.heappop` takes out the least, comparing tuples as
 * Python does (distance first, then the node label as a string).
 */
module Frontier {
  import opened Graphs

  /** A `(distance, node)` tuple of the heap. */
  datatype Entry = Entry(distance: nat, node: Node)

  /** Python's `a < b` on strings: lexicographic by code point, a proper prefix first. */
  predicate LabelBefore(a: Node, b: Node)
    decreases |a|
  {
    if |a| == 0 then |b| > 0
    else |b| > 0 && (a[0] < b[0] || (a[0] == b[0] && LabelBefore(a[1..], b[1..])))
  }

  /** Python's `x < y` on (distance, node) tuples. */
  predicate EntryBefore(x: Entry, y: Entry) {
    x.distance < y.distance || (x.distance == y.distance && LabelBefore(x.node, y.node))
  }

  lemma {:induction false} LabelBeforeIrreflexive(a: Node)
    ensures !LabelBefore(a, a)
    decreases |a|
  {
    if |a| > 0 {
      LabelBeforeIrreflexive(a[1..]);
    }
  }

  lemma {:induction false} LabelBeforeTransitive(a: Node, b: Node, c: Node)
    requires LabelBefore(a, b) && LabelBefore(b, c)
    ensures LabelBefore(a, c)
    decreases |a|
  {
    if |a| > 0 && a[0] == b[0] && b[0] == c[0] {
      LabelBeforeTransitive(a[1..], b[1..], c[1..]);
    }
  }

  /** Any two different labels are ordered one way or the other. */
  lemma {:induction false} LabelBeforeTotal(a: Node, b: Node)
    requires a != b
    ensures LabelBefore(a, b) || LabelBefore(b, a)
    decreases |a|
  {
    if |a| > 0 && |b| > 0 && a[0] == b[0] {
      assert a == [a[0]] + a[1..] && b == [b[0]] + b[1..];
      LabelBeforeTotal(a[1..], b[1..]);
    }
  }

  lemma EntryBeforeTransitive(x: Entry, y: Entry, z: Entry)
    requires EntryBefore(x, y) && EntryBefore(y, z)
    ensures EntryBefore(x, z)
  {
    if x.distance == y.distance == z.distance {
      LabelBeforeTransitive(x.node, y.node, z.node);
    }
  }

  /** `e` is what `heappop` returns from a heap holding `pq`: no tuple in it is smaller. */
  predicate IsLeast(pq: multiset<Entry>, e: Entry) {
    e in pq && forall x :: x in pq ==> !EntryBefore(x, e)
  }

  /** A non-empty heap has a least tuple, so `heappop` always has something to return. */
  lemma {:induction false} LeastExists(pq: multiset<Entry>)
    requires |pq| > 0
    ensures exists e :: IsLeast(pq, e)
    decreases |pq|
  {
    var x :| x in pq;
    var rest := pq - multiset{x};
    LabelBeforeIrreflexive(x.node);
    if |rest| == 0 {
      assert pq == multiset{x};
      assert IsLeast(pq, x);
    } else {
      LeastExists(rest);
      var y :| IsLeast(rest, y);
      if EntryBefore(x, y) {
        forall z | z in pq ensures !EntryBefore(z, x) {
          if z != x && EntryBefore(z, x) {
            assert z in rest;
            EntryBeforeTransitive(z, x, y);
          }
        }
        assert IsLeast(pq, x);
      } else {
        forall z | z in pq ensures !EntryBefore(z, y) {
          if z != x {
            assert z in rest;
          }
        }
        assert IsLeast(pq, y);
      }
    }
  }

  /** The least tuple is unique: which one `heappop` returns is fully determined. */
  lemma LeastUnique(pq: multiset<Entry>, e1: Entry, e2: Entry)
    requires IsLeast(pq, e1) && IsLeast(pq, e2)
    ensures e1 == e2
  {
    if e1.node != e2.node {
      LabelBeforeTotal(e1.node, e2.node);
    }
  }

  /** The least tuple carries the least distance in the heap. */
  lemma LeastDistance(pq: multiset<Entry>, e: Entry)
    requires IsLeast(pq, e)
    ensures forall x :: x in pq ==> e.distance <= x.distance
  {
  }
}
