/**
 What the forest shape is for: no node has two parents, and the recursive
 `linx_yaml_node_free` reaches exactly the nodes below its argument, each once.
 */
module YamlFree {
  import opened Basics
  import opened YamlMachine
  import opened YamlLoader

  /** In a forest no node is linked from two places. */
  lemma OneParent(heap: Heap, parent: seq<Option<nat>>, p: nat, i: nat, q: nat, j: nat)
    requires Forest(heap, parent)
    requires p < |heap| && i < |heap[p].children| && q < |heap| && j < |heap[q].children|
    requires heap[p].children[i] == heap[q].children[j]
    ensures p == q && i == j
  {
    assert LinkOk(heap, parent, p, heap[p].children[i]);
    assert LinkOk(heap, parent, q, heap[q].children[j]);
  }

  /** `x` is `p` or can be reached from it through children arrays. */
  ghost predicate Below(heap: Heap, p: nat, x: nat)
    decreases x
  {
    x == p || exists q: nat :: q < x && q < |heap| && x in heap[q].children && Below(heap, p, q)
  }

  /** The order in which the recursive free releases nodes: children first. */
  function FreeOrder(heap: Heap, parent: seq<Option<nat>>, p: nat): seq<nat>
    requires Forest(heap, parent) && p < |heap|
    decreases |heap| - p, 1, 0
  {
    FreeFirst(heap, parent, p, |heap[p].children|) + [p]
  }

  function FreeFirst(heap: Heap, parent: seq<Option<nat>>, p: nat, n: nat): seq<nat>
    requires Forest(heap, parent) && p < |heap| && n <= |heap[p].children|
    decreases |heap| - p, 0, n
  {
    if n == 0 then []
    else
      var c := heap[p].children[n - 1];
      assert LinkOk(heap, parent, p, c);
      FreeFirst(heap, parent, p, n - 1) + FreeOrder(heap, parent, c)
  }

  /** The recursive free itself: its loop over the children, then the node. */
  method Free(heap: Heap, ghost parent: seq<Option<nat>>, p: nat) returns (freed: seq<nat>)
    requires Forest(heap, parent) && p < |heap|
    ensures freed == FreeOrder(heap, parent, p)
    decreases |heap| - p
  {
    freed := [];
    for i := 0 to |heap[p].children|
      invariant freed == FreeFirst(heap, parent, p, i)
    {
      assert LinkOk(heap, parent, p, heap[p].children[i]);
      var below := Free(heap, parent, heap[p].children[i]);
      freed := freed + below;
    }
    freed := freed + [p];
  }

  lemma {:induction false} BelowStep(heap: Heap, p: nat, c: nat, x: nat)
    requires p < |heap| && p < c && c in heap[p].children && Below(heap, c, x)
    ensures Below(heap, p, x)
    decreases x
  {
    if x == c {
      assert Below(heap, p, p);
    } else {
      var q: nat :| q < x && q < |heap| && x in heap[q].children && Below(heap, c, q);
      BelowStep(heap, p, c, q);
    }
  }

  lemma {:induction false} BelowIsLater(heap: Heap, p: nat, x: nat)
    requires Below(heap, p, x)
    ensures p <= x
    decreases x
  {
    if x != p {
      var q: nat :| q < x && q < |heap| && x in heap[q].children && Below(heap, p, q);
      BelowIsLater(heap, p, q);
    }
  }

  lemma {:induction false} FreedAreBelow(heap: Heap, parent: seq<Option<nat>>, p: nat, x: nat)
    requires Forest(heap, parent) && p < |heap| && x in FreeOrder(heap, parent, p)
    ensures Below(heap, p, x)
    decreases |heap| - p, 1, 0
  {
    if x != p {
      FreedFirstAreBelow(heap, parent, p, |heap[p].children|, x);
    }
  }

  lemma {:induction false} FreedFirstAreBelow(heap: Heap, parent: seq<Option<nat>>, p: nat, n: nat, x: nat)
    requires Forest(heap, parent) && p < |heap| && n <= |heap[p].children| && x in FreeFirst(heap, parent, p, n)
    ensures exists i :: 0 <= i < n && Below(heap, heap[p].children[i], x)
    ensures Below(heap, p, x)
    decreases |heap| - p, 0, n
  {
    var c := heap[p].children[n - 1];
    assert LinkOk(heap, parent, p, c);
    if x in FreeFirst(heap, parent, p, n - 1) {
      FreedFirstAreBelow(heap, parent, p, n - 1, x);
    } else {
      FreedAreBelow(heap, parent, c, x);
      BelowStep(heap, p, c, x);
    }
  }

  lemma {:induction false} ChildrenAreFreed(heap: Heap, parent: seq<Option<nat>>, p: nat, q: nat, k: nat)
    requires Forest(heap, parent) && p < |heap| && q in FreeOrder(heap, parent, p)
    requires q < |heap| && k < |heap[q].children|
    ensures heap[q].children[k] in FreeOrder(heap, parent, p)
    decreases |heap| - p, 1, 0
  {
    if q == p {
      FirstContains(heap, parent, p, |heap[p].children|, k);
    } else {
      ChildrenOfFirst(heap, parent, p, |heap[p].children|, q, k);
    }
  }

  lemma {:induction false} ChildrenOfFirst(heap: Heap, parent: seq<Option<nat>>, p: nat, n: nat, q: nat, k: nat)
    requires Forest(heap, parent) && p < |heap| && n <= |heap[p].children| && q in FreeFirst(heap, parent, p, n)
    requires q < |heap| && k < |heap[q].children|
    ensures heap[q].children[k] in FreeFirst(heap, parent, p, n)
    decreases |heap| - p, 0, n
  {
    var c := heap[p].children[n - 1];
    assert LinkOk(heap, parent, p, c);
    if q in FreeFirst(heap, parent, p, n - 1) {
      ChildrenOfFirst(heap, parent, p, n - 1, q, k);
    } else {
      ChildrenAreFreed(heap, parent, c, q, k);
    }
  }

  lemma {:induction false} FirstContains(heap: Heap, parent: seq<Option<nat>>, p: nat, n: nat, k: nat)
    requires Forest(heap, parent) && p < |heap| && k < n <= |heap[p].children|
    ensures heap[p].children[k] in FreeFirst(heap, parent, p, n)
    decreases n
  {
    if k < n - 1 {
      FirstContains(heap, parent, p, n - 1, k);
    } else {
      var c := heap[p].children[k];
      assert LinkOk(heap, parent, p, c);
      assert c in FreeOrder(heap, parent, c);
    }
  }

  lemma {:induction false} BelowAreFreed(heap: Heap, parent: seq<Option<nat>>, p: nat, x: nat)
    requires Forest(heap, parent) && p < |heap| && Below(heap, p, x)
    ensures x in FreeOrder(heap, parent, p)
    decreases x
  {
    if x != p {
      var q: nat :| q < x && q < |heap| && x in heap[q].children && Below(heap, p, q);
      BelowAreFreed(heap, parent, p, q);
      var k :| 0 <= k < |heap[q].children| && heap[q].children[k] == x;
      ChildrenAreFreed(heap, parent, p, q, k);
    }
  }

  /** The ancestors of a node lie on one line. */
  lemma {:induction false} AncestorsInLine(heap: Heap, parent: seq<Option<nat>>, a: nat, b: nat, x: nat)
    requires Forest(heap, parent) && Below(heap, a, x) && Below(heap, b, x)
    ensures Below(heap, a, b) || Below(heap, b, a)
    decreases x
  {
    if x != a && x != b {
      var q: nat :| q < x && q < |heap| && x in heap[q].children && Below(heap, a, q);
      var r: nat :| r < x && r < |heap| && x in heap[r].children && Below(heap, b, r);
      var i :| 0 <= i < |heap[q].children| && heap[q].children[i] == x;
      var j :| 0 <= j < |heap[r].children| && heap[r].children[j] == x;
      OneParent(heap, parent, q, i, r, j);
      AncestorsInLine(heap, parent, a, b, q);
    }
  }

  /** Nothing lies below two children of the same node. */
  lemma SiblingsApart(heap: Heap, parent: seq<Option<nat>>, p: nat, i: nat, j: nat, x: nat)
    requires Forest(heap, parent) && p < |heap| && i < j < |heap[p].children|
    requires Below(heap, heap[p].children[i], x)
    ensures !Below(heap, heap[p].children[j], x)
  {
    var a, b := heap[p].children[i], heap[p].children[j];
    if Below(heap, b, x) {
      AncestorsInLine(heap, parent, a, b, x);
      NotBelowSibling(heap, parent, p, i, j);
      NotBelowSibling(heap, parent, p, j, i);
    }
  }

  lemma NotBelowSibling(heap: Heap, parent: seq<Option<nat>>, p: nat, i: nat, j: nat)
    requires Forest(heap, parent) && p < |heap| && i < |heap[p].children| && j < |heap[p].children| && i != j
    ensures !Below(heap, heap[p].children[i], heap[p].children[j])
  {
    var a, b := heap[p].children[i], heap[p].children[j];
    assert LinkOk(heap, parent, p, a) && LinkOk(heap, parent, p, b);
    if Below(heap, a, b) {
      var q: nat :| q < b && q < |heap| && b in heap[q].children && Below(heap, a, q);
      var k :| 0 <= k < |heap[q].children| && heap[q].children[k] == b;
      OneParent(heap, parent, q, k, p, j);
      BelowIsLater(heap, a, p);
    }
  }

  lemma {:induction false} FreedFirstOnce(heap: Heap, parent: seq<Option<nat>>, p: nat, n: nat)
    requires Forest(heap, parent) && p < |heap| && n <= |heap[p].children|
    ensures forall i, j :: 0 <= i < j < |FreeFirst(heap, parent, p, n)| ==>
              FreeFirst(heap, parent, p, n)[i] != FreeFirst(heap, parent, p, n)[j]
    decreases |heap| - p, 0, n
  {
    if n > 0 {
      var c := heap[p].children[n - 1];
      assert LinkOk(heap, parent, p, c);
      FreedFirstOnce(heap, parent, p, n - 1);
      FreedOnce(heap, parent, c);
      var before, last := FreeFirst(heap, parent, p, n - 1), FreeOrder(heap, parent, c);
      forall i, j | 0 <= i < |before| && 0 <= j < |last| ensures before[i] != last[j] {
        if before[i] == last[j] {
          FreedFirstAreBelow(heap, parent, p, n - 1, before[i]);
          var k :| 0 <= k < n - 1 && Below(heap, heap[p].children[k], before[i]);
          FreedAreBelow(heap, parent, c, last[j]);
          SiblingsApart(heap, parent, p, k, n - 1, before[i]);
        }
      }
    }
  }

  lemma {:induction false} FreedOnce(heap: Heap, parent: seq<Option<nat>>, p: nat)
    requires Forest(heap, parent) && p < |heap|
    ensures forall i, j :: 0 <= i < j < |FreeOrder(heap, parent, p)| ==>
              FreeOrder(heap, parent, p)[i] != FreeOrder(heap, parent, p)[j]
    decreases |heap| - p, 1, 0
  {
    FreedFirstOnce(heap, parent, p, |heap[p].children|);
    var first := FreeFirst(heap, parent, p, |heap[p].children|);
    forall i | 0 <= i < |first| ensures first[i] != p {
      FreedFirstAreBelow(heap, parent, p, |heap[p].children|, first[i]);
      var k :| 0 <= k < |heap[p].children| && Below(heap, heap[p].children[k], first[i]);
      assert LinkOk(heap, parent, p, heap[p].children[k]);
      BelowIsLater(heap, heap[p].children[k], first[i]);
    }
  }

  /** The recursive free releases exactly the nodes below its argument, each of them once. */
  lemma FreeReleasesEachOnce(heap: Heap, parent: seq<Option<nat>>, p: nat)
    requires Forest(heap, parent) && p < |heap|
    ensures var freed := FreeOrder(heap, parent, p);
            && (forall x: nat :: x in freed <==> Below(heap, p, x))
            && (forall i, j :: 0 <= i < j < |freed| ==> freed[i] != freed[j])
  {
    FreedOnce(heap, parent, p);
    forall x: nat ensures x in FreeOrder(heap, parent, p) <==> Below(heap, p, x) {
      if x in FreeOrder(heap, parent, p) { FreedAreBelow(heap, parent, p, x); }
      if Below(heap, p, x) { BelowAreFreed(heap, parent, p, x); }
    }
  }

  /** No node comes before one of its children. */
  ghost predicate ChildrenFirst(heap: Heap, freed: seq<nat>) {
    forall i, j :: 0 <= i < j < |freed| && freed[i] < |heap| ==> freed[j] !in heap[freed[i]].children
  }

  lemma {:induction false} FirstIsOrdered(heap: Heap, parent: seq<Option<nat>>, p: nat, n: nat)
    requires Forest(heap, parent) && p < |heap| && n <= |heap[p].children|
    ensures ChildrenFirst(heap, FreeFirst(heap, parent, p, n))
    decreases |heap| - p, 0, n
  {
    hide Forest;
    if n > 0 {
      ChildIsLater(heap, parent, p, n - 1);
      var c := heap[p].children[n - 1];
      FirstIsOrdered(heap, parent, p, n - 1);
      ReleasesChildrenFirst(heap, parent, c);
      var before, last := FreeFirst(heap, parent, p, n - 1), FreeOrder(heap, parent, c);
      forall i, j | 0 <= i < |before| && 0 <= j < |last| && before[i] < |heap|
        ensures last[j] !in heap[before[i]].children
      {
        NoLinkAcross(heap, parent, p, n, before[i], last[j]);
      }
    }
  }

  lemma ChildIsLater(heap: Heap, parent: seq<Option<nat>>, p: nat, k: nat)
    requires Forest(heap, parent) && p < |heap| && k < |heap[p].children|
    ensures p < heap[p].children[k] < |heap| == |parent| && parent[heap[p].children[k]] == Some(p)
  {
    assert LinkOk(heap, parent, p, heap[p].children[k]);
  }

  /** A node under an earlier child does not link to one under a later child. */
  lemma NoLinkAcross(heap: Heap, parent: seq<Option<nat>>, p: nat, n: nat, x: nat, y: nat)
    requires Forest(heap, parent) && p < |heap| && 0 < n <= |heap[p].children| && x < |heap|
    requires x in FreeFirst(heap, parent, p, n - 1)
    requires heap[p].children[n - 1] < |heap| && y in FreeOrder(heap, parent, heap[p].children[n - 1])
    ensures y !in heap[x].children
  {
    hide Forest;
    var c := heap[p].children[n - 1];
    FreedFirstAreBelow(heap, parent, p, n - 1, x);
    var k :| 0 <= k < n - 1 && Below(heap, heap[p].children[k], x);
    FreedAreBelow(heap, parent, c, y);
    if i :| 0 <= i < |heap[x].children| && heap[x].children[i] == y {
      ChildIsLater(heap, parent, x, i);
      ChildIsLater(heap, parent, p, k);
      ChildIsLater(heap, parent, p, n - 1);
      BelowIsLater(heap, heap[p].children[k], x);
      var q: nat :| q < y && q < |heap| && y in heap[q].children && Below(heap, c, q);
      var j :| 0 <= j < |heap[q].children| && heap[q].children[j] == y;
      OneParent(heap, parent, q, j, x, i);
      SiblingsApart(heap, parent, p, k, n - 1, x);
    }
  }

  /** The recursive free releases every node after all of its children, so no released node is read again. */
  lemma {:induction false} ReleasesChildrenFirst(heap: Heap, parent: seq<Option<nat>>, p: nat)
    requires Forest(heap, parent) && p < |heap|
    ensures ChildrenFirst(heap, FreeOrder(heap, parent, p))
    decreases |heap| - p, 1, 0
  {
    hide Forest;
    var first := FreeFirst(heap, parent, p, |heap[p].children|);
    FirstIsOrdered(heap, parent, p, |heap[p].children|);
    forall i | 0 <= i < |first| && first[i] < |heap| ensures p !in heap[first[i]].children {
      FreedFirstAreBelow(heap, parent, p, |heap[p].children|, first[i]);
      BelowIsLater(heap, p, first[i]);
      if k :| 0 <= k < |heap[first[i]].children| && heap[first[i]].children[k] == p {
        ChildIsLater(heap, parent, first[i], k);
      }
    }
  }
}
