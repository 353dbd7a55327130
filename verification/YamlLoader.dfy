/**
 The loader with its heap: nodes are allocated one by one and mutated in place, the stack and
 the children arrays hold pointers (indices of allocation). Every started collection is
 linked into its parent at once and filled later. The loop is proved to compute what
 `YamlMachine.Run` computes, for every event stream, and the pointer structure is proved to
 stay a forest, so that the recursive free visits every node once.
 */
module YamlLoader {
  import opened Basics
  import opened YamlMachine

  /** One `linx_yaml_node_t`; `value` is used by scalars only. */
  datatype Cell = Cell(shape: Shape, key: Option<string>, value: string, isItem: bool, children: seq<nat>)

  datatype Shape = ScalarShape | CollectionShape(kind: Kind)

  type Heap = seq<Cell>

  /** Pointers go forward, `parent` inverts them, children arrays are strictly increasing. */
  ghost predicate Forest(heap: Heap, parent: seq<Option<nat>>) {
    && |parent| == |heap|
    && (forall p, i :: 0 <= p < |heap| && 0 <= i < |heap[p].children| ==> LinkOk(heap, parent, p, heap[p].children[i]))
    && (forall p, i, j :: 0 <= p < |heap| && 0 <= i < j < |heap[p].children| ==>
          heap[p].children[i] < heap[p].children[j])
    && (forall p :: 0 <= p < |heap| && heap[p].shape.ScalarShape? ==> heap[p].children == [])
  }

  ghost predicate LinkOk(heap: Heap, parent: seq<Option<nat>>, p: nat, c: nat) {
    p < c < |heap| == |parent| && parent[c] == Some(p)
  }

  /** Each stack entry is an open collection and the last child of the entry below it. */
  ghost predicate StackOk(heap: Heap, parent: seq<Option<nat>>, stack: seq<nat>) {
    && |parent| == |heap|
    && (forall i :: 0 <= i < |stack| ==> stack[i] < |heap| && heap[stack[i]].shape.CollectionShape?)
    && (stack != [] ==> parent[stack[0]] == None)
    && (forall i :: 0 < i < |stack| ==> LinkedBelow(heap, parent, stack, i))
  }

  /** Entry `i` is the last child of entry `i - 1`, and of nobody else. */
  ghost predicate LinkedBelow(heap: Heap, parent: seq<Option<nat>>, stack: seq<nat>, i: nat)
    requires 0 < i < |stack| && stack[i] < |parent| && stack[i - 1] < |heap|
  {
    var below := heap[stack[i - 1]].children;
    parent[stack[i]] == Some(stack[i - 1]) && below != [] && below[|below| - 1] == stack[i]
  }

  ghost predicate RootOk(heap: Heap, parent: seq<Option<nat>>, stack: seq<nat>, root: Option<nat>) {
    && |parent| == |heap|
    && (root.Some? ==> root.value < |heap| && parent[root.value] == None && heap[root.value].shape.CollectionShape?)
    && (root.None? ==> stack == [])
  }

  // ---------------------------------------------------------------------------
  // Reading a tree off the heap

  function Read(heap: Heap, ghost parent: seq<Option<nat>>, p: nat): Node
    requires Forest(heap, parent) && p < |heap|
    decreases |heap| - p, 0
  {
    var c := heap[p];
    match c.shape
    case ScalarShape => Scalar(c.key, c.value, c.isItem)
    case CollectionShape(kind) => Collection(kind, c.key, ReadFirst(heap, parent, p, |c.children|))
  }

  /** The first `n` children of a node. */
  function ReadFirst(heap: Heap, ghost parent: seq<Option<nat>>, p: nat, n: nat): seq<Node>
    requires Forest(heap, parent) && p < |heap| && n <= |heap[p].children|
    decreases |heap| - p, 0, n
  {
    if n == 0 then []
    else
      var c := heap[p].children[n - 1];
      assert LinkOk(heap, parent, p, c);
      ReadFirst(heap, parent, p, n - 1) + [Read(heap, parent, c)]
  }

  /** The children of a stack entry that are already finished: all but the next entry. */
  function FinishedCount(heap: Heap, stack: seq<nat>, i: nat): int
    requires i < |stack| && stack[i] < |heap|
  {
    |heap[stack[i]].children| - (if i + 1 < |stack| then 1 else 0)
  }

  ghost function FrameAt(heap: Heap, parent: seq<Option<nat>>, stack: seq<nat>, i: nat): Frame
    requires Forest(heap, parent) && StackOk(heap, parent, stack) && i < |stack|
  {
    var c := heap[stack[i]];
    assert i + 1 < |stack| ==> LinkedBelow(heap, parent, stack, i + 1);
    Frame(c.shape.kind, c.key, ReadFirst(heap, parent, stack[i], FinishedCount(heap, stack, i)))
  }

  ghost function Frames(heap: Heap, parent: seq<Option<nat>>, stack: seq<nat>): seq<Frame>
    requires Forest(heap, parent) && StackOk(heap, parent, stack)
  {
    seq(|stack|, i requires 0 <= i < |stack| => FrameAt(heap, parent, stack, i))
  }

  ghost function RootOf(heap: Heap, parent: seq<Option<nat>>, stack: seq<nat>, root: Option<nat>): Root
    requires Forest(heap, parent) && RootOk(heap, parent, stack, root)
  {
    if root.None? then Unset
    else if stack != [] && stack[0] == root.value then AtBottom
    else Finished(Read(heap, parent, root.value))
  }

  // ---------------------------------------------------------------------------
  // Facts about the stack

  lemma {:induction false} StackIncreases(heap: Heap, parent: seq<Option<nat>>, stack: seq<nat>, i: nat, j: nat)
    requires Forest(heap, parent) && StackOk(heap, parent, stack) && i < j < |stack|
    ensures stack[i] < stack[j]
    decreases j
  {
    var below := heap[stack[j - 1]];
    assert LinkedBelow(heap, parent, stack, j);
    assert LinkOk(heap, parent, stack[j - 1], below.children[|below.children| - 1]);
    if i < j - 1 {
      StackIncreases(heap, parent, stack, i, j - 1);
    }
  }

  /** A child pointer leads onto the stack only along the stack itself. */
  lemma ChildOnStack(heap: Heap, parent: seq<Option<nat>>, stack: seq<nat>, p: nat, k: nat)
    requires Forest(heap, parent) && StackOk(heap, parent, stack)
    requires p < |heap| && k < |heap[p].children| && heap[p].children[k] in stack
    ensures exists i :: 0 <= i < |stack| - 1 && stack[i] == p && k == |heap[p].children| - 1
  {
    var c := heap[p].children[k];
    assert LinkOk(heap, parent, p, c);
    var j :| 0 <= j < |stack| && stack[j] == c;
    assert j > 0;
    assert LinkedBelow(heap, parent, stack, j);
    assert stack[j - 1] == p && j - 1 < |stack| - 1;
  }

  // ---------------------------------------------------------------------------
  // Writing to an open node leaves every finished subtree as it was

  /** `newHeap` extends `heap` and has changed at most the cells on the stack. */
  ghost predicate OnlyOpenChanged(heap: Heap, newHeap: Heap, stack: seq<nat>) {
    && |heap| <= |newHeap|
    && forall p :: 0 <= p < |heap| && p !in stack ==> newHeap[p] == heap[p]
  }

  lemma {:induction false} ReadFinished(
    heap: Heap, parent: seq<Option<nat>>, stack: seq<nat>, newHeap: Heap, newParent: seq<Option<nat>>, p: nat)
    requires Forest(heap, parent) && StackOk(heap, parent, stack) && Forest(newHeap, newParent)
    requires OnlyOpenChanged(heap, newHeap, stack)
    requires p < |heap| && p !in stack
    ensures Read(newHeap, newParent, p) == Read(heap, parent, p)
    decreases |heap| - p, 0
  {
    if heap[p].shape.CollectionShape? {
      forall k: nat | k < |heap[p].children| ensures heap[p].children[k] !in stack {
        if heap[p].children[k] in stack {
          ChildOnStack(heap, parent, stack, p, k);
        }
      }
      ReadFirstFinished(heap, parent, stack, newHeap, newParent, p, |heap[p].children|);
    }
  }

  lemma {:induction false} ReadFirstFinished(
    heap: Heap, parent: seq<Option<nat>>, stack: seq<nat>, newHeap: Heap, newParent: seq<Option<nat>>, p: nat, n: nat)
    requires Forest(heap, parent) && StackOk(heap, parent, stack) && Forest(newHeap, newParent)
    requires OnlyOpenChanged(heap, newHeap, stack)
    requires p < |heap| && n <= |heap[p].children| && heap[p].children <= newHeap[p].children
    requires forall k :: 0 <= k < n ==> heap[p].children[k] !in stack
    ensures ReadFirst(newHeap, newParent, p, n) == ReadFirst(heap, parent, p, n)
    decreases |heap| - p, 0, n
  {
    if n > 0 {
      var c := heap[p].children[n - 1];
      assert newHeap[p].children[n - 1] == c;
      assert LinkOk(heap, parent, p, c);
      ReadFirstFinished(heap, parent, stack, newHeap, newParent, p, n - 1);
      ReadFinished(heap, parent, stack, newHeap, newParent, c);
    }
  }

  /** The finished children of a stack entry are not on the stack. */
  lemma FinishedChildren(heap: Heap, parent: seq<Option<nat>>, stack: seq<nat>, i: nat, k: nat)
    requires Forest(heap, parent) && StackOk(heap, parent, stack)
    requires i < |stack| && k < FinishedCount(heap, stack, i)
    ensures heap[stack[i]].children[k] !in stack
  {
    if heap[stack[i]].children[k] in stack {
      ChildOnStack(heap, parent, stack, stack[i], k);
      var j :| 0 <= j < |stack| - 1 && stack[j] == stack[i];
      if j < i { StackIncreases(heap, parent, stack, j, i); }
    }
  }

  // ---------------------------------------------------------------------------
  // Allocation: a new cell, linked into the open collection if there is one

  function Alloc(heap: Heap, stack: seq<nat>, cell: Cell): Heap
    requires stack != [] ==> stack[|stack| - 1] < |heap|
  {
    if stack == [] then heap + [cell]
    else
      var top := stack[|stack| - 1];
      heap[top := heap[top].(children := heap[top].children + [|heap|])] + [cell]
  }

  function AllocParent(parent: seq<Option<nat>>, stack: seq<nat>): seq<Option<nat>> {
    parent + [if stack == [] then None else Some(stack[|stack| - 1])]
  }

  lemma AllocKeepsForest(heap: Heap, parent: seq<Option<nat>>, stack: seq<nat>, cell: Cell)
    requires Forest(heap, parent) && StackOk(heap, parent, stack) && cell.children == []
    ensures Forest(Alloc(heap, stack, cell), AllocParent(parent, stack))
    ensures OnlyOpenChanged(heap, Alloc(heap, stack, cell), stack)
  {
    var heap', parent' := Alloc(heap, stack, cell), AllocParent(parent, stack);
    forall p, i | 0 <= p < |heap'| && 0 <= i < |heap'[p].children|
      ensures LinkOk(heap', parent', p, heap'[p].children[i])
    {
      if p < |heap| && i < |heap[p].children| {
        assert LinkOk(heap, parent, p, heap[p].children[i]);
      }
    }
    forall p, i, j | 0 <= p < |heap'| && 0 <= i < j < |heap'[p].children|
      ensures heap'[p].children[i] < heap'[p].children[j]
    {
      assert LinkOk(heap, parent, p, heap[p].children[i]);
      if j < |heap[p].children| {
        assert heap[p].children[i] < heap[p].children[j];
      }
    }
  }

  lemma AllocKeepsStack(heap: Heap, parent: seq<Option<nat>>, stack: seq<nat>, cell: Cell)
    requires Forest(heap, parent) && StackOk(heap, parent, stack)
    ensures StackOk(Alloc(heap, stack, cell), AllocParent(parent, stack), stack)
  {
    var heap', parent' := Alloc(heap, stack, cell), AllocParent(parent, stack);
    forall i | 0 < i < |stack| ensures LinkedBelow(heap', parent', stack, i) {
      assert LinkedBelow(heap, parent, stack, i);
      StackIncreases(heap, parent, stack, i - 1, |stack| - 1);
    }
  }

  lemma PushKeepsStack(heap: Heap, parent: seq<Option<nat>>, stack: seq<nat>, cell: Cell)
    requires Forest(heap, parent) && StackOk(heap, parent, stack) && cell.shape.CollectionShape?
    ensures StackOk(Alloc(heap, stack, cell), AllocParent(parent, stack), stack + [|heap|])
  {
    AllocKeepsStack(heap, parent, stack, cell);
    var heap', parent' := Alloc(heap, stack, cell), AllocParent(parent, stack);
    var stack' := stack + [|heap|];
    forall i | 0 < i < |stack'| ensures LinkedBelow(heap', parent', stack', i) {
      if i < |stack| {
        assert LinkedBelow(heap', parent', stack, i);
      }
    }
  }

  lemma PopKeepsStack(heap: Heap, parent: seq<Option<nat>>, stack: seq<nat>)
    requires StackOk(heap, parent, stack) && stack != []
    ensures StackOk(heap, parent, stack[..|stack| - 1])
  {
    var rest := stack[..|stack| - 1];
    forall i | 0 < i < |rest| ensures LinkedBelow(heap, parent, rest, i) {
      assert LinkedBelow(heap, parent, stack, i);
    }
  }

  /** What an entry's frame reads as after an allocation, before the new child is counted. */
  lemma FrameKept(heap: Heap, parent: seq<Option<nat>>, stack: seq<nat>, cell: Cell, i: nat)
    requires Forest(heap, parent) && StackOk(heap, parent, stack) && cell.children == [] && i < |stack|
    ensures var heap', parent' := Alloc(heap, stack, cell), AllocParent(parent, stack);
            && Forest(heap', parent') && stack[i] < |heap'| && StackOk(heap, parent, stack)
            && 0 <= FinishedCount(heap, stack, i) <= |heap'[stack[i]].children|
            && heap'[stack[i]].key == heap[stack[i]].key && heap'[stack[i]].shape == heap[stack[i]].shape
            && ReadFirst(heap', parent', stack[i], FinishedCount(heap, stack, i))
               == FrameAt(heap, parent, stack, i).children
            && |heap'[stack[i]].children| == |heap[stack[i]].children| + (if i == |stack| - 1 then 1 else 0)
  {
    var heap', parent' := Alloc(heap, stack, cell), AllocParent(parent, stack);
    AllocKeepsForest(heap, parent, stack, cell);
    if i < |stack| - 1 {
      StackIncreases(heap, parent, stack, i, |stack| - 1);
      assert LinkedBelow(heap, parent, stack, i + 1);
    }
    forall k: nat | k < FinishedCount(heap, stack, i) ensures heap[stack[i]].children[k] !in stack {
      FinishedChildren(heap, parent, stack, i, k);
    }
    ReadFirstFinished(heap, parent, stack, heap', parent', stack[i], FinishedCount(heap, stack, i));
  }

  lemma FramesAfterLeaf(heap: Heap, parent: seq<Option<nat>>, stack: seq<nat>, cell: Cell)
    requires Forest(heap, parent) && StackOk(heap, parent, stack)
    requires cell.children == [] && cell.shape.ScalarShape?
    ensures var heap', parent' := Alloc(heap, stack, cell), AllocParent(parent, stack);
            && Forest(heap', parent') && StackOk(heap', parent', stack)
            && Frames(heap', parent', stack)
               == AddToTop(Frames(heap, parent, stack), Scalar(cell.key, cell.value, cell.isItem))
  {
    var heap', parent' := Alloc(heap, stack, cell), AllocParent(parent, stack);
    AllocKeepsForest(heap, parent, stack, cell);
    AllocKeepsStack(heap, parent, stack, cell);
    var before, after := Frames(heap, parent, stack), Frames(heap', parent', stack);
    var leaf := Scalar(cell.key, cell.value, cell.isItem);
    forall i | 0 <= i < |stack| ensures after[i] == AddToTop(before, leaf)[i] {
      FrameKept(heap, parent, stack, cell, i);
      if i == |stack| - 1 {
        var n := FinishedCount(heap, stack, i);
        assert heap'[stack[i]].children[n] == |heap| && Read(heap', parent', |heap|) == leaf;
        assert ReadFirst(heap', parent', stack[i], n + 1) == ReadFirst(heap', parent', stack[i], n) + [leaf];
      }
    }
  }

  lemma FramesAfterStart(heap: Heap, parent: seq<Option<nat>>, stack: seq<nat>, cell: Cell)
    requires Forest(heap, parent) && StackOk(heap, parent, stack)
    requires cell.children == [] && cell.shape.CollectionShape?
    ensures var heap', parent', stack' := Alloc(heap, stack, cell), AllocParent(parent, stack), stack + [|heap|];
            && Forest(heap', parent') && StackOk(heap', parent', stack')
            && Frames(heap', parent', stack') == Frames(heap, parent, stack) + [Frame(cell.shape.kind, cell.key, [])]
  {
    var heap', parent', stack' := Alloc(heap, stack, cell), AllocParent(parent, stack), stack + [|heap|];
    AllocKeepsForest(heap, parent, stack, cell);
    PushKeepsStack(heap, parent, stack, cell);
    var before, after := Frames(heap, parent, stack), Frames(heap', parent', stack');
    forall i | 0 <= i < |stack| ensures after[i] == before[i] {
      FrameKept(heap, parent, stack, cell, i);
    }
  }

  lemma FramesAfterEnd(heap: Heap, parent: seq<Option<nat>>, stack: seq<nat>)
    requires Forest(heap, parent) && StackOk(heap, parent, stack) && stack != []
    ensures var rest := stack[..|stack| - 1];
            var before := Frames(heap, parent, stack);
            && StackOk(heap, parent, rest)
            && Frames(heap, parent, rest) == AddToTop(before[..|stack| - 1], Close(before[|stack| - 1]))
            && Read(heap, parent, stack[|stack| - 1]) == Close(before[|stack| - 1])
  {
    PopKeepsStack(heap, parent, stack);
    var rest := stack[..|stack| - 1];
    var before, after := Frames(heap, parent, stack), Frames(heap, parent, rest);
    var closed := Close(before[|stack| - 1]);
    forall i | 0 <= i < |rest| ensures after[i] == AddToTop(before[..|stack| - 1], closed)[i] {
      if i == |rest| - 1 {
        assert LinkedBelow(heap, parent, stack, |stack| - 1);
        var n := FinishedCount(heap, stack, i);
        assert heap[stack[i]].children[n] == stack[|stack| - 1];
        assert ReadFirst(heap, parent, stack[i], n + 1) == ReadFirst(heap, parent, stack[i], n) + [closed];
      }
    }
  }

  /** A root that is not at the bottom of the stack is finished: allocation does not change it. */
  lemma RootKept(heap: Heap, parent: seq<Option<nat>>, stack: seq<nat>, root: nat, cell: Cell)
    requires Forest(heap, parent) && StackOk(heap, parent, stack) && cell.children == []
    requires root < |heap| && parent[root] == None && (stack != [] ==> stack[0] != root)
    ensures var heap', parent' := Alloc(heap, stack, cell), AllocParent(parent, stack);
            Forest(heap', parent') && Read(heap', parent', root) == Read(heap, parent, root)
  {
    AllocKeepsForest(heap, parent, stack, cell);
    forall i | 0 <= i < |stack| ensures stack[i] != root {
      if i > 0 {
        assert LinkedBelow(heap, parent, stack, i);
      }
    }
    ReadFinished(heap, parent, stack, Alloc(heap, stack, cell), AllocParent(parent, stack), root);
  }

  // ---------------------------------------------------------------------------
  // Whole states

  ghost predicate Ok(heap: Heap, parent: seq<Option<nat>>, stack: seq<nat>, root: Option<nat>) {
    Forest(heap, parent) && StackOk(heap, parent, stack) && RootOk(heap, parent, stack, root)
  }

  /** The root after a start event. */
  function NewRoot(heap: Heap, stack: seq<nat>, root: Option<nat>): Option<nat> {
    if stack == [] && root.None? then Some(|heap|) else root
  }

  lemma StartKeepsOk(heap: Heap, parent: seq<Option<nat>>, stack: seq<nat>, root: Option<nat>, cell: Cell)
    requires Ok(heap, parent, stack, root) && cell.children == [] && cell.shape.CollectionShape?
    ensures var heap', parent', stack', root' :=
              Alloc(heap, stack, cell), AllocParent(parent, stack), stack + [|heap|], NewRoot(heap, stack, root);
            && Ok(heap', parent', stack', root')
            && Frames(heap', parent', stack') == Frames(heap, parent, stack) + [Frame(cell.shape.kind, cell.key, [])]
            && RootOf(heap', parent', stack', root') ==
               if stack == [] && root == None then AtBottom else RootOf(heap, parent, stack, root)
  {
    FramesAfterStart(heap, parent, stack, cell);
    hide Forest, StackOk, Frames;
    if root.Some? && (stack != [] ==> stack[0] != root.value) {
      RootKept(heap, parent, stack, root.value, cell);
    }
  }

  lemma LeafKeepsOk(heap: Heap, parent: seq<Option<nat>>, stack: seq<nat>, root: Option<nat>, cell: Cell)
    requires Ok(heap, parent, stack, root) && cell.children == [] && cell.shape.ScalarShape?
    ensures var heap', parent' := Alloc(heap, stack, cell), AllocParent(parent, stack);
            && Ok(heap', parent', stack, root)
            && Frames(heap', parent', stack)
               == AddToTop(Frames(heap, parent, stack), Scalar(cell.key, cell.value, cell.isItem))
            && RootOf(heap', parent', stack, root) == RootOf(heap, parent, stack, root)
  {
    FramesAfterLeaf(heap, parent, stack, cell);
    if root.Some? && (stack != [] ==> stack[0] != root.value) {
      RootKept(heap, parent, stack, root.value, cell);
    }
  }

  lemma EndKeepsOk(heap: Heap, parent: seq<Option<nat>>, stack: seq<nat>, root: Option<nat>)
    requires Ok(heap, parent, stack, root) && stack != []
    ensures var rest := stack[..|stack| - 1];
            var before := Frames(heap, parent, stack);
            && Ok(heap, parent, rest, root)
            && Frames(heap, parent, rest) == AddToTop(before[..|stack| - 1], Close(before[|stack| - 1]))
            && RootOf(heap, parent, rest, root) ==
               (if rest == [] && RootOf(heap, parent, stack, root) == AtBottom
                then Finished(Close(before[|stack| - 1])) else RootOf(heap, parent, stack, root))
  {
    FramesAfterEnd(heap, parent, stack);
  }

  lemma EmptyFrames(heap: Heap, parent: seq<Option<nat>>, stack: seq<nat>, root: Option<nat>)
    requires Ok(heap, parent, stack, root)
    ensures |Frames(heap, parent, stack)| == |stack|
    ensures RootOf(heap, parent, stack, root) == Unset <==> root == None
  {
  }

  // ---------------------------------------------------------------------------
  // The loader itself

  class Loader {
    var heap: Heap
    var stack: seq<nat>
    var currentKey: Option<string>
    var inSequence: bool
    var root: Option<nat>
    var error: bool
    var done: bool
    /** Inverse of the child pointers. */
    ghost var parent: seq<Option<nat>>

    ghost predicate Valid()
      reads this
    {
      Ok(heap, parent, stack, root)
    }

    /** The machine state that the heap stands for. */
    ghost function State(): Machine
      requires Valid()
      reads this
    {
      Machine(Frames(heap, parent, stack), currentKey, inSequence, RootOf(heap, parent, stack, root), error, done)
    }

    constructor (garbage: bool)
      ensures Valid() && State() == Init(garbage)
    {
      heap, stack, currentKey, inSequence := [], [], None, garbage;
      root, error, done, parent := None, false, false, [];
    }

    method StartCollection(kind: Kind)
      requires Valid() && !error && !done
      modifies this
      ensures Valid() && State() == StepStart(old(State()), kind)
    {
      var cell := Cell(CollectionShape(kind), currentKey, "", false, []);
      var node := |heap|;
      StartKeepsOk(heap, parent, stack, root, cell);
      EmptyFrames(heap, parent, stack, root);
      hide Ok, Frames, RootOf, Alloc, AllocParent;
      currentKey := None;
      heap, parent := Alloc(heap, stack, cell), AllocParent(parent, stack);
      if stack == [] && root.None? {
        root := Some(node);
      }
      inSequence := kind == SeqKind;
      stack := stack + [node];
    }

    method AddLeaf(key: Option<string>, value: string, isItem: bool)
      requires Valid()
      modifies `heap, `parent
      ensures Valid()
      ensures State() == old(State()).(stack := AddToTop(old(State()).stack, Scalar(key, value, isItem)))
    {
      var cell := Cell(ScalarShape, key, value, isItem, []);
      LeafKeepsOk(heap, parent, stack, root, cell);
      hide Ok, Frames, RootOf, Alloc, AllocParent;
      heap, parent := Alloc(heap, stack, cell), AllocParent(parent, stack);
    }

    method AddText(value: string)
      requires Valid() && !error && !done
      modifies this
      ensures Valid() && State() == StepText(old(State()), value)
    {
      if inSequence {
        AddLeaf(None, value, true);
      } else if currentKey.Some? {
        AddLeaf(currentKey, value, false);
        currentKey := None;
      } else {
        currentKey := Some(value);
      }
    }

    method EndCollection(kind: Kind)
      requires Valid() && !error && !done
      modifies this
      ensures Valid() && State() == StepEnd(old(State()), kind)
    {
      hide Ok, Frames, RootOf;
      EmptyFrames(heap, parent, stack, root);
      if stack == [] {
        error := true;
      } else {
        EndKeepsOk(heap, parent, stack, root);
        stack := stack[..|stack| - 1];
      }
      if kind == SeqKind {
        inSequence := false;
      }
    }

    /** The event loop. */
    method Load(events: seq<Event>)
      requires Valid()
      modifies this
      ensures Valid() && State() == Run(old(State()), events)
    {
      var i := 0;
      assert events[0..] == events;
      while i < |events| && !done && !error
        invariant 0 <= i <= |events| && Valid()
        invariant Run(State(), events[i..]) == Run(old(State()), events)
      {
        hide Ok, Frames, RootOf;
        assert events[i..][1..] == events[i + 1..];
        match events[i] {
          case StreamStart =>
          case StreamEnd => done := true;
          case DocumentStart =>
          case DocumentEnd =>
          case Start(kind) => StartCollection(kind);
          case End(kind) => EndCollection(kind);
          case Text(value) => AddText(value);
          case Ignored =>
          case ParseFailure => error := true;
        }
        i := i + 1;
      }
    }
  }

  /** Reading an open node gives what the frames from it upwards collapse to. */
  lemma {:induction false} ReadOpen(heap: Heap, parent: seq<Option<nat>>, stack: seq<nat>, i: nat)
    requires Forest(heap, parent) && StackOk(heap, parent, stack) && i < |stack|
    ensures Read(heap, parent, stack[i]) == Collapse(Frames(heap, parent, stack)[i..])
    decreases |stack| - i
  {
    hide Forest;
    var frames := Frames(heap, parent, stack);
    assert frames[i..][0] == FrameAt(heap, parent, stack, i);
    if i + 1 < |stack| {
      ReadOpen(heap, parent, stack, i + 1);
      assert frames[i..][1..] == frames[i + 1..];
      assert LinkedBelow(heap, parent, stack, i + 1);
    }
  }
}
