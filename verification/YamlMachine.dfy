/**
 The event loop of `linx_yaml_load` on values: a stack of open collections, the pending key,
 the one `in_sequence` bit, and the root. And the theorem about it: which documents it
 rebuilds.
 */
module YamlMachine {
  import opened Basics

  datatype Kind = MapKind | SeqKind

  /** A finished `linx_yaml_node_t`, children by value. */
  datatype Node =
    | Scalar(key: Option<string>, value: string, isItem: bool)
    | Collection(kind: Kind, key: Option<string>, children: seq<Node>)

  /** The parser's events; `Ignored` stands for the ones the loop's default case drops. */
  datatype Event =
    | StreamStart | StreamEnd | DocumentStart | DocumentEnd
    | Start(kind: Kind) | End(kind: Kind) | Text(value: string)
    | Ignored | ParseFailure

  /** A collection that has been started and not yet ended. */
  datatype Frame = Frame(kind: Kind, key: Option<string>, children: seq<Node>)

  /** The root pointer: unset, the collection at the bottom of the stack, or finished. */
  datatype Root = Unset | AtBottom | Finished(node: Node)

  datatype Machine = Machine(
    stack: seq<Frame>,
    currentKey: Option<string>,
    inSequence: bool,
    root: Root,
    error: bool,
    done: bool)

  /** `linx_yaml_stack_create` leaves `in_sequence` as the allocator gave it. */
  function Init(garbage: bool): Machine {
    Machine([], None, garbage, Unset, false, false)
  }

  function AddToTop(stack: seq<Frame>, node: Node): seq<Frame> {
    if stack == [] then []
    else
      var top := stack[|stack| - 1];
      stack[..|stack| - 1] + [top.(children := top.children + [node])]
  }

  function StepStart(m: Machine, kind: Kind): Machine {
    m.(stack := m.stack + [Frame(kind, m.currentKey, [])],
       currentKey := None,
       inSequence := kind == SeqKind,
       root := if m.stack == [] && m.root == Unset then AtBottom else m.root)
  }

  function StepText(m: Machine, value: string): Machine {
    if m.inSequence then m.(stack := AddToTop(m.stack, Scalar(None, value, true)))
    else if m.currentKey.Some? then
      m.(stack := AddToTop(m.stack, Scalar(m.currentKey, value, false)), currentKey := None)
    else m.(currentKey := Some(value))
  }

  function Close(f: Frame): Node {
    Collection(f.kind, f.key, f.children)
  }

  /** Open collections as the tree they make when nothing more comes: each is the last child of the one below. */
  function Collapse(frames: seq<Frame>): Node
    requires frames != []
    decreases frames
  {
    if |frames| == 1 then Close(frames[0])
    else Close(frames[0].(children := frames[0].children + [Collapse(frames[1..])]))
  }

  function StepEnd(m: Machine, kind: Kind): Machine {
    var m1 := if kind == SeqKind then m.(inSequence := false) else m;
    if m.stack == [] then m1.(error := true)
    else
      var node := Close(m.stack[|m.stack| - 1]);
      var rest := m.stack[..|m.stack| - 1];
      m1.(stack := AddToTop(rest, node),
          root := if rest == [] && m.root == AtBottom then Finished(node) else m.root)
  }

  function Step(m: Machine, e: Event): Machine {
    match e
    case StreamStart => m
    case StreamEnd => m.(done := true)
    case DocumentStart => m
    case DocumentEnd => m
    case Start(kind) => StepStart(m, kind)
    case End(kind) => StepEnd(m, kind)
    case Text(value) => StepText(m, value)
    case Ignored => m
    case ParseFailure => m.(error := true)
  }

  function Run(m: Machine, events: seq<Event>): Machine
    decreases events
  {
    if events == [] || m.error || m.done then m else Run(Step(m, events[0]), events[1..])
  }

  lemma {:induction false} RunConcat(m: Machine, a: seq<Event>, b: seq<Event>)
    ensures Run(m, a + b) == Run(Run(m, a), b)
    decreases a
  {
    hide Step;
    if a == [] {
      assert a + b == b;
    } else if !m.error && !m.done {
      assert (a + b)[1..] == a[1..] + b;
      RunConcat(Step(m, a[0]), a[1..], b);
    }
  }

  // ---------------------------------------------------------------------------
  // Documents

  datatype Doc =
    | Leaf(value: string)
    | Map(entries: seq<Entry>)
    | List(items: seq<Doc>)

  datatype Entry = Entry(key: string, value: Doc)

  function Emit(d: Doc): seq<Event>
    decreases d, 0
  {
    match d
    case Leaf(v) => [Text(v)]
    case Map(entries) => [Start(MapKind)] + EmitEntries(entries) + [End(MapKind)]
    case List(items) => [Start(SeqKind)] + EmitItems(items) + [End(SeqKind)]
  }

  function EmitEntries(entries: seq<Entry>): seq<Event>
    decreases entries, 1
  {
    if entries == [] then []
    else [Text(entries[0].key)] + Emit(entries[0].value) + EmitEntries(entries[1..])
  }

  function EmitItems(items: seq<Doc>): seq<Event>
    decreases items, 1
  {
    if items == [] then [] else Emit(items[0]) + EmitItems(items[1..])
  }

  /** The parser's whole event stream for one document. */
  function Stream(d: Doc): seq<Event> {
    [StreamStart, DocumentStart] + Emit(d) + [DocumentEnd, StreamEnd]
  }

  /** The node a document stands for, under a key or as a list item. */
  function Loaded(d: Doc, key: Option<string>): Node
    decreases d, 0
  {
    match d
    case Leaf(v) => Scalar(key, v, key == None)
    case Map(entries) => Collection(MapKind, key, LoadedEntries(entries))
    case List(items) => Collection(SeqKind, key, LoadedItems(items))
  }

  function LoadedEntries(entries: seq<Entry>): seq<Node>
    decreases entries, 1
  {
    if entries == [] then [] else [Loaded(entries[0].value, Some(entries[0].key))] + LoadedEntries(entries[1..])
  }

  function LoadedItems(items: seq<Doc>): seq<Node>
    decreases items, 1
  {
    if items == [] then [] else [Loaded(items[0], None)] + LoadedItems(items[1..])
  }

  /** No list anywhere has a scalar after a nested collection. */
  predicate ScalarsFirst(d: Doc)
    decreases d, 0
  {
    match d
    case Leaf(_) => true
    case Map(entries) => forall i :: 0 <= i < |entries| ==> ScalarsFirst(entries[i].value)
    case List(items) =>
      && (forall i :: 0 <= i < |items| ==> ScalarsFirst(items[i]))
      && (forall i, j :: 0 <= i < j < |items| && items[j].Leaf? ==> items[i].Leaf?)
  }

  // ---------------------------------------------------------------------------
  // What the events of a document always do to the stack

  /** Only the top frame of `a` has changed, by receiving more children. */
  predicate Grown(a: seq<Frame>, b: seq<Frame>) {
    && |a| == |b| > 0
    && b[..|b| - 1] == a[..|a| - 1]
    && b[|b| - 1].kind == a[|a| - 1].kind
    && b[|b| - 1].key == a[|a| - 1].key
    && a[|a| - 1].children <= b[|b| - 1].children
  }

  predicate Going(m: Machine) {
    !m.error && !m.done && m.stack != []
  }

  function Top(m: Machine): Frame
    requires m.stack != []
  {
    m.stack[|m.stack| - 1]
  }

  predicate Onward(m: Machine, m': Machine) {
    Going(m') && Grown(m.stack, m'.stack) && m'.root == m.root
  }

  /** Replaces the children of the top frame. */
  function WithTop(m: Machine, children: seq<Node>): Machine
    requires m.stack != []
  {
    m.(stack := m.stack[..|m.stack| - 1] + [Top(m).(children := children)])
  }

  lemma TextGrows(m: Machine, value: string)
    requires Going(m)
    ensures Run(m, [Text(value)]) == StepText(m, value)
    ensures Onward(m, StepText(m, value))
  {
    assert [Text(value)][1..] == [];
  }

  lemma RunStart(m: Machine, kind: Kind)
    requires !m.error && !m.done
    ensures Run(m, [Start(kind)]) == StepStart(m, kind)
  {
    assert [Start(kind)][1..] == [];
  }

  lemma RunEnd(m: Machine, kind: Kind)
    requires !m.error && !m.done
    ensures Run(m, [End(kind)]) == StepEnd(m, kind)
  {
    assert [End(kind)][1..] == [];
  }

  /** A collection's events, inside an open collection: start, body, end. */
  lemma RunCollection(m: Machine, kind: Kind, body: seq<Event>)
    requires Going(m)
    ensures Run(m, [Start(kind)] + body + [End(kind)]) == Run(Run(StepStart(m, kind), body), [End(kind)])
  {
    RunConcat(m, [Start(kind)] + body, [End(kind)]);
    RunConcat(m, [Start(kind)], body);
    RunStart(m, kind);
  }

  /** Closing the frame that `StepStart` opened adds exactly one child to the frame below. */
  lemma EndAddsOne(m: Machine, inner: Machine, kind: Kind)
    requires Going(m) && Onward(StepStart(m, kind), inner)
    ensures var m' := Run(inner, [End(kind)]);
            && m' == WithTop(m, Top(m).children + [Collection(kind, m.currentKey, Top(inner).children)])
                       .(currentKey := inner.currentKey, inSequence := kind == MapKind && inner.inSequence)
            && Onward(m, m')
  {
    RunEnd(inner, kind);
    var started := StepStart(m, kind);
    assert started.stack[..|started.stack| - 1] == m.stack;
    assert inner.stack[..|inner.stack| - 1] == m.stack;
  }

  lemma {:induction false} DocGrows(d: Doc, m: Machine)
    requires Going(m)
    ensures Onward(m, Run(m, Emit(d)))
    ensures !d.Leaf? ==> |Top(Run(m, Emit(d))).children| == |Top(m).children| + 1
    decreases d, 0
  {
    match d {
      case Leaf(v) =>
        TextGrows(m, v);
      case Map(entries) =>
        RunCollection(m, MapKind, EmitEntries(entries));
        EntriesGrow(entries, StepStart(m, MapKind));
        EndAddsOne(m, Run(StepStart(m, MapKind), EmitEntries(entries)), MapKind);
      case List(items) =>
        RunCollection(m, SeqKind, EmitItems(items));
        ItemsGrow(items, StepStart(m, SeqKind));
        EndAddsOne(m, Run(StepStart(m, SeqKind), EmitItems(items)), SeqKind);
    }
  }

  lemma {:induction false} EntriesGrow(entries: seq<Entry>, m: Machine)
    requires Going(m)
    ensures Onward(m, Run(m, EmitEntries(entries)))
    decreases entries, 1
  {
    if entries != [] {
      var key, value := [Text(entries[0].key)], Emit(entries[0].value);
      RunConcat(m, key + value, EmitEntries(entries[1..]));
      RunConcat(m, key, value);
      TextGrows(m, entries[0].key);
      DocGrows(entries[0].value, Run(m, key));
      EntriesGrow(entries[1..], Run(m, key + value));
    }
  }

  lemma {:induction false} ItemsGrow(items: seq<Doc>, m: Machine)
    requires Going(m)
    ensures Onward(m, Run(m, EmitItems(items)))
    decreases items, 1
  {
    if items != [] {
      RunConcat(m, Emit(items[0]), EmitItems(items[1..]));
      DocGrows(items[0], m);
      ItemsGrow(items[1..], Run(m, Emit(items[0])));
    }
  }
}
