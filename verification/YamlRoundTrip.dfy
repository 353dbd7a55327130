/**
 Loading a document's events rebuilds the document exactly when no list in it has a scalar
 after a nested collection: the single `in_sequence` bit is cleared when a nested collection
 ends and nothing restores it.
 */
module YamlRoundTrip {
  import opened Basics
  import opened YamlMachine

  // ---------------------------------------------------------------------------
  // Sufficient: documents with their scalars first are rebuilt

  /** Reading these items with the bit as given meets a scalar without the bit, or a bad item. */
  predicate Trouble(items: seq<Doc>, bit: bool)
    decreases items
  {
    && items != []
    && if items[0].Leaf? then !bit || Trouble(items[1..], bit)
       else !ScalarsFirst(items[0]) || Trouble(items[1..], false)
  }

  lemma {:induction false} NoTrouble(items: seq<Doc>, bit: bool)
    requires forall i :: 0 <= i < |items| ==> ScalarsFirst(items[i])
    requires forall i, j :: 0 <= i < j < |items| && items[j].Leaf? ==> items[i].Leaf?
    requires !bit ==> forall i :: 0 <= i < |items| ==> !items[i].Leaf?
    ensures !Trouble(items, bit)
    decreases items
  {
    hide ScalarsFirst;
    if items != [] {
      NoTrouble(items[1..], bit && items[0].Leaf?);
    }
  }

  /** The machine expects a value: a list item, or the value of a pending key. */
  predicate WantsValue(m: Machine) {
    if m.inSequence then m.currentKey == None else m.currentKey.Some?
  }

  lemma {:induction false} GoodDoc(d: Doc, m: Machine)
    requires Going(m) && ScalarsFirst(d)
    requires d.Leaf? ==> WantsValue(m)
    ensures Run(m, Emit(d)) ==
            WithTop(m, Top(m).children + [Loaded(d, m.currentKey)])
              .(currentKey := None, inSequence := d.Leaf? && m.inSequence)
    decreases d, 0
  {
    match d {
      case Leaf(v) =>
        TextGrows(m, v);
      case Map(entries) =>
        var started := StepStart(m, MapKind);
        RunCollection(m, MapKind, EmitEntries(entries));
        GoodEntries(entries, started);
        EntriesGrow(entries, started);
        EndAddsOne(m, Run(started, EmitEntries(entries)), MapKind);
        assert [] + LoadedEntries(entries) == LoadedEntries(entries);
      case List(items) =>
        var started := StepStart(m, SeqKind);
        RunCollection(m, SeqKind, EmitItems(items));
        NoTrouble(items, true);
        GoodItems(items, started);
        ItemsGrow(items, started);
        EndAddsOne(m, Run(started, EmitItems(items)), SeqKind);
        assert [] + LoadedItems(items) == LoadedItems(items);
    }
  }

  lemma NothingToRun(m: Machine)
    requires Going(m)
    ensures Run(m, []) == m == WithTop(m, Top(m).children + [])
  {
    assert Top(m).children + [] == Top(m).children;
    assert m.stack == m.stack[..|m.stack| - 1] + [Top(m)];
  }

  lemma {:induction false} GoodEntries(entries: seq<Entry>, m: Machine)
    requires Going(m) && !m.inSequence && m.currentKey == None
    requires forall i :: 0 <= i < |entries| ==> ScalarsFirst(entries[i].value)
    ensures Run(m, EmitEntries(entries)) == WithTop(m, Top(m).children + LoadedEntries(entries))
    decreases entries, 1
  {
    hide ScalarsFirst, Run, Emit, Loaded;
    if entries == [] {
      NothingToRun(m);
    } else {
      GoodEntry(entries[0], m, EmitEntries(entries[1..]));
      var m1 := WithTop(m, Top(m).children + [Loaded(entries[0].value, Some(entries[0].key))]);
      GoodEntries(entries[1..], m1);
      Regroup(Top(m).children, Loaded(entries[0].value, Some(entries[0].key)), LoadedEntries(entries[1..]));
      assert m1.stack[..|m1.stack| - 1] == m.stack[..|m.stack| - 1];
    }
  }

  lemma {:induction false} GoodEntry(e: Entry, m: Machine, rest: seq<Event>)
    requires Going(m) && !m.inSequence && m.currentKey == None && ScalarsFirst(e.value)
    ensures Run(m, [Text(e.key)] + Emit(e.value) + rest) ==
            Run(WithTop(m, Top(m).children + [Loaded(e.value, Some(e.key))]), rest)
    decreases e.value, 1
  {
    var key, value := [Text(e.key)], Emit(e.value);
    RunConcat(m, key + value, rest);
    RunConcat(m, key, value);
    TextGrows(m, e.key);
    GoodDoc(e.value, Run(m, key));
  }

  lemma Regroup(before: seq<Node>, node: Node, after: seq<Node>)
    ensures (before + [node]) + after == before + ([node] + after)
  {
  }

  lemma {:induction false} GoodItems(items: seq<Doc>, m: Machine)
    requires Going(m) && m.currentKey == None && !Trouble(items, m.inSequence)
    ensures var r := Run(m, EmitItems(items));
            r == WithTop(m, Top(m).children + LoadedItems(items)).(inSequence := r.inSequence)
    decreases items, 1
  {
    hide ScalarsFirst, Run, Emit, Loaded;
    if items == [] {
      NothingToRun(m);
    } else {
      RunConcat(m, Emit(items[0]), EmitItems(items[1..]));
      LeafIsGood(items[0]);
      GoodDoc(items[0], m);
      var m1 := Run(m, Emit(items[0]));
      GoodItems(items[1..], m1);
      Regroup(Top(m).children, Loaded(items[0], None), LoadedItems(items[1..]));
      assert m1.stack[..|m1.stack| - 1] == m.stack[..|m.stack| - 1];
    }
  }

  // ---------------------------------------------------------------------------
  // Necessary: any other document comes back changed

  /** From child number `at` on, the children cannot be `expected` any more, whatever is appended. */
  predicate Differs(children: seq<Node>, at: nat, expected: seq<Node>) {
    |children| > at && expected != [] && children[at] != expected[0]
  }

  lemma {:induction false} BadDoc(d: Doc, m: Machine)
    requires Going(m) && !ScalarsFirst(d)
    ensures var r := Run(m, Emit(d));
            r.stack != [] && Differs(Top(r).children, |Top(m).children|, [Loaded(d, m.currentKey)])
    decreases d, 0
  {
    match d {
      case Map(entries) =>
        var started := StepStart(m, MapKind);
        RunCollection(m, MapKind, EmitEntries(entries));
        BadEntries(entries, started);
        EntriesGrow(entries, started);
        EndAddsOne(m, Run(started, EmitEntries(entries)), MapKind);
        assert [] + LoadedEntries(entries) == LoadedEntries(entries);
      case List(items) =>
        var started := StepStart(m, SeqKind);
        RunCollection(m, SeqKind, EmitItems(items));
        BadListHasTrouble(items);
        BadItems(items, started);
        ItemsGrow(items, started);
        EndAddsOne(m, Run(started, EmitItems(items)), SeqKind);
        assert [] + LoadedItems(items) == LoadedItems(items);
    }
  }

  lemma {:induction false} BadEntries(entries: seq<Entry>, m: Machine)
    requires Going(m) && !m.inSequence && m.currentKey == None
    requires exists i :: 0 <= i < |entries| && !ScalarsFirst(entries[i].value)
    ensures var r := Run(m, EmitEntries(entries));
            r.stack != [] && Top(r).children != Top(m).children + LoadedEntries(entries)
    decreases entries, 1
  {
    hide ScalarsFirst, Run, Emit, Loaded, StepText;
    EntriesGrow(entries, m);
    if ScalarsFirst(entries[0].value) {
      GoodEntry(entries[0], m, EmitEntries(entries[1..]));
      var m1 := WithTop(m, Top(m).children + [Loaded(entries[0].value, Some(entries[0].key))]);
      BadEntries(entries[1..], m1);
      Regroup(Top(m).children, Loaded(entries[0].value, Some(entries[0].key)), LoadedEntries(entries[1..]));
    } else {
      var key, value := [Text(entries[0].key)], Emit(entries[0].value);
      RunConcat(m, key + value, EmitEntries(entries[1..]));
      RunConcat(m, key, value);
      TextGrows(m, entries[0].key);
      KeyIsPending(m, entries[0].key);
      BadDoc(entries[0].value, Run(m, key));
      DocGrows(entries[0].value, Run(m, key));
      EntriesGrow(entries[1..], Run(m, key + value));
    }
  }

  lemma KeyIsPending(m: Machine, key: string)
    requires Going(m) && !m.inSequence && m.currentKey == None
    ensures StepText(m, key) == m.(currentKey := Some(key))
  {
  }

  lemma {:induction false} TroubleAhead(items: seq<Doc>, bit: bool, j: nat)
    requires j < |items|
    requires if items[j].Leaf? then !bit || exists i :: 0 <= i < j && !items[i].Leaf? else !ScalarsFirst(items[j])
    ensures Trouble(items, bit)
    decreases items
  {
    hide ScalarsFirst;
    if j > 0 {
      var rest := items[1..];
      assert rest[j - 1] == items[j];
      if items[j].Leaf? && bit && items[0].Leaf? {
        var i :| 0 <= i < j && !items[i].Leaf?;
        assert !rest[i - 1].Leaf?;
      }
      TroubleAhead(rest, bit && items[0].Leaf?, j - 1);
    }
  }

  lemma BadListHasTrouble(items: seq<Doc>)
    requires !ScalarsFirst(List(items))
    ensures Trouble(items, true)
  {
    if i :| 0 <= i < |items| && !ScalarsFirst(items[i]) {
      TroubleAhead(items, true, i);
    } else {
      var i, j :| 0 <= i < j < |items| && items[j].Leaf? && !items[i].Leaf?;
      TroubleAhead(items, true, j);
    }
  }

  lemma {:induction false} BadItems(items: seq<Doc>, m: Machine)
    requires Going(m) && m.currentKey == None && Trouble(items, m.inSequence)
    ensures var r := Run(m, EmitItems(items));
            r.stack != [] && Top(r).children != Top(m).children + LoadedItems(items)
    decreases items, 1
  {
    hide ScalarsFirst, Run, Emit, Loaded;
    RunConcat(m, Emit(items[0]), EmitItems(items[1..]));
    var m1 := Run(m, Emit(items[0]));
    if items[0].Leaf? && !m.inSequence {
      LostScalar(items, m);
    } else if items[0].Leaf? || ScalarsFirst(items[0]) {
      LeafIsGood(items[0]);
      GoodDoc(items[0], m);
      BadItems(items[1..], m1);
      Regroup(Top(m).children, Loaded(items[0], None), LoadedItems(items[1..]));
    } else {
      BadFirstItem(items, m);
    }
  }

  /** A badly rebuilt first item stays where it is. */
  lemma {:induction false} BadFirstItem(items: seq<Doc>, m: Machine)
    requires Going(m) && m.currentKey == None && items != [] && !ScalarsFirst(items[0])
    ensures var r := Run(m, EmitItems(items));
            r.stack != [] && Top(r).children != Top(m).children + LoadedItems(items)
    decreases items, 0
  {
    hide ScalarsFirst, Run, Emit, Loaded;
    RunConcat(m, Emit(items[0]), EmitItems(items[1..]));
    var m1 := Run(m, Emit(items[0]));
    DocGrows(items[0], m);
    ItemsGrow(items[1..], m1);
    BadDoc(items[0], m);
    var at := |Top(m).children|;
    assert (Top(m).children + LoadedItems(items))[at] == Loaded(items[0], None);
  }

  lemma LeafIsGood(d: Doc)
    ensures d.Leaf? ==> ScalarsFirst(d)
  {
  }

  /**
   A scalar item read while the bit is lost becomes a pending key: the list then ends one
   child short, or its next child carries that key.
   */
  lemma LostScalar(items: seq<Doc>, m: Machine)
    requires Going(m) && m.currentKey == None && !m.inSequence
    requires items != [] && items[0].Leaf?
    ensures var r := Run(m, EmitItems(items));
            r.stack != [] && Top(r).children != Top(m).children + LoadedItems(items)
  {
    var v := items[0].value;
    var m1 := m.(currentKey := Some(v));
    RunConcat(m, Emit(items[0]), EmitItems(items[1..]));
    TextGrows(m, v);
    assert Run(m, Emit(items[0])) == m1;
    if |items| > 1 {
      RunConcat(m1, Emit(items[1]), EmitItems(items[2..]));
      assert items[1..][1..] == items[2..];
      var m2 := Run(m1, Emit(items[1]));
      DocGrows(items[1], m1);
      ItemsGrow(items[2..], m2);
      NextChildIsKeyed(items[1], m1);
      var at := |Top(m).children|;
      assert (Top(m).children + LoadedItems(items))[at] == Loaded(items[0], None);
    }
  }

  lemma NextChildIsKeyed(d: Doc, m: Machine)
    requires Going(m) && m.currentKey.Some? && !m.inSequence
    ensures var r := Run(m, Emit(d));
            && r.stack != [] && |Top(r).children| > |Top(m).children|
            && Top(r).children[|Top(m).children|].key == m.currentKey
  {
    match d {
      case Leaf(v) =>
        TextGrows(m, v);
      case Map(entries) =>
        RunCollection(m, MapKind, EmitEntries(entries));
        EntriesGrow(entries, StepStart(m, MapKind));
        EndAddsOne(m, Run(StepStart(m, MapKind), EmitEntries(entries)), MapKind);
      case List(items) =>
        RunCollection(m, SeqKind, EmitItems(items));
        ItemsGrow(items, StepStart(m, SeqKind));
        EndAddsOne(m, Run(StepStart(m, SeqKind), EmitItems(items)), SeqKind);
    }
  }

  // ---------------------------------------------------------------------------
  // The whole stream

  /** The load ended normally with exactly this tree: nothing open, nothing pending, no error. */
  predicate EndsWith(m: Machine, node: Node) {
    m.stack == [] && m.currentKey == None && !m.error && m.root == Finished(node)
  }

  function Body(d: Doc): seq<Event>
    requires !d.Leaf?
  {
    if d.Map? then EmitEntries(d.entries) else EmitItems(d.items)
  }

  function KindOf(d: Doc): Kind {
    if d.List? then SeqKind else MapKind
  }

  /** A collection at top level: it becomes the root, and closing it finishes the root. */
  lemma RunRoot(d: Doc, garbage: bool)
    requires !d.Leaf?
    ensures var started := StepStart(Init(garbage), KindOf(d));
            var inner := Run(started, Body(d));
            && Onward(started, inner) && |inner.stack| == 1
            && Run(Init(garbage), Emit(d)) == StepEnd(inner, KindOf(d))
  {
    hide Run, EmitEntries, EmitItems;
    var m0 := Init(garbage);
    var started := StepStart(m0, KindOf(d));
    if d.Map? { EntriesGrow(d.entries, started); } else { ItemsGrow(d.items, started); }
    var inner := Run(started, Body(d));
    assert Emit(d) == [Start(KindOf(d))] + Body(d) + [End(KindOf(d))];
    RunConcat(m0, [Start(KindOf(d))] + Body(d), [End(KindOf(d))]);
    RunConcat(m0, [Start(KindOf(d))], Body(d));
    RunStart(m0, KindOf(d));
    RunEnd(inner, KindOf(d));
  }

  /** The events around a document change nothing but `done`. */
  lemma RunStream(d: Doc, garbage: bool)
    requires var m := Run(Init(garbage), Emit(d)); !m.error && !m.done
    ensures Run(Init(garbage), Stream(d)) == Run(Init(garbage), Emit(d)).(done := true)
  {
    hide Emit;
    var m0 := Init(garbage);
    var ended := Run(m0, Emit(d));
    RunConcat(m0, [StreamStart, DocumentStart] + Emit(d), [DocumentEnd, StreamEnd]);
    RunConcat(m0, [StreamStart, DocumentStart], Emit(d));
    RunConcat(m0, [StreamStart], [DocumentStart]);
    RunConcat(ended, [DocumentEnd], [StreamEnd]);
    assert [StreamStart, DocumentStart] == [StreamStart] + [DocumentStart];
    assert [DocumentEnd, StreamEnd] == [DocumentEnd] + [StreamEnd];
    QuietEvents(m0);
    QuietEvents(ended);
  }

  lemma QuietEvents(m: Machine)
    requires !m.error && !m.done
    ensures Run(m, [StreamStart]) == Run(m, [DocumentStart]) == Run(m, [DocumentEnd]) == m
    ensures Run(m, [StreamEnd]) == m.(done := true)
  {
    assert [StreamStart][1..] == [DocumentStart][1..] == [DocumentEnd][1..] == [StreamEnd][1..] == [];
  }

  /**
   For every document whose root is a collection, and whatever garbage `in_sequence` starts
   with: loading its events rebuilds it, with nothing left open or pending and no error, if
   and only if no list in it has a scalar after a nested collection.
   */
  lemma LoadRoundTrip(d: Doc, garbage: bool)
    requires !d.Leaf?
    ensures EndsWith(Run(Init(garbage), Stream(d)), Loaded(d, None)) <==> ScalarsFirst(d)
    ensures var m := Run(Init(garbage), Stream(d));
            && m.stack == [] && !m.error && m.root.Finished?
            && (m.root.node == Loaded(d, None) <==> ScalarsFirst(d))
  {
    hide Run, Emit, EmitEntries, EmitItems, LoadedEntries, LoadedItems;
    RunRoot(d, garbage);
    RunStream(d, garbage);
    var started := StepStart(Init(garbage), KindOf(d));
    match d {
      case Map(entries) =>
        if ScalarsFirst(d) {
          GoodEntries(entries, started);
        } else {
          BadEntries(entries, started);
        }
        assert [] + LoadedEntries(entries) == LoadedEntries(entries);
      case List(items) =>
        if ScalarsFirst(d) {
          NoTrouble(items, true);
          GoodItems(items, started);
        } else {
          BadListHasTrouble(items);
          BadItems(items, started);
        }
        assert [] + LoadedItems(items) == LoadedItems(items);
    }
  }

  /** The smallest document outside the class: a list of an empty mapping and then a scalar. */
  lemma MixedListIsLost(garbage: bool)
    ensures var d := List([Map([]), Leaf("a")]);
            !ScalarsFirst(d) && !EndsWith(Run(Init(garbage), Stream(d)), Loaded(d, None))
  {
    var items := [Map([]), Leaf("a")];
    assert items[1].Leaf? && !items[0].Leaf?;
    LoadRoundTrip(List(items), garbage);
  }
}
