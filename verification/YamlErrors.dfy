/**
 What the event loop does with event streams that are not those of a document, in terms of the
 events alone: which ones end in an error, which ones start a root, and which events count.
 */
module YamlErrors {
  import opened Basics
  import opened YamlMachine

  function Starts(events: seq<Event>): nat {
    if events == [] then 0 else (if events[0].Start? then 1 else 0) + Starts(events[1..])
  }

  function Ends(events: seq<Event>): nat {
    if events == [] then 0 else (if events[0].End? then 1 else 0) + Ends(events[1..])
  }

  /** Event `i` is reached, and is a parser failure or one end too many for `depth` open collections. */
  predicate BreaksAt(events: seq<Event>, depth: nat, i: nat)
    requires i < |events|
  {
    && StreamEnd !in events[..i]
    && (events[i] == ParseFailure || (events[i].End? && Ends(events[..i + 1]) > depth + Starts(events[..i])))
  }

  predicate Breaks(events: seq<Event>, depth: nat) {
    exists i :: 0 <= i < |events| && BreaksAt(events, depth, i)
  }

  /** Some collection is started before the stream ends. */
  predicate Opens(events: seq<Event>) {
    exists i :: 0 <= i < |events| && events[i].Start? && StreamEnd !in events[..i]
  }

  lemma {:induction false} EndsAppend(events: seq<Event>, e: Event)
    ensures Ends(events + [e]) == Ends(events) + if e.End? then 1 else 0
  {
    if events == [] {
      assert [] + [e] == [e];
      assert [e][1..] == [];
    } else {
      assert (events + [e])[1..] == events[1..] + [e];
      EndsAppend(events[1..], e);
    }
  }

  /** What breaks behind the first event, in terms of the collections open after it. */
  lemma BreaksShift(events: seq<Event>, depth: nat, depth': nat, i: nat)
    requires 0 < i < |events| && events[0] != StreamEnd
    requires depth' == depth + (if events[0].Start? then 1 else 0) - (if events[0].End? then 1 else 0)
    ensures BreaksAt(events, depth, i) <==> BreaksAt(events[1..], depth', i - 1)
  {
    assert events[..i][1..] == events[1..][..i - 1];
    assert events[..i + 1][1..] == events[1..][..i];
    assert events[..i] == [events[0]] + events[1..][..i - 1];
  }

  lemma OpensShift(events: seq<Event>, i: nat)
    requires 0 < i < |events| && events[0] != StreamEnd
    ensures StreamEnd !in events[..i] <==> StreamEnd !in events[1..][..i - 1]
  {
    assert events[..i] == [events[0]] + events[1..][..i - 1];
  }

  lemma StepDepth(m: Machine, e: Event)
    requires !m.error && !m.done && e != ParseFailure && (e.End? ==> m.stack != [])
    ensures !Step(m, e).error
    ensures |Step(m, e).stack| == |m.stack| + (if e.Start? then 1 else 0) - (if e.End? then 1 else 0)
    ensures Step(m, e).done == (e == StreamEnd)
  {
  }

  /**
   A run ends in an error exactly when, before the first end of the stream, there is a parser
   failure or an end that exceeds the starts before it.
   */
  lemma {:induction false} ErrorIff(m: Machine, events: seq<Event>)
    requires !m.error && !m.done
    ensures Run(m, events).error <==> Breaks(events, |m.stack|)
    decreases events
  {
    hide Step, Starts, Ends;
    if events != [] {
      var e, rest := events[0], events[1..];
      if e == ParseFailure || (e.End? && m.stack == []) {
        FirstBreaks(m, events);
      } else {
        StepDepth(m, e);
        NotFirst(events, |m.stack|);
        if e == StreamEnd {
          forall i | 0 <= i < |events| ensures !BreaksAt(events, |m.stack|, i) {
            assert i > 0 ==> events[..i][0] == StreamEnd;
          }
        } else {
          var m' := Step(m, e);
          ErrorIff(m', rest);
          if i :| 0 <= i < |events| && BreaksAt(events, |m.stack|, i) {
            BreaksShift(events, |m.stack|, |m'.stack|, i);
          } else if i :| 0 <= i < |rest| && BreaksAt(rest, |m'.stack|, i) {
            BreaksShift(events, |m.stack|, |m'.stack|, i + 1);
          }
        }
      }
    }
  }

  lemma FirstBreaks(m: Machine, events: seq<Event>)
    requires !m.error && !m.done && events != []
    requires events[0] == ParseFailure || (events[0].End? && m.stack == [])
    ensures Run(m, events).error && Breaks(events, |m.stack|)
  {
    EndsAppend([], events[0]);
    assert [] + [events[0]] == events[..1];
    assert BreaksAt(events, |m.stack|, 0);
    assert Step(m, events[0]).error;
  }

  lemma NotFirst(events: seq<Event>, depth: nat)
    requires events != [] && events[0] != ParseFailure && (events[0].End? ==> depth > 0)
    ensures !BreaksAt(events, depth, 0)
  {
    EndsAppend([], events[0]);
    assert [] + [events[0]] == events[..1];
  }

  /** Without an error, there is a root exactly when there was one or a collection was started. */
  lemma {:induction false} RootIff(m: Machine, events: seq<Event>)
    requires !m.error && !m.done && (m.root == Unset ==> m.stack == [])
    requires !Run(m, events).error
    ensures Run(m, events).root == Unset <==> m.root == Unset && !Opens(events)
    decreases events
  {
    hide Step;
    if events != [] {
      var e, rest := events[0], events[1..];
      StepRoot(m, e);
      var m' := Step(m, e);
      if e == StreamEnd {
        assert Run(m', rest) == m';
        forall i | 0 <= i < |events| && events[i].Start? ensures StreamEnd in events[..i] {
          assert events[..i][0] == StreamEnd;
        }
      } else if !m'.error {
        RootIff(m', rest);
        if i :| 0 <= i < |events| && events[i].Start? && StreamEnd !in events[..i] {
          if i > 0 {
            OpensShift(events, i);
            assert rest[i - 1].Start?;
          }
        } else if i :| 0 <= i < |rest| && rest[i].Start? && StreamEnd !in rest[..i] {
          assert events[i + 1] == rest[i];
          OpensShift(events, i + 1);
        }
        if e.Start? {
          assert events[..0] == [];
        }
      }
    }
  }

  lemma StepRoot(m: Machine, e: Event)
    requires !m.error && !m.done && (m.root == Unset ==> m.stack == [])
    ensures Step(m, e).root == Unset ==> Step(m, e).stack == []
    ensures Step(m, e).root == Unset <==> m.root == Unset && !e.Start?
    ensures !Step(m, e).error ==> Step(m, e).done == (e == StreamEnd)
  {
  }

  /** Nothing behind the end of the stream counts. */
  lemma NothingAfterEnd(m: Machine, before: seq<Event>, after: seq<Event>)
    ensures Run(m, before + [StreamEnd] + after) == Run(m, before + [StreamEnd])
  {
    RunConcat(m, before + [StreamEnd], after);
    RunConcat(m, before, [StreamEnd]);
    assert [StreamEnd][1..] == [];
  }

  /** The starts of stream and document, the end of a document, and the events of other kinds do not count at all. */
  lemma QuietEventsDropOut(m: Machine, before: seq<Event>, e: Event, after: seq<Event>)
    requires e == StreamStart || e == DocumentStart || e == DocumentEnd || e == Ignored
    ensures Run(m, before + [e] + after) == Run(m, before + after)
  {
    RunConcat(m, before + [e], after);
    RunConcat(m, before, [e]);
    RunConcat(m, before, after);
    var r := Run(m, before);
    assert [e][1..] == [];
    assert Run(r, [e]) == r;
  }
}
