/**
 Dotted paths into a loaded tree: `linx_yaml_get_node_by_path` and the getters on top of it,
 and the loop of `linx_config_fill_engine` that copies a list of numbers through printed
 index paths.
 */
module YamlPath {
  import opened Basics
  import opened YamlMachine
  import opened YamlRoundTrip
  import opened CText

  // ---------------------------------------------------------------------------
  // What a path means

  /** Index of the first child carrying a key, or the number of children. */
  function KeyIndex(children: seq<Node>, key: string): (n: nat)
    ensures n <= |children|
    ensures n < |children| ==> children[n].key == Some(key)
    ensures forall i :: 0 <= i < n ==> children[i].key != Some(key)
  {
    if children == [] || children[0].key == Some(key) then 0 else 1 + KeyIndex(children[1..], key)
  }

  /** Child `n` is the first that carries the key. */
  predicate FirstWithKey(children: seq<Node>, key: string, n: int) {
    && 0 <= n < |children| && children[n].key == Some(key)
    && forall i :: 0 <= i < n ==> children[i].key != Some(key)
  }

  /** One path segment: a key of a mapping, or a number into a sequence. */
  function Descend(node: Node, token: string): Option<Node> {
    if node.Scalar? then None
    else if node.kind == MapKind then
      var n := KeyIndex(node.children, token);
      if n < |node.children| then Some(node.children[n]) else None
    else
      var parsed := Strtol(token);
      var index := ToInt(parsed.value);
      if parsed.end == |token| && 0 <= index < |node.children| then Some(node.children[index]) else None
  }

  function Follow(node: Node, tokens: seq<string>): Option<Node>
    decreases tokens
  {
    if tokens == [] then Some(node)
    else match Descend(node, tokens[0])
         case None => None
         case Some(child) => Follow(child, tokens[1..])
  }

  function NodeByPath(root: Node, path: string): Option<Node> {
    Follow(root, Tokens(path))
  }

  // ---------------------------------------------------------------------------
  // The loops

  /** `linx_yaml_node_find_by_key`. */
  method FindByKey(node: Node, key: string) returns (found: Option<Node>)
    ensures found == if node.Collection? && node.kind == MapKind then Descend(node, key) else None
    ensures found.Some? <==> node.Collection? && node.kind == MapKind && exists n :: FirstWithKey(node.children, key, n)
    ensures forall n :: found.Some? && FirstWithKey(node.children, key, n) ==> found == Some(node.children[n])
  {
    if node.Scalar? || node.kind != MapKind {
      return None;
    }
    var i := 0;
    while i < |node.children|
      invariant 0 <= i <= KeyIndex(node.children, key)
    {
      if node.children[i].key == Some(key) {
        assert FirstWithKey(node.children, key, i);
        return Some(node.children[i]);
      }
      i := i + 1;
    }
    return None;
  }

  /**
   The branch for a segment that is not a number: it asks the sequence itself, not the item,
   for the key, and then clears the cursor, so it never finds anything.
   */
  method SearchItems(node: Node, token: string) returns (found: Option<Node>)
    requires node.Collection? && node.kind == SeqKind
    ensures found == None
  {
    var current := Some(node);
    var i := 0;
    while i < |node.children|
    {
      if node.children[i].Collection? && node.children[i].kind == MapKind {
        var hit := FindByKey(node, token);
        if hit.Some? {
          current := hit;
          break;
        }
      }
      i := i + 1;
    }
    current := None;
    return current;
  }

  /** `linx_yaml_get_node_by_path`: the token loop computes what the path means. */
  method GetNodeByPath(root: Node, path: string) returns (found: Option<Node>)
    ensures found == NodeByPath(root, path)
  {
    hide Tokens, Descend, Strtol, KeyIndex;
    var hasToken, token, at := NextToken(path, 0);
    assert path[0..] == path;
    found := Some(root);
    while hasToken && found.Some?
      invariant at <= |path|
      invariant found.Some? ==>
                  NodeByPath(root, path) == Follow(found.value, if hasToken then [token] + Tokens(path[at..]) else [])
      invariant found.None? ==> NodeByPath(root, path) == None
      decreases |path| - at, hasToken
    {
      ghost var rest := Tokens(path[at..]);
      assert ([token] + rest)[0] == token && ([token] + rest)[1..] == rest;
      found := DescendStep(found.value, token);
      hasToken, token, at := NextToken(path, at);
    }
  }

  method DescendStep(node: Node, token: string) returns (found: Option<Node>)
    ensures found == Descend(node, token)
  {
    if node.Scalar? {
      return None;
    } else if node.kind == MapKind {
      found := FindByKey(node, token);
    } else {
      var parsed := Strtol(token);
      if parsed.end == |token| {
        var index := ToInt(parsed.value);
        if index < 0 || index >= |node.children| {
          return None;
        }
        return Some(node.children[index]);
      }
      found := SearchItems(node, token);
    }
  }

  // ---------------------------------------------------------------------------
  // Composition

  lemma {:induction false} FollowConcat(node: Node, a: seq<string>, b: seq<string>)
    ensures Follow(node, a + b) ==
            match Follow(node, a) { case None => None case Some(mid) => Follow(mid, b) }
    decreases a
  {
    hide Descend;
    if a == [] {
      assert a + b == b;
    } else {
      assert (a + b)[1..] == a[1..] + b;
      match Descend(node, a[0]) {
        case None =>
        case Some(child) => FollowConcat(child, a[1..], b);
      }
    }
  }

  /** Looking up `p.q` is looking up `q` from the node at `p`, for all strings `p` and `q`. */
  lemma PathsCompose(root: Node, p: string, q: string)
    ensures NodeByPath(root, p + "." + q) ==
            match NodeByPath(root, p) { case None => None case Some(mid) => NodeByPath(mid, q) }
  {
    hide Follow, Tokens;
    TokensJoin(p, q);
    FollowConcat(root, Tokens(p), Tokens(q));
  }

  /** A path of one word is one segment. */
  lemma OneWordPath(node: Node, word: string)
    requires word != "" && '.' !in word
    ensures NodeByPath(node, word) == Descend(node, word)
  {
    hide Tokens, Descend;
    TokensOfWord(word);
    assert [word][1..] == [];
    match Descend(node, word) {
      case None =>
      case Some(child) => assert Follow(child, []) == Some(child);
    }
  }

  /** In a mapping a word answers the first child that carries it, and nothing exactly when no child does. */
  lemma MappingAnswers(node: Node, word: string)
    requires word != "" && '.' !in word && node.Collection? && node.kind == MapKind
    ensures forall n :: FirstWithKey(node.children, word, n) ==> NodeByPath(node, word) == Some(node.children[n])
    ensures NodeByPath(node, word) == None <==>
            forall i :: 0 <= i < |node.children| ==> node.children[i].key != Some(word)
  {
    hide NodeByPath;
    OneWordPath(node, word);
  }

  /** In a sequence a word answers the child at the number it is, and nothing if it is no number in range. */
  lemma SequenceAnswers(node: Node, word: string)
    requires word != "" && '.' !in word && node.Collection? && node.kind == SeqKind
    ensures NodeByPath(node, word).Some? <==>
            Strtol(word).end == |word| && 0 <= ToInt(Strtol(word).value) < |node.children|
    ensures NodeByPath(node, word).Some? ==>
              NodeByPath(node, word) == Some(node.children[ToInt(Strtol(word).value)])
  {
    hide NodeByPath, Strtol, ToInt;
    OneWordPath(node, word);
  }

  /** In particular a printed index answers the child at that index, or nothing. */
  lemma PrintedIndexAnswers(node: Node, k: int)
    requires node.Collection? && node.kind == SeqKind && INT_MIN <= k <= INT_MAX
    ensures NodeByPath(node, PrintInt(k)) == if 0 <= k < |node.children| then Some(node.children[k]) else None
  {
    hide NodeByPath, Strtol, PrintInt;
    PrintedIsWord(k);
    StrtolOfPrinted(k);
    ToIntOfInt(k);
    SequenceAnswers(node, PrintInt(k));
  }

  /** Nothing lies below a scalar. */
  lemma ScalarAnswers(node: Node, word: string)
    requires word != "" && '.' !in word && node.Scalar?
    ensures NodeByPath(node, word) == None
  {
    hide NodeByPath;
    OneWordPath(node, word);
  }

  lemma EmptyPath(node: Node)
    ensures NodeByPath(node, "") == Some(node)
  {
    NoTokens();
  }

  // ---------------------------------------------------------------------------
  // Every node is found by its own printed path

  /** Keys can be written in a path and tell the children of a mapping apart. */
  predicate WellKeyed(node: Node)
    decreases node
  {
    node.Scalar? ||
    (&& (forall i :: 0 <= i < |node.children| ==> WellKeyed(node.children[i]))
     && |node.children| <= INT_MAX
     && (node.kind == MapKind ==> KeysUsable(node.children)))
  }

  predicate KeysUsable(children: seq<Node>) {
    && (forall i :: 0 <= i < |children| ==>
          children[i].key.Some? && children[i].key.value != "" && '.' !in children[i].key.value)
    && (forall i, j :: 0 <= i < j < |children| ==> children[i].key != children[j].key)
  }

  /** A node's address: which child to take at each level. */
  predicate HasAddress(node: Node, address: seq<nat>)
    decreases address
  {
    address == [] ||
    (node.Collection? && address[0] < |node.children| && HasAddress(node.children[address[0]], address[1..]))
  }

  function NodeAt(node: Node, address: seq<nat>): Node
    requires HasAddress(node, address)
    decreases address
  {
    if address == [] then node else NodeAt(node.children[address[0]], address[1..])
  }

  /** How a child is written: by its key in a mapping, by its decimal index in a sequence. */
  function Segment(node: Node, i: nat): string
    requires node.Collection? && i < |node.children| && WellKeyed(node)
  {
    if node.kind == MapKind then node.children[i].key.value else PrintInt(i)
  }

  function PrintPath(node: Node, address: seq<nat>): string
    requires WellKeyed(node) && HasAddress(node, address)
    decreases address
  {
    if address == [] then ""
    else
      var i := address[0];
      if |address| == 1 then Segment(node, i)
      else Segment(node, i) + "." + PrintPath(node.children[i], address[1..])
  }

  lemma WellKeyedChild(node: Node, i: nat)
    requires node.Collection? && i < |node.children| && WellKeyed(node)
    ensures WellKeyed(node.children[i])
  {
  }

  lemma SegmentDescends(node: Node, i: nat)
    requires node.Collection? && i < |node.children| && WellKeyed(node)
    ensures Segment(node, i) != "" && '.' !in Segment(node, i)
    ensures Descend(node, Segment(node, i)) == Some(node.children[i])
  {
    if node.kind == MapKind {
      var n := KeyIndex(node.children, Segment(node, i));
      assert n == i;
    } else {
      PrintedIsWord(i);
      StrtolOfPrinted(i);
      ToIntOfInt(i);
    }
  }

  /**
   In a tree whose keys are dot-free, non-empty and unique in each mapping, the printed path
   of every node leads back to that node, at every depth.
   */
  lemma {:induction false} OwnPathFindsNode(node: Node, address: seq<nat>)
    requires WellKeyed(node) && HasAddress(node, address)
    ensures NodeByPath(node, PrintPath(node, address)) == Some(NodeAt(node, address))
    decreases address
  {
    hide NodeByPath, Descend, WellKeyed, Segment;
    if address == [] {
      EmptyPath(node);
    } else {
      WellKeyedChild(node, address[0]);
      var i := address[0];
      SegmentDescends(node, i);
      OneWordPath(node, Segment(node, i));
      if |address| > 1 {
        PathsCompose(node, Segment(node, i), PrintPath(node.children[i], address[1..]));
        OwnPathFindsNode(node.children[i], address[1..]);
      }
    }
  }

  // ---------------------------------------------------------------------------
  // Typed getters

  function GetInt(root: Node, path: string, fallback: int): int {
    match NodeByPath(root, path)
    case Some(Scalar(_, value, _)) =>
      var parsed := Strtol(value);
      if parsed.end == |value| then ToInt(parsed.value) else fallback
    case _ => fallback
  }

  /** The fallback is for everything that is not a scalar that is a whole number; else that number counts. */
  lemma IntAnswers(root: Node, path: string, fallback: int)
    ensures var found := NodeByPath(root, path);
            && (found == None ==> GetInt(root, path, fallback) == fallback)
            && (found.Some? && found.value.Collection? ==> GetInt(root, path, fallback) == fallback)
            && (found.Some? && found.value.Scalar? && Strtol(found.value.value).end != |found.value.value| ==>
                  GetInt(root, path, fallback) == fallback)
            && forall k :: (INT_MIN <= k <= INT_MAX && found.Some? && found.value.Scalar?
                            && found.value.value == PrintInt(k)) ==> GetInt(root, path, fallback) == k
  {
    hide NodeByPath, Strtol, PrintInt, ToInt;
    var found := NodeByPath(root, path);
    forall k | INT_MIN <= k <= INT_MAX && found.Some? && found.value.Scalar? && found.value.value == PrintInt(k)
      ensures GetInt(root, path, fallback) == k
    {
      StrtolOfPrinted(k);
      ToIntOfInt(k);
    }
  }

  function SequenceLength(root: Node, path: string): nat {
    match NodeByPath(root, path)
    case Some(Collection(SeqKind, _, children)) => |children|
    case _ => 0
  }

  // ---------------------------------------------------------------------------
  // Copying a configured list

  /** The nodes are scalars holding the printed numbers. */
  predicate HoldNumbers(children: seq<Node>, numbers: seq<int>) {
    && |children| == |numbers|
    && forall i :: 0 <= i < |children| ==>
         && children[i].Scalar? && INT_MIN <= numbers[i] <= INT_MAX
         && children[i].value == PrintInt(numbers[i])
  }

  lemma ItemByPath(root: Node, path: string, i: nat)
    requires i < SequenceLength(root, path) && i <= INT_MAX
    ensures NodeByPath(root, path + "." + PrintInt(i)) == Some(NodeByPath(root, path).value.children[i])
  {
    hide NodeByPath, Strtol, PrintInt;
    var list := NodeByPath(root, path).value;
    PathsCompose(root, path, PrintInt(i));
    PrintedIsWord(i);
    OneWordPath(list, PrintInt(i));
    StrtolOfPrinted(i);
    ToIntOfInt(i);
    assert Descend(list, PrintInt(i)) == Some(list.children[i]);
  }

  lemma NumberRead(root: Node, path: string, numbers: seq<int>, i: nat)
    requires SequenceLength(root, path) > i && i <= INT_MAX
    requires HoldNumbers(NodeByPath(root, path).value.children, numbers)
    ensures GetInt(root, path + "." + PrintInt(i), 0) == numbers[i]
  {
    ItemByPath(root, path, i);
    StrtolOfPrinted(numbers[i]);
    ToIntOfInt(numbers[i]);
  }

  /** Storing an `int` into a `uint32_t` slot. */
  function ToUint32(v: int): int {
    v % 0x1_0000_0000
  }

  const PIDS_PATH := "engine.ebpf.filter_pids"
  const FILTER_PID_MAX := 64

  /** What the loop stores for entry `i`. */
  function PidAt(root: Node, i: nat): int {
    ToUint32(GetInt(root, PIDS_PATH + "." + PrintInt(i), 0))
  }

  /**
   The `filter_pids` loop: element `i` of the configured list is read through its printed path
   and lands in word `i` from the start of the field; a list of printed numbers is copied
   element for element. `words` is the configuration's memory from that field on, as far as the
   loop writes: the field has 64 words and the loop does not test for that, so what follows the
   field is untouched when the list has at most 64 entries, and else overwritten by the rest.
   */
  method FillPids(root: Node, words: array<int>) returns (count: nat)
    requires FILTER_PID_MAX <= words.Length && SequenceLength(root, PIDS_PATH) <= words.Length
    modifies words
    ensures count == match NodeByPath(root, PIDS_PATH)
                     case Some(Collection(SeqKind, _, children)) => |children|
                     case _ => 0
    ensures forall i :: 0 <= i < count ==> words[i] == PidAt(root, i)
    ensures words[count..] == old(words[count..])
    ensures count <= FILTER_PID_MAX ==> words[FILTER_PID_MAX..] == old(words[FILTER_PID_MAX..])
    ensures forall numbers :: count > 0 && HoldNumbers(NodeByPath(root, PIDS_PATH).value.children, numbers) ==>
              && |numbers| == count
              && forall i :: 0 <= i < count && i <= INT_MAX ==>
                   words[i] == if numbers[i] >= 0 then numbers[i] else numbers[i] + 0x1_0000_0000
  {
    hide PidAt, SequenceLength, NodeByPath, HoldNumbers;
    count := SequenceLength(root, PIDS_PATH);
    CountIsLength(root, PIDS_PATH);
    for i := 0 to count
      invariant forall k :: 0 <= k < i ==> words[k] == PidAt(root, k)
      invariant forall k :: i <= k < words.Length ==> words[k] == old(words[k])
    {
      words[i] := PidAt(root, i);
    }
    if count > 0 {
      ListLength(root, PIDS_PATH);
    }
    forall numbers | count > 0 && HoldNumbers(NodeByPath(root, PIDS_PATH).value.children, numbers)
      ensures |numbers| == count
      ensures forall i :: 0 <= i < count && i <= INT_MAX ==>
                words[i] == if numbers[i] >= 0 then numbers[i] else numbers[i] + 0x1_0000_0000
    {
      PidsAreNumbers(root, numbers);
    }
  }

  /** An entry that is no whole number counts as 0. */
  lemma PidOfOther(root: Node, i: nat)
    requires i < SequenceLength(root, PIDS_PATH) && i <= INT_MAX
    requires var entry := NodeByPath(root, PIDS_PATH).value.children[i];
             entry.Collection? || Strtol(entry.value).end != |entry.value|
    ensures PidAt(root, i) == 0
  {
    hide NodeByPath, Strtol, PrintInt, SequenceLength;
    ListLength(root, PIDS_PATH);
    ItemByPath(root, PIDS_PATH, i);
  }

  lemma CountIsLength(root: Node, path: string)
    ensures SequenceLength(root, path) == match NodeByPath(root, path)
                                          case Some(Collection(SeqKind, _, children)) => |children|
                                          case _ => 0
  {
    hide NodeByPath;
  }

  lemma PidsAreNumbers(root: Node, numbers: seq<int>)
    requires 0 < SequenceLength(root, PIDS_PATH)
    requires HoldNumbers(NodeByPath(root, PIDS_PATH).value.children, numbers)
    ensures |numbers| == SequenceLength(root, PIDS_PATH)
    ensures forall i :: 0 <= i < |numbers| && i <= INT_MAX ==>
              PidAt(root, i) == if numbers[i] >= 0 then numbers[i] else numbers[i] + 0x1_0000_0000
  {
    hide NodeByPath, GetInt, PrintInt;
    ListLength(root, PIDS_PATH);
    forall i: nat | i < |numbers| && i <= INT_MAX
      ensures PidAt(root, i) == if numbers[i] >= 0 then numbers[i] else numbers[i] + 0x1_0000_0000
    {
      NumberRead(root, PIDS_PATH, numbers, i);
    }
  }

  lemma ListLength(root: Node, path: string)
    requires SequenceLength(root, path) > 0
    ensures NodeByPath(root, path).Some? && NodeByPath(root, path).value.Collection?
    ensures |NodeByPath(root, path).value.children| == SequenceLength(root, path)
  {
  }

  // ---------------------------------------------------------------------------
  // From events to answers

  /** A document in the class that loads faithfully answers every printed path with its own part. */
  lemma LoadThenFind(d: Doc, garbage: bool, address: seq<nat>)
    requires !d.Leaf? && ScalarsFirst(d)
    requires WellKeyed(Loaded(d, None)) && HasAddress(Loaded(d, None), address)
    ensures var m := Run(Init(garbage), Stream(d));
            && !m.error && m.root.Finished?
            && NodeByPath(m.root.node, PrintPath(Loaded(d, None), address)) == Some(NodeAt(Loaded(d, None), address))
  {
    hide Run, Loaded, NodeByPath, PrintPath, WellKeyed;
    LoadRoundTrip(d, garbage);
    OwnPathFindsNode(Loaded(d, None), address);
  }
}
