/**
 From a store call in the kernel to a named field in a rule: `evt.arg.NAME` leads to the bytes
 that the encoder stored for that parameter.
 */
module EventEndToEnd {
  import opened Basics
  import opened Codec
  import opened CodecRoundTrip
  import opened FieldTables
  import opened EventRich
  import opened CText

  /** A program that fits and writes no stray bytes over its header. */
  predicate Program(c: Context, stores: seq<Store>) {
    && ContextOk(c) && AllSane(stores) && |stores| <= MAX_PARAMS && Clean(stores)
    && HEADER_SIZE + |Flat(stores)| <= EVENT_MAX
  }

  function Encoded(b: Scratch, c: Context, stores: seq<Store>): (event: seq<byte>)
    requires Codec.Valid(b) && Program(c, stores)
    ensures |event| == HEADER_SIZE + |Flat(stores)| <= EVENT_MAX
  {
    EventArrives(b, c, stores);
    Submit(ExecAll(LoadHeader(b, c), stores)).bytes
  }

  /** Every user or process parameter of the table was stored, with the width the decoder reads. */
  predicate IdsStored(stores: seq<Store>, params: seq<Param>) {
    && |params| <= MAX_PARAMS
    && forall i :: 0 <= i < |params| ==>
         ReadWidth(params[i].kind) > 0 ==> i < |stores| && |Payload(stores[i])| == ReadWidth(params[i].kind)
  }

  /** The decoder's position for parameter `i` is where the encoder put store `i`, and no sum wraps. */
  lemma Located(b: Scratch, c: Context, stores: seq<Store>, i: nat)
    requires Codec.Valid(b) && Program(c, stores) && i < |stores|
    ensures var event := Encoded(b, c, stores);
            var at := HEADER_SIZE + SizeBefore(event, i);
            && at + |Payload(stores[i])| <= |event|
            && event[at..at + |Payload(stores[i])|] == Payload(stores[i])
  {
    hide ExecAll, LoadHeader, Submit, Payload, Clean, Sane, ParamOffset, HeaderIs, Flat;
    EventArrives(b, c, stores);
    var event := Encoded(b, c, stores);
    assert ParamIs(event, i, Payload(stores[i]));
  }

  lemma IdsReadable(b: Scratch, c: Context, stores: seq<Store>, params: seq<Param>)
    requires Codec.Valid(b) && Program(c, stores) && IdsStored(stores, params)
    ensures Readable(Encoded(b, c, stores), params)
  {
    hide ExecAll, LoadHeader, Submit, Payload, Clean, Sane, ParamOffset, HeaderIs, SizeBefore;
    EventArrives(b, c, stores);
    var event := Encoded(b, c, stores);
    forall i | 0 <= i < |params| && ReadWidth(params[i].kind) > 0
      ensures HEADER_SIZE + SizeBefore(event, i) + ReadWidth(params[i].kind) <= |event|
    {
      Located(b, c, stores, i);
    }
  }

  // ---------------------------------------------------------------------------
  // Names

  /** The slot an address designates in the global record. */
  function SlotAt(record: nat, rawarg: seq<Slot>, arg: seq<Slot>, address: nat): Slot
    requires |rawarg| == |arg| == MAX_PARAMS
  {
    if record + RAWARG_OFFSET <= address < record + ARG_OFFSET && (address - record) % 8 == 0 then
      rawarg[(address - record - RAWARG_OFFSET) / 8]
    else if record + ARG_OFFSET <= address < record + ARG_OFFSET + 256 && (address - record) % 8 == 0 then
      arg[(address - record - ARG_OFFSET) / 8]
    else NoSlot
  }

  /** The argument of a path means parameter `i`: by whole number, or as the first of that name. */
  predicate Means(params: seq<Param>, arg: string, i: nat) {
    if IsNumber(arg) then Strtol(arg).value == i else FirstNamed(params, arg, i)
  }

  /** The tables after binding and an event: "evt" bound to the record, with its two slot arrays. */
  predicate EvtBound(tables: map<string, Table>, record: nat) {
    "evt" in tables && IsObject(record) && tables["evt"] == Table(record, FieldsOf(EVT_MAPPINGS))
  }

  /** `evt.arg.X` and `evt.rawarg.X` resolve to slot `i` exactly as `X` means parameter `i`; otherwise to nothing. */
  lemma PathDesignatesSlot(tables: map<string, Table>, record: nat, path: string, params: seq<Param>, i: nat,
                           p: Pointer)
    requires EvtBound(tables, record) && |params| <= MAX_PARAMS
    requires var words := Tokens(path);
             |words| >= 3 && words[0] == "evt" && words[1] in {"arg", "rawarg"} && Means(params, words[2], i)
    requires Designates(p, ByPath(tables, path), tables, params)
    ensures var start := record + if Tokens(path)[1] == "arg" then ARG_OFFSET else RAWARG_OFFSET;
            p == if i < |params| then At(start + 8 * i, Some(params[i].kind)) else Null
  {
    hide Strtol, Tokens, ByPath, EvtBound;
    PathField(tables, record, path);
    var words := Tokens(path);
    var r := ByPath(tables, path);
    if !IsNumber(words[2]) {
      var start := record + r.field.offset;
      var j: nat :| FirstNamed(params, words[2], j) && p == SlotPointer(start, params, j);
      FirstNamedUnique(params, words[2], i, j);
    }
  }

  /** The two slot arrays are found through their paths, at their offsets. */
  lemma PathField(tables: map<string, Table>, record: nat, path: string)
    requires EvtBound(tables, record)
    requires var words := Tokens(path); |words| >= 3 && words[0] == "evt" && words[1] in {"arg", "rawarg"}
    ensures IsObject(record) && "evt" in tables && tables["evt"].base == record
    ensures var words := Tokens(path);
            var offset := if words[1] == "arg" then ARG_OFFSET else RAWARG_OFFSET;
            ByPath(tables, path) == FieldResult(true, Field(offset, 256, Struct), "evt", words[1], Some(words[2]))
  {
    hide FieldsOf, Tokens;
    EvtMappingsBind();
  }

  /** What a slot owes to the bytes stored for its parameter. */
  ghost predicate Shows(slot: Slot, event: seq<byte>, kind: FieldType, payload: seq<byte>, w: World) {
    match kind
    case Uid =>
      var uid := Value(payload);
      if uid in w.users then slot == Text(w.users[uid]) else slot == Text("unknown")
    case Pid =>
      var pid := ToInt(Value(payload));
      if pid in w.comms then slot == Text(w.comms[pid]) else slot == Text("unknown")
    case _ =>
      && slot.Into? && slot.offset + |payload| <= |event|
      && event[slot.offset..slot.offset + |payload|] == payload
  }

  lemma SlotShows(b: Scratch, c: Context, stores: seq<Store>, params: seq<Param>, w: World, i: nat)
    requires Codec.Valid(b) && Program(c, stores) && IdsStored(stores, params) && i < |params| && i < |stores|
    ensures var event := Encoded(b, c, stores);
            Readable(event, params) && Shows(SlotFor(event, params, i, w), event, params[i].kind, Payload(stores[i]), w)
  {
    hide Encoded, Program, Payload, SizeBefore, Value, ToInt;
    IdsReadable(b, c, stores, params);
    Located(b, c, stores, i);
  }

  /**
   End to end. A program encodes an event, the record decodes it with the table of the type it
   carries, and a path names parameter `i`: the type survives, the path resolves to slot `i` of
   the record with that parameter's type, and the slot shows what store `i` contributed.
   */
  lemma ArgumentReachesStore(b: Scratch, c: Context, stores: seq<Store>, table: seq<EventInfo>, w: World,
                             rawarg: seq<Slot>, arg: seq<Slot>, tables: map<string, Table>, record: nat, path: string,
                             i: nat, p: Pointer)
    requires Codec.Valid(b) && Program(c, stores) && c.kind < |table|
    requires var event, params := Encoded(b, c, stores), table[c.kind].params;
             && IdsStored(stores, params) && i < |params| && i < |stores|
             && Decoded(event, params, w, arg) && Decoded(event, params, w, rawarg)
             && Designates(p, ByPath(tables, path), tables, params)
             && EvtBound(tables, record)
             && var words := Tokens(path);
             |words| >= 3 && words[0] == "evt" && words[1] in {"arg", "rawarg"} && Means(params, words[2], i)
    ensures var event, params := Encoded(b, c, stores), table[c.kind].params;
            && EventType(event) == c.kind
            && p.At? && p.kind == Some(params[i].kind)
            && Shows(SlotAt(record, rawarg, arg, p.address), event, params[i].kind, Payload(stores[i]), w)
  {
    hide Encoded, Program, Payload, SlotFor, Value, Shows, Tokens, Means, EvtBound, Designates, ByPath, Readable,
         IdsStored;
    var event, params := Encoded(b, c, stores), table[c.kind].params;
    TypeSurvives(b, c, stores);
    assert |params| <= MAX_PARAMS by { ReadableBounded(event, params); }
    PathDesignatesSlot(tables, record, path, params, i, p);
    SlotShows(b, c, stores, params, w, i);
    SlotOfIndex(record, rawarg, arg, i);
  }

  lemma TypeSurvives(b: Scratch, c: Context, stores: seq<Store>)
    requires Codec.Valid(b) && Program(c, stores)
    ensures EventType(Encoded(b, c, stores)) == c.kind
  {
    hide ExecAll, LoadHeader, Submit, Value, Clean, Sane, Word;
    EventArrives(b, c, stores);
  }

  lemma SlotOfIndex(record: nat, rawarg: seq<Slot>, arg: seq<Slot>, i: nat)
    requires |rawarg| == |arg| == MAX_PARAMS && i < MAX_PARAMS
    ensures SlotAt(record, rawarg, arg, record + ARG_OFFSET + 8 * i) == arg[i]
    ensures SlotAt(record, rawarg, arg, record + RAWARG_OFFSET + 8 * i) == rawarg[i]
  {
  }

  // ---------------------------------------------------------------------------
  // The fields of the record itself

  /** Members of `event_t` in order: size and alignment on a 64-bit machine, and their names. */
  function RecordMember(k: nat): Member {
    match k
    case 1 => Member(64, 1) // time
    case 4 => Member(32 * 8, 8) // rawarg
    case 5 => Member(32 * 8, 8) // arg
    case 6 => Member(16, 1) // res
    case 8 => Member(1, 1) // failed
    case 9 => Member(1, 1) // dir
    case _ => Member(8, 8) // num, type, args, rawres
  }

  const MEMBER_NAMES := ["num", "time", "type", "args", "rawarg", "arg", "res", "rawres", "failed", "dir"]

  /** The types they are registered with. */
  const MEMBER_TYPES := [UInt64, CharBuf, CharBufArray, CharBuf, Struct, Struct, CharBuf, CharBuf, Bool, CharBuf]

  function MemberOffset(k: nat): nat {
    OffsetOf(RecordMember, k)
  }

  lemma MemberOffsets()
    ensures MemberOffset(0) == 0 && MemberOffset(1) == 8 && MemberOffset(2) == 72 && MemberOffset(3) == 80
    ensures MemberOffset(4) == 88 && MemberOffset(5) == 344 && MemberOffset(6) == 600 && MemberOffset(7) == 616
    ensures MemberOffset(8) == 624 && MemberOffset(9) == 625
  {
    assert OffsetOf(RecordMember, 0) == 0;
    hide OffsetOf;
    NextOffset(RecordMember, 0, 0, Member(8, 8), Member(64, 1));
    NextOffset(RecordMember, 1, 8, Member(64, 1), Member(8, 8));
    NextOffset(RecordMember, 2, 72, Member(8, 8), Member(8, 8));
    NextOffset(RecordMember, 3, 80, Member(8, 8), Member(256, 8));
    NextOffset(RecordMember, 4, 88, Member(256, 8), Member(256, 8));
    NextOffset(RecordMember, 5, 344, Member(256, 8), Member(16, 1));
    NextOffset(RecordMember, 6, 600, Member(16, 1), Member(8, 8));
    NextOffset(RecordMember, 7, 616, Member(8, 8), Member(1, 1));
    NextOffset(RecordMember, 8, 624, Member(1, 1), Member(1, 1));
  }

  /** For each of the ten fields, `evt.F` leads to the record's own member F, with its registered type. */
  lemma FieldPathDesignatesMember(tables: map<string, Table>, record: nat, k: nat, params: seq<Param>, p: Pointer)
    requires EvtBound(tables, record) && k < |MEMBER_NAMES|
    requires Designates(p, ByPath(tables, "evt." + MEMBER_NAMES[k]), tables, params)
    ensures p == At(record + MemberOffset(k), Some(MEMBER_TYPES[k]))
  {
    hide FieldsOf, Tokens, MemberOffset, ByPath, Designates;
    MemberRegistered(k);
    MemberWords(k);
    var field := Field(MemberOffset(k), RecordMember(k).size, MEMBER_TYPES[k]);
    ResolveField(tables, record, MEMBER_NAMES[k], field, params, p);
  }

  /** Every member is registered under its name, at its offset. */
  lemma MemberRegistered(k: nat)
    requires k < |MEMBER_NAMES|
    ensures var m := RecordMember(k);
            && MemberOffset(k) + m.size <= RECORD_SIZE
            && MEMBER_NAMES[k] in FieldsOf(EVT_MAPPINGS)
            && FieldsOf(EVT_MAPPINGS)[MEMBER_NAMES[k]] == Field(MemberOffset(k), m.size, MEMBER_TYPES[k])
  {
    hide FieldsOf, MemberOffset;
    MemberOffsets();
    EvtMappingsBind();
    FieldsOfDistinct(EVT_MAPPINGS, k);
    MappingIs(k);
  }

  lemma MappingIs(k: nat)
    requires k < |MEMBER_NAMES|
    ensures var m := RecordMember(k);
            && k < |EVT_MAPPINGS|
            && EVT_MAPPINGS[k] == Mapping(MEMBER_NAMES[k], Field(MemberOffset(k), m.size, MEMBER_TYPES[k]))
    ensures MemberOffset(k) + RecordMember(k).size <= RECORD_SIZE
  {
    hide MemberOffset;
    MemberOffsets();
  }

  lemma ResolveField(tables: map<string, Table>, record: nat, name: string, field: Field, params: seq<Param>,
                     p: Pointer)
    requires EvtBound(tables, record) && Tokens("evt." + name) == ["evt", name]
    requires name in FieldsOf(EVT_MAPPINGS) && FieldsOf(EVT_MAPPINGS)[name] == field
    requires field.offset + field.size <= RECORD_SIZE && field.size > 0
    requires Designates(p, ByPath(tables, "evt." + name), tables, params)
    ensures p == At(record + field.offset, Some(field.kind))
  {
    hide FieldsOf, Tokens;
  }

  lemma MemberWords(k: nat)
    requires k < |MEMBER_NAMES|
    ensures Tokens("evt." + MEMBER_NAMES[k]) == ["evt", MEMBER_NAMES[k]]
  {
    hide Tokens;
    var name := MEMBER_NAMES[k];
    TokensOfWord("evt");
    TokensOfWord(name);
    TokensJoin("evt", name);
    assert "evt." + name == "evt" + "." + name;
  }

  // ---------------------------------------------------------------------------
  // Negative indices

  /** The index that addresses see: products with the pointer size agree modulo 2^61. */
  function Reduced(index: int): int {
    (index + 0x1000_0000_0000_0000) % 0x2000_0000_0000_0000 - 0x1000_0000_0000_0000
  }

  predicate InRecord(record: nat, address: nat) {
    record <= address < record + RECORD_SIZE
  }

  /** An address in slot `j` of the array at this offset of the record. */
  predicate InSlot(record: nat, offset: nat, j: int, address: nat) {
    0 <= j < MAX_PARAMS && address == record + offset + 8 * j
  }

  /** Where an index lands, for each of the two slot arrays a path may start from. */
  lemma IndexLands(record: nat, params: seq<Param>, index: int, j: int)
    requires IsObject(record) && |params| <= MAX_PARAMS && index < |params| && 0 <= j < MAX_PARAMS
    ensures var p, r := SlotPointer(record + ARG_OFFSET, params, index), Reduced(index);
            && p.At?
            && (InSlot(record, ARG_OFFSET, j, p.address) <==> r == j)
            && (InSlot(record, RAWARG_OFFSET, j, p.address) <==> r == j - 32)
            && (InRecord(record, p.address) <==> -43 <= r < 67)
    ensures var p, r := SlotPointer(record + RAWARG_OFFSET, params, index), Reduced(index);
            && p.At?
            && (InSlot(record, RAWARG_OFFSET, j, p.address) <==> r == j)
            && (InSlot(record, ARG_OFFSET, j, p.address) <==> r == j + 32)
            && (InRecord(record, p.address) <==> -11 <= r < 99)
  {
    ArrayLands(record, ARG_OFFSET, index, j);
    ArrayLands(record, RAWARG_OFFSET, index, j);
    hide Reduced;
  }

  lemma ArrayLands(record: nat, offset: nat, index: int, j: int)
    requires IsObject(record) && 0 <= j < MAX_PARAMS && (offset == ARG_OFFSET || offset == RAWARG_OFFSET)
    ensures var r, at := Reduced(index), (record + offset + 8 * index) % U64;
            && (InSlot(record, ARG_OFFSET, j, at) <==> offset + 8 * r == ARG_OFFSET + 8 * j)
            && (InSlot(record, RAWARG_OFFSET, j, at) <==> offset + 8 * r == RAWARG_OFFSET + 8 * j)
            && (InRecord(record, at) <==> 0 <= offset + 8 * r < RECORD_SIZE)
  {
    hide Reduced;
    AddressOfIndex(record + offset, index);
    WrappedFar(record + offset, Reduced(index));
  }

  /** Where the address of an offset is not the plain sum, it is far from where it started. */
  lemma WrappedFar(start: nat, r: int)
    requires start < U64 && -0x1000_0000_0000_0000 <= r < 0x1000_0000_0000_0000
    ensures var at := (start + 8 * r) % U64;
            || at == start + 8 * r
            || (start + 8 * r < 0 && at >= start + 0x8000_0000_0000_0000)
            || (start + 8 * r >= U64 && at + 0x8000_0000_0000_0000 <= start)
  {
    var sum := start + 8 * r;
    if sum < 0 {
      assert (sum + U64) % U64 == sum + U64;
    } else if sum >= U64 {
      assert (sum - U64) % U64 == sum - U64;
    }
  }

  /** The wrapped product, as an offset of less than half the memory. */
  lemma AddressOfIndex(start: nat, index: int)
    requires start < U64
    ensures var r := Reduced(index);
            && -0x1000_0000_0000_0000 <= r < 0x1000_0000_0000_0000
            && (start + 8 * index) % U64 == (start + 8 * r) % U64
  {
    var q := (index + 0x1000_0000_0000_0000) / 0x2000_0000_0000_0000;
    assert index == q * 0x2000_0000_0000_0000 + Reduced(index);
    assert 8 * index == q * U64 + 8 * Reduced(index);
  }

  /**
   A negative number as argument is not refused. Through `evt.arg` the numbers -1 to -32 give
   the slots 31 to 0 of `rawarg`, down to -43 other fields of the record; through `evt.rawarg`
   -1 to -11 give other fields. Below that the address leaves the record, except that numbers
   near a negative multiple of 2^61 wrap around to the same places again. The type is not one
   of this event's parameters: the source reads it from before them.
   */
  lemma NegativeArgument(tables: map<string, Table>, record: nat, path: string, params: seq<Param>, p: Pointer)
    requires EvtBound(tables, record) && |params| <= MAX_PARAMS
    requires var words := Tokens(path);
             && |words| >= 3 && words[0] == "evt" && words[1] in {"arg", "rawarg"}
             && IsNumber(words[2]) && Strtol(words[2]).value < 0
    requires Designates(p, ByPath(tables, path), tables, params)
    ensures var words := Tokens(path);
            var r := Reduced(Strtol(words[2]).value);
            && p.At? && p.kind == None
            && (words[1] == "arg" ==>
                  && (forall j :: 0 <= j < MAX_PARAMS ==>
                        && (InSlot(record, ARG_OFFSET, j, p.address) <==> r == j)
                        && (InSlot(record, RAWARG_OFFSET, j, p.address) <==> r == j - 32))
                  && (InRecord(record, p.address) <==> -43 <= r < 67))
            && (words[1] == "rawarg" ==>
                  && (forall j :: 0 <= j < MAX_PARAMS ==>
                        && (InSlot(record, RAWARG_OFFSET, j, p.address) <==> r == j)
                        && (InSlot(record, ARG_OFFSET, j, p.address) <==> r == j + 32))
                  && (InRecord(record, p.address) <==> -11 <= r < 99))
  {
    hide Strtol, Tokens, ByPath, EvtBound, Reduced, InSlot, InRecord;
    PathField(tables, record, path);
    var words := Tokens(path);
    var index := Strtol(words[2]).value;
    var r := ByPath(tables, path);
    assert p == SlotPointer(record + r.field.offset, params, index);
    IndexLands(record, params, index, 0);
    forall j | 0 <= j < MAX_PARAMS
      ensures words[1] == "arg" ==>
                && (InSlot(record, ARG_OFFSET, j, p.address) <==> Reduced(index) == j)
                && (InSlot(record, RAWARG_OFFSET, j, p.address) <==> Reduced(index) == j - 32)
      ensures words[1] == "rawarg" ==>
                && (InSlot(record, RAWARG_OFFSET, j, p.address) <==> Reduced(index) == j)
                && (InSlot(record, ARG_OFFSET, j, p.address) <==> Reduced(index) == j + 32)
    {
      IndexLands(record, params, index, j);
    }
  }

  /** Small numbers stand for themselves; everything below the range of `long` stands for slot 0. */
  lemma ReducedIs(index: int)
    ensures -0x1000_0000_0000_0000 <= index < 0x1000_0000_0000_0000 ==> Reduced(index) == index
    ensures Reduced(LONG_MIN) == 0
  {
  }

  lemma ArgWords(word: string)
    requires word != "" && '.' !in word
    ensures Tokens("evt.arg." + word) == ["evt", "arg", word]
  {
    hide Tokens;
    TokensOfWord("evt");
    TokensOfWord("arg");
    TokensOfWord(word);
    TokensJoin("evt", "arg." + word);
    TokensJoin("arg", word);
    assert "evt.arg." + word == "evt" + "." + ("arg." + word);
    assert "arg." + word == "arg" + "." + word;
  }

  /**
   In the paths a rule can write: `evt.arg.-1` to `evt.arg.-32` lead to slots 31 to 0 of
   `rawarg`, and every number below the range of `long` leads to slot 0 of `arg`.
   */
  lemma NegativePathSlot(tables: map<string, Table>, record: nat, v: int, params: seq<Param>, p: Pointer,
                         rawarg: seq<Slot>, arg: seq<Slot>)
    requires EvtBound(tables, record) && |params| <= MAX_PARAMS && |rawarg| == |arg| == MAX_PARAMS && v < 0
    requires Designates(p, ByPath(tables, "evt.arg." + PrintInt(v)), tables, params)
    ensures p.At? && p.kind == None
    ensures v >= -32 ==> SlotAt(record, rawarg, arg, p.address) == rawarg[32 + v]
    ensures v <= LONG_MIN ==> SlotAt(record, rawarg, arg, p.address) == arg[0]
  {
    hide Tokens, Strtol, PrintInt, ByPath, EvtBound, Reduced, Designates;
    var word := PrintInt(v);
    PrintedIsWord(v);
    StrtolOfPrinted(v);
    ArgWords(word);
    var index := Clamp(v);
    NegativeArgument(tables, record, "evt.arg." + word, params, p);
    ReducedIs(index);
    if v >= -32 {
      assert InSlot(record, RAWARG_OFFSET, 32 + v, p.address);
      SlotOfIndex(record, rawarg, arg, 32 + v);
    } else if v <= LONG_MIN {
      assert InSlot(record, ARG_OFFSET, 0, p.address);
      SlotOfIndex(record, rawarg, arg, 0);
    }
  }

  // ---------------------------------------------------------------------------
  // A program that stores less than its table declares

  /** The position after the last store is the end of the event. */
  lemma AfterLast(b: Scratch, c: Context, stores: seq<Store>)
    requires Codec.Valid(b) && Program(c, stores)
    ensures var event := Encoded(b, c, stores);
            HEADER_SIZE + SizeBefore(event, |stores|) == |event|
  {
    hide ExecAll, LoadHeader, Submit, Clean, Sane, ParamOffset, ParamIs, HeaderIs;
    EventArrives(b, c, stores);
  }

  /** The first parameter that was not stored points past the end of the event: there is nothing of it to show. */
  lemma UnstoredIsPastEnd(b: Scratch, c: Context, stores: seq<Store>, params: seq<Param>, w: World)
    requires Codec.Valid(b) && Program(c, stores) && IdsStored(stores, params) && |stores| < |params|
    ensures var event := Encoded(b, c, stores);
            Readable(event, params) && SlotFor(event, params, |stores|, w) == Into(|event|)
  {
    hide Encoded, Program, Payload, SizeBefore, Value, ToInt, NameOr;
    IdsReadable(b, c, stores, params);
    AfterLast(b, c, stores);
  }

  /** The two stores `recvfrom_x` makes on success, where the table declares three parameters. */
  function RecvfromStores(ret: seq<byte>, socket: Socket): seq<Store> {
    [Fixed(ret), SockTuple(socket)]
  }

  const RECVFROM_PARAMS := [Param("res", Int32), Param("data", ByteBufType), Param("tuple", SockTupleType)]

  /** There the parameter "data" shows the socket tuple, and "tuple" points past the end of the event. */
  lemma RecvfromIsShifted(b: Scratch, c: Context, ret: seq<byte>, socket: Socket, w: World)
    requires Codec.Valid(b) && Program(c, RecvfromStores(ret, socket))
    ensures var event := Encoded(b, c, RecvfromStores(ret, socket));
            && Readable(event, RECVFROM_PARAMS)
            && Shows(SlotFor(event, RECVFROM_PARAMS, 1, w), event, ByteBufType, Payload(SockTuple(socket)), w)
            && SlotFor(event, RECVFROM_PARAMS, 2, w) == Into(|event|)
  {
    hide Encoded, Program, Payload, Value, SlotFor;
    var stores := RecvfromStores(ret, socket);
    SlotShows(b, c, stores, RECVFROM_PARAMS, w, 1);
    UnstoredIsPastEnd(b, c, stores, RECVFROM_PARAMS, w);
  }
}
