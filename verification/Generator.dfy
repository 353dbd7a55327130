/**
 The generator of encoder programs (`generate_bpf_files.py`): it reads the list of typed
 parameters of a system call and emits one store call per parameter.
 */
module Generator {
  import opened Basics
  import opened Codec
  import opened CodecRoundTrip

  datatype Param = Param(ctype: string, name: string)

  // ---------------------------------------------------------------------------
  // Reading the parameter list

  /** Python's `str.isspace` for one character. */
  predicate IsBlank(c: char) {
    var n := c as int;
    || 9 <= n <= 13 || 28 <= n <= 32 || n == 0x85 || n == 0xA0 || n == 0x1680 || 0x2000 <= n <= 0x200A
    || n == 0x2028 || n == 0x2029 || n == 0x202F || n == 0x205F || n == 0x3000
  }

  /** The six blank characters of ASCII are blanks; no letter, digit or mark of a C type is. */
  lemma BlanksAre(c: char)
    ensures c in " \t\n\r\U{0B}\U{0C}" ==> IsBlank(c)
    ensures 'a' <= c <= 'z' || 'A' <= c <= 'Z' || '0' <= c <= '9' || c in "_*,()[]" ==> !IsBlank(c)
  {
  }

  function StripLeft(s: string): string {
    if s != "" && IsBlank(s[0]) then StripLeft(s[1..]) else s
  }

  function StripRight(s: string): string {
    if s != "" && IsBlank(s[|s| - 1]) then StripRight(s[..|s| - 1]) else s
  }

  function Strip(s: string): string {
    StripRight(StripLeft(s))
  }

  /** Position of the first comma, or the length. */
  function Comma(s: string): (n: nat)
    ensures n <= |s| && (n < |s| ==> s[n] == ',')
    ensures forall i :: 0 <= i < n ==> s[i] != ','
  {
    if s == "" || s[0] == ',' then 0 else 1 + Comma(s[1..])
  }

  /** The stripped pieces between commas; there is always at least one. */
  function Items(s: string): (r: seq<string>)
    ensures r != []
    decreases |s|
  {
    var n := Comma(s);
    if n == |s| then [Strip(s)] else [Strip(s[..n])] + Items(s[n + 1..])
  }

  /** Type and name in turn; an odd item at the end is dropped. */
  function Pairs(items: seq<string>): seq<Param> {
    if |items| < 2 then [] else [Param(items[0], items[1])] + Pairs(items[2..])
  }

  method ParseEnterParams(s: string) returns (params: seq<Param>)
    ensures params == Pairs(Items(s))
  {
    var items := Items(s);
    params := [];
    var i := 0;
    while i < |items|
      invariant 0 <= i
      invariant i <= |items| ==> params + Pairs(items[i..]) == Pairs(items)
      invariant i > |items| ==> params == Pairs(items)
    {
      if i + 1 >= |items| {
        break;
      }
      assert items[i..][2..] == items[i + 2..];
      params := params + [Param(items[i], items[i + 1])];
      i := i + 2;
    }
  }

  // ---------------------------------------------------------------------------
  // Writing it

  function Flatten(params: seq<Param>): seq<string> {
    if params == [] then [] else [params[0].ctype, params[0].name] + Flatten(params[1..])
  }

  function Join(items: seq<string>): string {
    if items == [] then "" else if |items| == 1 then items[0] else items[0] + ", " + Join(items[1..])
  }

  /** As in the macro header: types and names separated by a comma and a blank. */
  function Print(params: seq<Param>): string {
    Join(Flatten(params))
  }

  /** Can be written as one item. */
  predicate Writable(s: string) {
    ',' !in s && (s == "" || (!IsBlank(s[0]) && !IsBlank(s[|s| - 1])))
  }

  // ---------------------------------------------------------------------------
  // Parsing what was printed

  lemma {:induction false} StripLeftSub(s: string)
    ensures StripLeft(s) <= s || |StripLeft(s)| < |s|
    ensures forall c :: c in StripLeft(s) ==> c in s
    ensures StripLeft(s) == "" || !IsBlank(StripLeft(s)[0])
  {
    if s != "" && IsBlank(s[0]) {
      StripLeftSub(s[1..]);
    }
  }

  lemma {:induction false} StripRightSub(s: string)
    ensures StripRight(s) <= s
    ensures StripRight(s) == "" || !IsBlank(StripRight(s)[|StripRight(s)| - 1])
  {
    if s != "" && IsBlank(s[|s| - 1]) {
      StripRightSub(s[..|s| - 1]);
    }
  }

  lemma StripWritable(s: string)
    requires ',' !in s
    ensures Writable(Strip(s))
  {
    StripLeftSub(s);
    StripRightSub(StripLeft(s));
    var r := Strip(s);
    assert forall i :: 0 <= i < |r| ==> r[i] == StripLeft(s)[i];
  }

  lemma StripOfWritable(s: string)
    requires Writable(s)
    ensures Strip(s) == s && Strip(" " + s) == s
  {
    assert (" " + s)[1..] == s;
    assert StripLeft(" " + s) == StripLeft(s);
  }

  lemma {:induction false} StripLeftBlanks(blanks: string, s: string)
    requires (forall i :: 0 <= i < |blanks| ==> IsBlank(blanks[i])) && (s == "" || !IsBlank(s[0]))
    ensures StripLeft(blanks + s) == s
  {
    if blanks == "" {
      assert blanks + s == s;
    } else {
      assert (blanks + s)[1..] == blanks[1..] + s;
      StripLeftBlanks(blanks[1..], s);
    }
  }

  lemma {:induction false} StripRightBlanks(s: string, blanks: string)
    requires (forall i :: 0 <= i < |blanks| ==> IsBlank(blanks[i])) && (s == "" || !IsBlank(s[|s| - 1]))
    ensures StripRight(s + blanks) == s
  {
    if blanks == "" {
      assert s + blanks == s;
    } else {
      var k := |blanks| - 1;
      assert (s + blanks)[..|s + blanks| - 1] == s + blanks[..k];
      StripRightBlanks(s, blanks[..k]);
    }
  }

  /** Blanks around an item do not count. */
  lemma StripPadded(before: string, item: string, after: string)
    requires Writable(item) && item != ""
    requires forall i :: 0 <= i < |before| ==> IsBlank(before[i])
    requires forall i :: 0 <= i < |after| ==> IsBlank(after[i])
    ensures Strip(before + item + after) == item
  {
    assert before + item + after == before + (item + after);
    StripLeftBlanks(before, item + after);
    StripRightBlanks(item, after);
  }

  function JoinCommas(words: seq<string>): string {
    if words == [] then "" else if |words| == 1 then words[0] else words[0] + "," + JoinCommas(words[1..])
  }

  /** Whatever stands between the commas: there is one item for each piece, and it is the piece stripped. */
  lemma {:induction false} ItemsArePieces(words: seq<string>, i: nat)
    requires i < |words| && forall k :: 0 <= k < |words| ==> ',' !in words[k]
    ensures |Items(JoinCommas(words))| == |words| && Items(JoinCommas(words))[i] == Strip(words[i])
    decreases words
  {
    hide Strip, Items;
    if |words| == 1 {
      LastItem(words[0]);
    } else {
      FirstItem(words[0], JoinCommas(words[1..]));
      ItemsArePieces(words[1..], if i == 0 then 0 else i - 1);
    }
  }

  lemma {:induction false} CommaAt(s: string, n: nat)
    requires n <= |s| && (n < |s| ==> s[n] == ',') && forall i :: 0 <= i < n ==> s[i] != ','
    ensures Comma(s) == n
  {
    if n > 0 {
      CommaAt(s[1..], n - 1);
    }
  }

  /** Every parsed item is comma-free and stripped. */
  lemma {:induction false} ItemsWritable(s: string, i: nat)
    requires i < |Items(s)|
    ensures Writable(Items(s)[i])
    decreases |s|
  {
    hide Strip, Writable;
    var n := Comma(s);
    if i == 0 {
      assert ',' !in s[..n];
      StripWritable(s[..n]);
      assert n == |s| ==> s[..n] == s;
    } else {
      ItemsWritable(s[n + 1..], i - 1);
    }
  }

  lemma LastItem(word: string)
    requires ',' !in word
    ensures Items(word) == [Strip(word)]
  {
    CommaAt(word, |word|);
  }

  lemma FirstItem(word: string, rest: string)
    requires ',' !in word
    ensures Items(word + "," + rest) == [Strip(word)] + Items(rest)
  {
    hide Strip;
    var s := word + "," + rest;
    CommaAt(s, |word|);
    assert s[..|word|] == word;
    assert s[|word| + 1..] == rest;
  }

  lemma PaddedWord(item: string, pad: string)
    requires Writable(item) && pad in {"", " "}
    ensures ',' !in pad + item && Strip(pad + item) == item
  {
    hide Strip;
    StripOfWritable(item);
    if pad == "" {
      assert pad + item == item;
    }
  }

  /** With or without the blank that follows a comma. */
  lemma {:induction false} ItemsOfJoin(items: seq<string>, pad: string)
    requires items != [] && pad in {"", " "} && forall i :: 0 <= i < |items| ==> Writable(items[i])
    ensures Items(pad + Join(items)) == items
    decreases items
  {
    hide Strip, Items, Writable;
    var word := pad + items[0];
    PaddedWord(items[0], pad);
    if |items| == 1 {
      LastItem(word);
      assert items == [items[0]];
    } else {
      var rest := " " + Join(items[1..]);
      FirstItem(word, rest);
      assert pad + Join(items) == word + "," + rest;
      ItemsOfJoin(items[1..], " ");
      assert items == [items[0]] + items[1..];
    }
  }

  lemma {:induction false} FlattenItems(params: seq<Param>)
    ensures |Flatten(params)| == 2 * |params|
    ensures forall i :: 0 <= i < |params| ==>
              Flatten(params)[2 * i] == params[i].ctype && Flatten(params)[2 * i + 1] == params[i].name
  {
    if params != [] {
      FlattenItems(params[1..]);
      forall i | 0 <= i < |params|
        ensures Flatten(params)[2 * i] == params[i].ctype && Flatten(params)[2 * i + 1] == params[i].name
      {
        if i > 0 {
          assert params[1..][i - 1] == params[i];
        }
      }
    }
  }

  lemma {:induction false} PairsOfFlatten(params: seq<Param>)
    ensures Pairs(Flatten(params)) == params
  {
    if params != [] {
      PairsOfFlatten(params[1..]);
      assert Flatten(params)[2..] == Flatten(params[1..]);
    }
  }

  lemma {:induction false} PairsFromItems(items: seq<string>, i: nat)
    requires i < |Pairs(items)|
    ensures 2 * i + 1 < |items| && Pairs(items)[i] == Param(items[2 * i], items[2 * i + 1])
  {
    if i > 0 {
      PairsFromItems(items[2..], i - 1);
    }
  }

  predicate AllWritable(params: seq<Param>) {
    forall i :: 0 <= i < |params| ==> Writable(params[i].ctype) && Writable(params[i].name)
  }

  /** Reading back a printed parameter list returns it exactly when every type and name is one stripped item. */
  lemma ParseOfPrint(params: seq<Param>)
    ensures Pairs(Items(Print(params))) == params <==> AllWritable(params)
  {
    hide Writable, Items, Pairs, Strip;
    if Pairs(Items(Print(params))) == params {
      var items := Items(Print(params));
      forall i | 0 <= i < |params| ensures Writable(params[i].ctype) && Writable(params[i].name) {
        PairsFromItems(items, i);
        ItemsWritable(Print(params), 2 * i);
        ItemsWritable(Print(params), 2 * i + 1);
      }
    }
    if AllWritable(params) {
      PrintedParses(params);
    }
  }

  lemma PrintedParses(params: seq<Param>)
    requires AllWritable(params)
    ensures Pairs(Items(Print(params))) == params
  {
    hide Writable, Strip;
    if params == [] {
      return;
    }
    hide Items, Flatten, Pairs;
    var items := Flatten(params);
    FlattenItems(params);
    forall j | 0 <= j < |items| ensures Writable(items[j]) {
      var i := j / 2;
      assert j == 2 * i || j == 2 * i + 1;
      assert Writable(params[i].ctype) && Writable(params[i].name);
    }
    ItemsOfJoin(items, "");
    assert "" + Join(items) == Print(params);
    PairsOfFlatten(params);
  }

  // ---------------------------------------------------------------------------
  // The type map

  datatype StoreFunc =
    | StoreS8 | StoreS16 | StoreS32 | StoreS64 | StoreU8 | StoreU16 | StoreU32 | StoreU64 | StoreCharPointer
  datatype Cast = Cast(width: nat, pointer: bool)

  function FuncWidth(f: StoreFunc): nat {
    match f
    case StoreS8 => 1 case StoreU8 => 1
    case StoreS16 => 2 case StoreU16 => 2
    case StoreS32 => 4 case StoreU32 => 4
    case StoreS64 => 8 case StoreU64 => 8
    case StoreCharPointer => 8
  }

  datatype Mapped = Unmapped | Mapped(f: StoreFunc, cast: Cast)

  function SignedTypes(ctype: string): Mapped {
    if ctype == "char" then Mapped(StoreS8, Cast(1, false))
    else if ctype == "short" then Mapped(StoreS16, Cast(2, false))
    else if ctype in ["int", "__s32", "key_t", "pid_t", "timer_t", "clockid_t", "const clockid_t", "mqd_t",
                      "key_serial_t", "rwf_t"] then Mapped(StoreS32, Cast(4, false))
    else if ctype in ["long", "off_t", "loff_t"] then Mapped(StoreS64, Cast(8, false))
    else Unmapped
  }

  function UnsignedTypes(ctype: string): Mapped {
    if ctype == "unsigned char" then Mapped(StoreU8, Cast(1, false))
    else if ctype in ["unsigned short", "umode_t"] then Mapped(StoreU16, Cast(2, false))
    else if ctype in ["unsigned", "unsigned int", "u32", "uid_t", "gid_t", "qid_t"] then
      Mapped(StoreU32, Cast(4, false))
    else if ctype in ["unsigned long", "size_t", "aio_context_t"] then Mapped(StoreU64, Cast(8, false))
    else Unmapped
  }

  function PointerTypes(ctype: string): Mapped {
    if ctype == "int *" then Mapped(StoreS32, Cast(4, true))
    else if ctype == "loff_t *" then Mapped(StoreS64, Cast(8, true))
    else if ctype in ["unsigned *", "unsigned int *", "u32 *", "uid_t *", "gid_t *"] then
      Mapped(StoreU32, Cast(4, true))
    else if ctype in ["unsigned long *", "const unsigned long *", "size_t *"] then Mapped(StoreU64, Cast(8, true))
    else if ctype in ["char *", "unsigned char *", "const char *", "const unsigned char *", "const char *const *"]
    then Mapped(StoreCharPointer, Cast(8, false))
    else Unmapped
  }

  /** Store function and cast type for a C type; anything unlisted is stored as 64 bits. */
  function TypeMap(ctype: string): (StoreFunc, Cast) {
    match SignedTypes(ctype)
    case Mapped(f, cast) => (f, cast)
    case Unmapped =>
      match UnsignedTypes(ctype)
      case Mapped(f, cast) => (f, cast)
      case Unmapped =>
        match PointerTypes(ctype)
        case Mapped(f, cast) => (f, cast)
        case Unmapped => (StoreU64, Cast(8, false))
  }

  lemma SignedNoStar(ctype: string)
    ensures SignedTypes(ctype).Mapped? ==> '*' !in ctype
  {
  }

  lemma UnsignedNoStar(ctype: string)
    ensures UnsignedTypes(ctype).Mapped? ==> '*' !in ctype
  {
  }

  lemma PointerMapped(ctype: string)
    ensures var m := PointerTypes(ctype); m.Mapped? ==> m.f.StoreCharPointer? || m.cast.pointer
  {
  }

  /** The cast never loses or invents bytes that the store function then writes. */
  lemma TypeMapFits(ctype: string)
    ensures var (f, cast) := TypeMap(ctype);
            cast.width == FuncWidth(f) && cast.width in {1, 2, 4, 8} && (f.StoreCharPointer? ==> !cast.pointer)
  {
  }

  // ---------------------------------------------------------------------------
  // C's own view of the types

  /** Strings in the task's memory. */
  predicate IsText(ctype: string) {
    ctype in ["char *", "const char *", "unsigned char *", "const unsigned char *", "const char *const *"]
  }

  /** `sizeof` of what a pointer that is followed points at; 0 for every type that is not such a pointer. */
  function PointeeSize(ctype: string): nat {
    if ctype in ["int *", "u32 *", "unsigned *", "unsigned int *", "uid_t *", "gid_t *"] then 4
    else if ctype in ["loff_t *", "size_t *", "unsigned long *", "const unsigned long *"] then 8
    else 0
  }

  /** `sizeof` of the plain types on a 64-bit kernel; all others are passed as a full register. */
  function PlainSize(ctype: string): nat {
    if ctype in ["char", "unsigned char"] then 1
    else if ctype in ["short", "unsigned short", "umode_t"] then 2
    else if ctype in ["int", "unsigned", "unsigned int", "__s32", "u32", "pid_t", "uid_t", "gid_t", "qid_t", "key_t",
                      "key_serial_t", "mqd_t", "rwf_t", "timer_t", "clockid_t", "const clockid_t"] then 4
    else 8
  }

  lemma SignedSizes(ctype: string)
    ensures SignedTypes(ctype).Mapped? ==>
              && !IsText(ctype) && PointeeSize(ctype) == 0 && SignedTypes(ctype).cast == Cast(PlainSize(ctype), false)
              && !SignedTypes(ctype).f.StoreCharPointer?
  {
    hide IsText, PointeeSize, PlainSize;
    if SignedTypes(ctype).Mapped? {
      if SignedTypes(ctype).f == StoreS32 {
        WordSizes(ctype);
      } else {
        OtherSizes(ctype);
      }
    }
  }

  lemma WordSizes(ctype: string)
    requires ctype in ["int", "__s32", "key_t", "pid_t", "timer_t", "clockid_t", "const clockid_t", "mqd_t",
                       "key_serial_t", "rwf_t"]
    ensures !IsText(ctype) && PointeeSize(ctype) == 0 && PlainSize(ctype) == 4
  {
  }

  lemma OtherSizes(ctype: string)
    requires ctype in ["char", "short", "long", "off_t", "loff_t"]
    ensures !IsText(ctype) && PointeeSize(ctype) == 0
    ensures PlainSize(ctype) == if ctype == "char" then 1 else if ctype == "short" then 2 else 8
  {
  }

  lemma UnsignedSizes(ctype: string)
    ensures UnsignedTypes(ctype).Mapped? ==>
              && !IsText(ctype) && PointeeSize(ctype) == 0 && UnsignedTypes(ctype).cast == Cast(PlainSize(ctype), false)
              && !UnsignedTypes(ctype).f.StoreCharPointer?
  {
  }

  lemma PointerSizes(ctype: string)
    ensures IsText(ctype) || PointeeSize(ctype) > 0 <==> PointerTypes(ctype).Mapped?
    ensures PointerTypes(ctype).Mapped? ==>
              && (PointerTypes(ctype).f.StoreCharPointer? <==> IsText(ctype))
              && (!IsText(ctype) ==> PointerTypes(ctype).cast == Cast(PointeeSize(ctype), true))
  {
  }

  /** A type of less than a register is one of the mapped ones. */
  lemma SmallTypesAreMapped(ctype: string)
    ensures PlainSize(ctype) < 8 ==> SignedTypes(ctype).Mapped? || UnsignedTypes(ctype).Mapped?
  {
  }

  /** The type map follows C's view: text as text, pointers at their pointee's size, plain types at theirs. */
  lemma TypeMapIsC(ctype: string)
    ensures var (f, cast) := TypeMap(ctype);
            && (f.StoreCharPointer? <==> IsText(ctype))
            && (!IsText(ctype) && PointeeSize(ctype) > 0 ==> cast == Cast(PointeeSize(ctype), true))
            && (!IsText(ctype) && PointeeSize(ctype) == 0 ==> cast == Cast(PlainSize(ctype), false))
  {
    hide SignedTypes, UnsignedTypes, PointerTypes, IsText, PointeeSize, PlainSize;
    SignedSizes(ctype);
    UnsignedSizes(ctype);
    PointerSizes(ctype);
    SmallTypesAreMapped(ctype);
    SizeBound(ctype);
  }

  lemma SizeBound(ctype: string)
    ensures PlainSize(ctype) <= 8
  {
  }

  // ---------------------------------------------------------------------------
  // Generating

  const CHARBUF_MAX := 4096
  const REGISTERS := 6

  /** One generated block: which argument register it reads and what it does with it. */
  datatype Block =
    | StoreText(reg: nat, limit: nat)
    | StorePointee(f: StoreFunc, width: nat, reg: nat)
    | StoreValue(f: StoreFunc, width: nat, reg: nat)

  method GenerateStores(params: seq<Param>) returns (code: seq<Block>)
    ensures |code| == |params|
    ensures forall i :: 0 <= i < |params| ==> code[i] == BlockFor(params[i].ctype, i)
    ensures forall i :: 0 <= i < |params| ==> code[i].reg == i
  {
    hide TypeMap;
    code := [];
    for i := 0 to |params|
      invariant |code| == i
      invariant forall k :: 0 <= k < i ==> code[k] == BlockFor(params[k].ctype, k)
    {
      var (f, cast) := TypeMap(params[i].ctype);
      if f == StoreCharPointer {
        code := code + [StoreText(i, CHARBUF_MAX)];
      } else if cast.pointer {
        code := code + [StorePointee(f, cast.width, i)];
      } else if '*' in params[i].ctype {
        PointerByAddress(params[i].ctype);
        code := code + [StoreValue(StoreU64, 8, i)];
      } else {
        code := code + [StoreValue(f, cast.width, i)];
      }
    }
  }

  /** Text is copied, a mapped pointer is followed, everything else is stored as it is. */
  function BlockFor(ctype: string, i: nat): Block {
    var (f, cast) := TypeMap(ctype);
    if f.StoreCharPointer? then StoreText(i, CHARBUF_MAX)
    else if cast.pointer then StorePointee(f, cast.width, i)
    else StoreValue(f, cast.width, i)
  }

  /** A pointer type that is neither text nor mapped to a pointee is stored as an address. */
  lemma PointerByAddress(ctype: string)
    requires '*' in ctype && !TypeMap(ctype).0.StoreCharPointer? && !TypeMap(ctype).1.pointer
    ensures TypeMap(ctype) == (StoreU64, Cast(8, false))
  {
    hide SignedTypes, UnsignedTypes, PointerTypes;
    SignedNoStar(ctype);
    UnsignedNoStar(ctype);
    PointerMapped(ctype);
  }

  // ---------------------------------------------------------------------------
  // Running the generated program

  /** The traced task: argument registers, and what reading its memory gives. */
  datatype Task = Task(regs: seq<nat>, word: (nat, nat) -> seq<byte>, text: (nat, nat) -> Fetch)

  /** Helpers fill the width asked for and respect the limit. */
  ghost predicate TaskOk(t: Task) {
    && |t.regs| == REGISTERS
    && (forall i :: 0 <= i < REGISTERS ==> t.regs[i] < U64)
    && (forall a: nat, w: nat :: |t.word(a, w)| == w)
    && (forall a: nat, limit: nat :: TextBounded(t.text(a, limit), limit))
  }

  predicate TextBounded(f: Fetch, limit: nat) {
    match f
    case Fault(junk) => |junk| <= limit
    case Fetched(bytes) => |bytes| <= limit
  }

  /** `get_pt_regs_argumnet`. */
  function Register(t: Task, i: nat): nat {
    if i < |t.regs| then t.regs[i] else 0
  }

  function RunBlock(b: Block, t: Task): Store {
    match b
    case StoreText(reg, limit) => CharPointer(Register(t, reg) != 0, t.text(Register(t, reg), limit))
    case StorePointee(_, width, reg) =>
      Fixed(if Register(t, reg) == 0 then Bytes(0, width) else t.word(Register(t, reg), width))
    case StoreValue(_, width, reg) => Fixed(Bytes(Register(t, reg), width))
  }

  function RunBlocks(code: seq<Block>, t: Task): (stores: seq<Store>)
    ensures |stores| == |code|
    ensures forall i :: 0 <= i < |code| ==> stores[i] == RunBlock(code[i], t)
  {
    if code == [] then [] else RunBlocks(code[..|code| - 1], t) + [RunBlock(code[|code| - 1], t)]
  }

  predicate Generated(code: seq<Block>, params: seq<Param>) {
    |code| == |params| && forall i :: 0 <= i < |params| ==> code[i] == BlockFor(params[i].ctype, i)
  }

  lemma BlockFits(ctype: string, i: nat, t: Task)
    requires TaskOk(t)
    ensures var st := RunBlock(BlockFor(ctype, i), t);
            Sane(st) && |Payload(st)| <= SizeLimit(i)
  {
    hide TypeMap, Bytes;
    TypeMapFits(ctype);
    var b := BlockFor(ctype, i);
    if b.StoreText? {
      assert TextBounded(t.text(Register(t, i), CHARBUF_MAX), CHARBUF_MAX);
    } else if b.StorePointee? {
      assert |t.word(Register(t, i), b.width)| == b.width;
    }
  }

  /** A parameter beyond the registers reads as zero, so it takes a word at most. */
  function SizeLimit(i: nat): nat {
    if i < REGISTERS then CHARBUF_MAX else 8
  }

  function TotalLimit(n: nat): nat {
    if n <= REGISTERS then CHARBUF_MAX * n else CHARBUF_MAX * REGISTERS + 8 * (n - REGISTERS)
  }

  lemma {:induction false} FlatBounded(stores: seq<Store>)
    requires forall i :: 0 <= i < |stores| ==> |Payload(stores[i])| <= SizeLimit(i)
    ensures |Flat(stores)| <= TotalLimit(|stores|)
    decreases stores
  {
    hide Payload;
    if stores != [] {
      FlatBounded(stores[..|stores| - 1]);
    }
  }

  /** What the reader of a generated event finds in parameter `i`. */
  ghost predicate Carries(payload: seq<byte>, b: Block, t: Task) {
    match b
    case StoreValue(_, width, reg) => |payload| == width && Value(payload) == Register(t, reg) % Power256(width)
    case StorePointee(_, width, reg) =>
      if Register(t, reg) == 0 then |payload| == width && Value(payload) == 0
      else payload == t.word(Register(t, reg), width)
    case StoreText(reg, limit) =>
      if Register(t, reg) == 0 then payload == []
      else match t.text(Register(t, reg), limit)
        case Fault(_) => payload == []
        case Fetched(bytes) => payload == if bytes == [] then [0] else bytes
  }

  /** What is left of a number after its low bytes. */
  function High(v: nat, n: nat): nat
    decreases n
  {
    if n == 0 then v else High(v / 256, n - 1)
  }

  lemma {:induction false} LowBytes(v: nat, n: nat)
    ensures Value(Bytes(v, n)) < Power256(n)
    ensures v == High(v, n) * Power256(n) + Value(Bytes(v, n))
    decreases n
  {
    if n > 0 {
      LowBytes(v / 256, n - 1);
      assert Bytes(v, n)[1..] == Bytes(v / 256, n - 1);
      Shifted(High(v, n), Power256(n - 1));
    }
  }

  lemma Shifted(q: nat, m: nat)
    ensures 256 * (q * m) == q * (256 * m)
  {
  }

  /** Storing a register in a C width keeps it modulo that width. */
  lemma Truncated(v: nat, n: nat)
    requires n in {1, 2, 4, 8}
    ensures Value(Bytes(v, n)) == v % Power256(n)
  {
    hide Bytes, Value, High;
    LowBytes(v, n);
    assert Power256(1) == 0x100;
    assert Power256(2) == 0x1_0000;
    Power4();
    Power8();
    hide Power256;
  }

  lemma BlockCarries(ctype: string, i: nat, t: Task)
    requires TaskOk(t)
    ensures Carries(Payload(RunBlock(BlockFor(ctype, i), t)), BlockFor(ctype, i), t)
  {
    hide TypeMap, Bytes, Power256, Value;
    TypeMapFits(ctype);
    var b := BlockFor(ctype, i);
    if b.StoreValue? {
      Truncated(Register(t, i), b.width);
    } else if b.StorePointee? {
      LowBytes(0, b.width);
      ZeroBytes(b.width);
    }
  }

  lemma {:induction false} ZeroBytes(n: nat)
    ensures Value(Bytes(0, n)) == 0
  {
    if n > 0 {
      ZeroBytes(n - 1);
      assert Bytes(0, n)[1..] == Bytes(0, n - 1);
    }
  }

  lemma GeneratedFits(params: seq<Param>, code: seq<Block>, t: Task)
    requires TaskOk(t) && |params| <= MAX_PARAMS && Generated(code, params)
    ensures var stores := RunBlocks(code, t);
            && AllSane(stores) && Clean(stores) && |stores| == |params|
            && |Flat(stores)| <= TotalLimit(|params|)
            && forall i :: 0 <= i < |params| ==> Carries(Payload(stores[i]), BlockFor(params[i].ctype, i), t)
  {
    hide Payload, Sane, Junk, BlockFor, RunBlock, Carries, Flat, TaskOk;
    var stores := RunBlocks(code, t);
    forall i | 0 <= i < |stores|
      ensures Sane(stores[i]) && |Payload(stores[i])| <= SizeLimit(i)
      ensures Carries(Payload(stores[i]), BlockFor(params[i].ctype, i), t)
    {
      BlockFits(params[i].ctype, i, t);
      BlockCarries(params[i].ctype, i, t);
    }
    FlatBounded(stores);
    forall i | 0 <= i < |stores| ensures HEADER_SIZE + |Flat(stores[..i])| < EVENT_MAX {
      FlatBounded(stores[..i]);
    }
  }

  /**
   What parameter `i` must be for the reader, from the task and the parameter's C type alone:
   text read at the register's address; what a listed pointer points at, or zeros for null;
   the register itself, cut to the size of a plain type. There are six registers, and further
   parameters read as zero.
   */
  ghost predicate Tells(payload: seq<byte>, ctype: string, i: nat, t: Task) {
    var register := if i < 6 && i < |t.regs| then t.regs[i] else 0;
    if IsText(ctype) then
      if register == 0 then payload == []
      else
        match t.text(register, 4096)
        case Fault(_) => payload == []
        case Fetched(bytes) => payload == if bytes == [] then [0] else bytes
    else if PointeeSize(ctype) > 0 then
      if register == 0 then |payload| == PointeeSize(ctype) && Value(payload) == 0
      else payload == t.word(register, PointeeSize(ctype))
    else
      |payload| == PlainSize(ctype) && Value(payload) == register % Power256(PlainSize(ctype))
  }

  lemma CarriesTells(payload: seq<byte>, ctype: string, i: nat, t: Task)
    requires TaskOk(t) && Carries(payload, BlockFor(ctype, i), t)
    ensures Tells(payload, ctype, i, t)
  {
    hide TypeMap, IsText, PointeeSize, PlainSize, Value, Power256;
    TypeMapIsC(ctype);
    TypeMapFits(ctype);
  }

  /** The event is short enough, has the loaded header, and parameter `i` tells what the task passed. */
  ghost predicate Arrived(out: Submitted, c: Context, params: seq<Param>, t: Task)
    requires ContextOk(c)
  {
    && |params| <= MAX_PARAMS
    && out.Event? && HEADER_SIZE <= |out.bytes| <= HEADER_SIZE + TotalLimit(|params|)
    && HeaderIs(out.bytes, c)
    && forall i :: 0 <= i < |params| ==> ParamTells(out.bytes, i, params[i].ctype, t)
  }

  ghost predicate ParamTells(event: seq<byte>, i: nat, ctype: string, t: Task)
    requires |event| >= HEADER_SIZE && i < MAX_PARAMS
  {
    exists payload :: ParamIs(event, i, payload) && Tells(payload, ctype, i, t)
  }

  /**
   A generated program is never dropped: with at most six parameters its event is at most
   4112 + 6 * 4096 bytes long, each further one adds a word at most, and parameter `i` tells
   what the task passed as argument `i`, whatever the buffer held before.
   */
  lemma GeneratedEventsArrive(b: Scratch, c: Context, params: seq<Param>, code: seq<Block>, t: Task)
    requires Codec.Valid(b) && ContextOk(c) && TaskOk(t)
    requires |params| <= MAX_PARAMS && Generated(code, params)
    ensures var stores := RunBlocks(code, t);
            AllSane(stores) && Arrived(Submit(ExecAll(LoadHeader(b, c), stores)), c, params, t)
  {
    hide Payload, Sane, Clean, BlockFor, RunBlocks, ExecAll, LoadHeader, Submit, HeaderIs, ParamIs, Carries,
         Flat, TaskOk, Tells;
    GeneratedFits(params, code, t);
    var stores := RunBlocks(code, t);
    EventArrives(b, c, stores);
    var event := Submit(ExecAll(LoadHeader(b, c), stores)).bytes;
    forall i | 0 <= i < |params| ensures ParamTells(event, i, params[i].ctype, t) {
      assert ParamIs(event, i, Payload(stores[i]));
      CarriesTells(Payload(stores[i]), params[i].ctype, i, t);
    }
  }
}
