/**
 The user side of the event codec (`linx_event_rich.c`): a received event fills the slots of
 one global record, which the field tables then make reachable by name.
 */
module EventRich {
  import opened Basics
  import opened Codec
  import opened CodecRoundTrip
  import opened FieldTables
  import opened CText

  /** A slot pointer: none, a text copied for the slot, or an address inside the event. */
  datatype Slot = NoSlot | Text(text: string) | Into(offset: nat)

  /** What the name services know: user names by uid, command names by pid. */
  datatype World = World(users: map<nat, string>, comms: map<int, string>)

  datatype EventInfo = EventInfo(name: string, params: seq<Param>)

  const TYPE_OFFSET := 56

  /** Offsets in `event_t` of the two slot arrays. */
  const RAWARG_OFFSET := 88
  const ARG_OFFSET := 344
  const RECORD_SIZE := 880

  /** The mappings that `bind_field_evt` registers. */
  const EVT_MAPPINGS := [
    Mapping("num", Field(0, 8, UInt64)), Mapping("time", Field(8, 64, CharBuf)),
    Mapping("type", Field(72, 8, CharBufArray)), Mapping("args", Field(80, 8, CharBuf)),
    Mapping("rawarg", Field(RAWARG_OFFSET, 256, Struct)), Mapping("arg", Field(ARG_OFFSET, 256, Struct)),
    Mapping("res", Field(600, 16, CharBuf)), Mapping("rawres", Field(616, 8, CharBuf)),
    Mapping("failed", Field(624, 1, Bool)), Mapping("dir", Field(625, 1, CharBuf))]

  /** Binding the event fields succeeds in a fresh registry, and leaves both slot arrays findable. */
  lemma EvtMappingsBind()
    ensures Distinct(EVT_MAPPINGS)
    ensures var fields := FieldsOf(EVT_MAPPINGS);
            && "arg" in fields && fields["arg"] == Field(ARG_OFFSET, 256, Struct)
            && "rawarg" in fields && fields["rawarg"] == Field(RAWARG_OFFSET, 256, Struct)
  {
    hide FieldsOf;
    FieldsOfDistinct(EVT_MAPPINGS, 4);
    FieldsOfDistinct(EVT_MAPPINGS, 5);
  }

  // ---------------------------------------------------------------------------
  // Slots

  /** The running 64-bit sum of sizes before parameter `i`. */
  function SizeBefore(event: seq<byte>, i: nat): nat
    requires |event| >= HEADER_SIZE && i <= MAX_PARAMS
  {
    (ParamOffset(event, i) - HEADER_SIZE) % U64
  }

  /** Width of what the decoder itself reads of a parameter. */
  function ReadWidth(kind: FieldType): nat {
    if kind == Uid then 4 else if kind == Pid then 8 else 0
  }

  /** The decoder reads inside the event. */
  predicate Readable(event: seq<byte>, params: seq<Param>) {
    && |event| >= HEADER_SIZE && |params| <= MAX_PARAMS
    && forall i :: 0 <= i < |params| ==>
         ReadWidth(params[i].kind) > 0 ==> HEADER_SIZE + SizeBefore(event, i) + ReadWidth(params[i].kind) <= |event|
  }

  function NameOr<K>(names: map<K, string>, key: K): string {
    if key in names then names[key] else "unknown"
  }

  /** What slot `i` must hold: users and processes by name, everything else by address. */
  function SlotFor(event: seq<byte>, params: seq<Param>, i: nat, w: World): Slot
    requires Readable(event, params) && i < |params|
  {
    var at := HEADER_SIZE + SizeBefore(event, i);
    match params[i].kind
    case Uid => Text(NameOr(w.users, Value(event[at..at + 4])))
    case Pid => Text(NameOr(w.comms, ToInt(Value(event[at..at + 8]))))
    case _ => Into(at)
  }

  ghost predicate Decoded(event: seq<byte>, params: seq<Param>, w: World, slots: seq<Slot>) {
    && Readable(event, params) && |slots| == MAX_PARAMS
    && forall i :: 0 <= i < |params| ==> slots[i] == SlotFor(event, params, i, w)
  }

  function EventType(event: seq<byte>): nat
    requires |event| >= HEADER_SIZE
  {
    Value(event[TYPE_OFFSET..TYPE_OFFSET + 4])
  }

  /** `(int64_t)value`. */
  function Signed(v: nat): int {
    if v < U64 / 2 then v else v - U64
  }

  /** The tables `update_field_base` rebinds, in order. */
  function BaseUpdates(evt: nat, fd: nat, proc: nat, user: nat, group: nat): seq<Update> {
    [Update("evt", evt), Update("fd", fd), Update("proc", proc), Update("user", user), Update("group", group)]
  }

  lemma SumStep(event: seq<byte>, i: nat)
    requires |event| >= HEADER_SIZE && i < MAX_PARAMS
    ensures SizeBefore(event, i + 1) == (SizeBefore(event, i) + ParamSize(event, i)) % U64
  {
    hide ParamSize;
  }

  /** The `switch` on the parameter type, with the sizes before it already added up. */
  method DecodeSlot(event: seq<byte>, params: seq<Param>, i: nat, size: nat, w: World) returns (s: Slot)
    requires Readable(event, params) && i < |params| && size == SizeBefore(event, i)
    ensures s == SlotFor(event, params, i, w)
  {
    hide SizeBefore, Value, ToInt, NameOr;
    var at := HEADER_SIZE + size;
    if params[i].kind == Uid {
      return Text(NameOr(w.users, Value(event[at..at + 4])));
    } else if params[i].kind == Pid {
      return Text(NameOr(w.comms, ToInt(Value(event[at..at + 8]))));
    }
    s := Into(at);
  }

  /** Where an `event_t` may lie: not at zero, and not across the end of memory. */
  predicate IsObject(address: nat) {
    0 < address && address + RECORD_SIZE <= U64
  }

  class EventRecord {
    const address: nat
    const fields: HashMap
    const rawarg: array<Slot>
    const arg: array<Slot>
    var num: nat
    var args: Slot
    var name: string
    var dir: char
    var rawres: int
    var failed: bool
    var res: string

    ghost predicate Valid()
      reads this
    {
      && rawarg.Length == arg.Length == MAX_PARAMS && rawarg != arg && IsObject(address)
    }

    constructor (address: nat, fields: HashMap)
      requires IsObject(address)
      ensures Valid() && this.address == address && this.fields == fields && fresh(rawarg) && fresh(arg)
      ensures forall i :: 0 <= i < MAX_PARAMS ==> arg[i] == NoSlot && rawarg[i] == NoSlot
    {
      this.address, this.fields := address, fields;
      rawarg := new Slot[MAX_PARAMS](_ => NoSlot);
      arg := new Slot[MAX_PARAMS](_ => NoSlot);
      num, args, name, dir, rawres, failed, res := 0, NoSlot, "", '>', 0, false, "";
    }

    /** Forgets the texts in the slots that the new event will fill with texts. */
    method CleanSlots(params: seq<Param>)
      requires Valid() && |params| <= MAX_PARAMS
      modifies arg, rawarg
      ensures forall i :: 0 <= i < MAX_PARAMS ==>
                arg[i] == if i < |params| && ReadWidth(params[i].kind) > 0 then NoSlot else old(arg[i])
      ensures forall i :: 0 <= i < MAX_PARAMS ==>
                rawarg[i] == if i < |params| && ReadWidth(params[i].kind) > 0 then NoSlot else old(rawarg[i])
    {
      for i := 0 to |params|
        invariant forall k :: 0 <= k < MAX_PARAMS ==>
                    arg[k] == if k < i && ReadWidth(params[k].kind) > 0 then NoSlot else old(arg[k])
        invariant forall k :: 0 <= k < MAX_PARAMS ==>
                    rawarg[k] == if k < i && ReadWidth(params[k].kind) > 0 then NoSlot else old(rawarg[k])
      {
        if params[i].kind == Uid || params[i].kind == Pid {
          rawarg[i] := NoSlot;
          arg[i] := NoSlot;
        }
      }
    }

    /** Every parameter of the event's type gets its slot; the slots beyond keep what they had. */
    method FillSlots(event: seq<byte>, params: seq<Param>, w: World)
      requires Valid() && Readable(event, params)
      modifies this`args, arg, rawarg
      ensures args == Into(HEADER_SIZE)
      ensures Decoded(event, params, w, arg[..]) && Decoded(event, params, w, rawarg[..])
      ensures forall i :: |params| <= i < MAX_PARAMS ==> arg[i] == old(arg[i]) && rawarg[i] == old(rawarg[i])
    {
      hide ParamSize, ParamOffset, SizeBefore, SlotFor;
      var size := 0;
      args := Into(HEADER_SIZE);
      assert SizeBefore(event, 0) == 0 by { NoSizes(event); }
      for i := 0 to |params|
        invariant size == SizeBefore(event, i) && args == Into(HEADER_SIZE)
        invariant forall k :: 0 <= k < i ==> arg[k] == SlotFor(event, params, k, w)
        invariant forall k :: 0 <= k < i ==> rawarg[k] == SlotFor(event, params, k, w)
        invariant forall k :: i <= k < MAX_PARAMS ==> arg[k] == old(arg[k]) && rawarg[k] == old(rawarg[k])
      {
        rawarg[i] := DecodeSlot(event, params, i, size, w);
        arg[i] := rawarg[i];
        SumStep(event, i);
        size := (size + ParamSize(event, i)) % U64;
      }
    }

    /**
     One event: the record takes its type, result and parameters, and the tables are rebound
     up to the first that is not registered.
     */
    method Enrich(event: seq<byte>, table: seq<EventInfo>, w: World, fd: nat, proc: nat, user: nat, group: nat)
        returns (ok: bool)
      requires Valid() && |event| >= HEADER_SIZE
      requires EventType(event) < |table| && Readable(event, table[EventType(event)].params)
      modifies this, arg, rawarg, fields
      ensures num == EventType(event) && name == table[num].name && args == Into(HEADER_SIZE)
      ensures Decoded(event, table[num].params, w, arg[..]) && Decoded(event, table[num].params, w, rawarg[..])
      ensures dir == if num % 2 == 1 then '<' else '>'
      ensures rawres == Signed(Word(event, 6)) && failed == (rawres != 0)
      ensures res == if failed then "ERRNO" else "SUCCESS"
      ensures fields.ready == old(fields.ready)
      ensures fields.ready ==> Rebased(old(fields.tables), fields.tables, address)
      ensures fields.ready && "fd" !in old(fields.tables) ==> !ok
    {
      hide Value, Readable, SlotFor, ParamOffset, Rebased;
      var kind := EventType(event);
      var params := table[kind].params;
      assert |params| <= MAX_PARAMS by { ReadableBounded(event, params); }
      CleanSlots(params);
      FillSlots(event, params, w);
      num := kind;
      dir := if kind % 2 == 1 then '<' else '>';
      name := table[kind].name;
      rawres := Signed(Word(event, 6));
      if rawres == 0 {
        failed, res := false, "SUCCESS";
      } else {
        failed, res := true, "ERRNO";
      }
      ok := UpdateFieldBase(fd, proc, user, group);
    }

    /** The event table is bound first; as no "fd" table is registered, nothing after it is. */
    method UpdateFieldBase(fd: nat, proc: nat, user: nat, group: nat) returns (ok: bool)
      modifies fields
      ensures fields.ready == old(fields.ready)
      ensures fields.ready ==> Rebased(old(fields.tables), fields.tables, address)
      ensures fields.ready && "fd" !in old(fields.tables) ==> !ok
      ensures fields.ready && AllRegistered(old(fields.tables)) ==>
                ok && AllBound(old(fields.tables), fields.tables, address, fd, proc, user, group)
    {
      ghost var before := fields.tables;
      var us := BaseUpdates(address, fd, proc, user, group);
      ok := fields.UpdateTablesBase(us);
      if fields.ready {
        BaseUpdatesEffect(before, fields.tables, address, fd, proc, user, group);
        if AllRegistered(before) {
          BaseUpdatesComplete(before, fields.tables, address, fd, proc, user, group);
        }
      }
    }
  }

  /** The event table is bound to `evt`; without an "fd" table all others keep their base. */
  ghost predicate Rebased(before: map<string, Table>, after: map<string, Table>, evt: nat) {
    && after.Keys == before.Keys
    && ("evt" in before ==> "evt" in after && after["evt"] == Table(evt, before["evt"].fields))
    && ("fd" !in before ==> forall t :: t in before && t != "evt" ==> t in after && after[t] == before[t])
  }

  predicate AllRegistered(tables: map<string, Table>) {
    "evt" in tables && "fd" in tables && "proc" in tables && "user" in tables && "group" in tables
  }

  /** Each of the five tables is bound to its own structure, and no other changes. */
  ghost predicate AllBound(before: map<string, Table>, after: map<string, Table>, evt: nat, fd: nat, proc: nat,
                           user: nat, group: nat)
    requires AllRegistered(before)
  {
    && after.Keys == before.Keys
    && after["evt"] == before["evt"].(base := evt) && after["fd"] == before["fd"].(base := fd)
    && after["proc"] == before["proc"].(base := proc) && after["user"] == before["user"].(base := user)
    && after["group"] == before["group"].(base := group)
    && forall t :: t in before && t !in {"evt", "fd", "proc", "user", "group"} ==> after[t] == before[t]
  }

  lemma {:induction false} LastBaseAt(us: seq<Update>, k: nat, base: nat)
    requires k < |us| && forall i, j :: 0 <= i < j < |us| ==> us[i].table != us[j].table
    ensures LastBase(us, us[k].table, base) == us[k].base
  {
    if k < |us| - 1 {
      LastBaseAt(us[..|us| - 1], k, base);
    }
  }

  lemma {:induction false} LastBaseNowhere(us: seq<Update>, t: string, base: nat)
    requires forall i :: 0 <= i < |us| ==> us[i].table != t
    ensures LastBase(us, t, base) == base
  {
    if us != [] {
      LastBaseNowhere(us[..|us| - 1], t, base);
    }
  }

  lemma BaseUpdatesComplete(before: map<string, Table>, after: map<string, Table>, evt: nat, fd: nat, proc: nat,
                            user: nat, group: nat)
    requires AllRegistered(before)
    requires var us := BaseUpdates(evt, fd, proc, user, group);
             Rebound(before, after, us[..FirstMissing(us, before.Keys)])
    ensures AllBound(before, after, evt, fd, proc, user, group)
    ensures var us := BaseUpdates(evt, fd, proc, user, group);
            forall i :: 0 <= i < |us| ==> us[i].table in before
  {
    hide LastBase, FirstMissing;
    var us := BaseUpdates(evt, fd, proc, user, group);
    assert FirstMissing(us, before.Keys) == |us| && us[..|us|] == us;
    LastBaseAt(us, 0, before["evt"].base);
    LastBaseAt(us, 1, before["fd"].base);
    LastBaseAt(us, 2, before["proc"].base);
    LastBaseAt(us, 3, before["user"].base);
    LastBaseAt(us, 4, before["group"].base);
    forall t | t in before && t !in {"evt", "fd", "proc", "user", "group"} ensures after[t] == before[t] {
      LastBaseNowhere(us, t, before[t].base);
    }
  }

  lemma NoSizes(event: seq<byte>)
    requires |event| >= HEADER_SIZE
    ensures SizeBefore(event, 0) == 0
  {
  }

  lemma ReadableBounded(event: seq<byte>, params: seq<Param>)
    requires Readable(event, params)
    ensures |params| <= MAX_PARAMS
  {
  }

  lemma BaseUpdatesEffect(before: map<string, Table>, after: map<string, Table>, evt: nat, fd: nat, proc: nat,
                          user: nat, group: nat)
    requires var us := BaseUpdates(evt, fd, proc, user, group);
             Rebound(before, after, us[..FirstMissing(us, before.Keys)])
    ensures Rebased(before, after, evt)
    ensures "fd" !in before ==> BaseUpdates(evt, fd, proc, user, group)[1].table !in before
  {
    hide LastBase;
    var us := BaseUpdates(evt, fd, proc, user, group);
    var n := FirstMissing(us, before.Keys);
    if "evt" in before {
      LastBaseFirst(us[..n], before["evt"].base);
    }
    if "fd" !in before {
      forall t | t in before && t != "evt" ensures after[t] == before[t] {
        LastBaseOther(us[..n], t, before[t].base);
      }
    }
  }

  lemma {:induction false} LastBaseFirst(us: seq<Update>, base: nat)
    requires us != [] && us[0].table == "evt" && forall i :: 0 < i < |us| ==> us[i].table != "evt"
    ensures LastBase(us, "evt", base) == us[0].base
  {
    if |us| > 1 {
      LastBaseFirst(us[..|us| - 1], base);
    }
  }

  lemma LastBaseOther(us: seq<Update>, t: string, base: nat)
    requires |us| <= 1 && forall i :: 0 <= i < |us| ==> us[i].table != t
    ensures LastBase(us, t, base) == base
  {
    if us != [] {
      assert LastBase(us[..|us| - 1], t, base) == base;
    }
  }
}
