/**
 The whole way of an event through the code's own steps: the event fields are bound once, and
 then every event is encoded, decoded and asked for a named parameter.
 */
module EventPipeline {
  import opened Basics
  import opened Codec
  import opened CodecRoundTrip
  import opened RingBuffer
  import opened FieldTables
  import opened EventRich
  import opened EventEndToEnd
  import opened CText

  /** The record's fields are registered, whatever has happened since. */
  ghost predicate Bound(record: EventRecord)
    reads record, record.fields
  {
    && record.Valid() && record.fields.ready
    && "evt" in record.fields.tables
    && record.fields.tables["evt"].fields == FieldsOf(EVT_MAPPINGS)
  }

  /**
   `linx_hash_map_init` and `linx_event_rich_init`: with memory for all of it the fields are
   bound, and in any case no table but "evt" is registered, in particular none named "fd".
   */
  method Bind(address: nat, memory: bool, allocations: nat) returns (record: EventRecord, ok: bool)
    requires IsObject(address)
    ensures record.Valid() && record.address == address
    ensures ok == (memory && |EVT_MAPPINGS| < allocations)
    ensures ok ==> Bound(record) && record.fields.tables.Keys == {"evt"}
    ensures record.fields.tables.Keys <= {"evt"}
    ensures fresh(record) && fresh(record.fields) && fresh(record.arg) && fresh(record.rawarg)
  {
    hide FieldsOf, DistinctLength;
    EvtMappingsBind();
    var fields := new HashMap();
    ok := fields.Init(memory);
    if ok {
      ok := fields.AddFieldBatch("evt", EVT_MAPPINGS, allocations);
    }
    assert EVT_MAPPINGS[..|EVT_MAPPINGS|] == EVT_MAPPINGS;
    record := new EventRecord(address, fields);
  }

  /** What a path must be to ask for parameter `i`. */
  predicate AsksFor(path: string, params: seq<Param>, i: nat) {
    var words := Tokens(path);
    |words| >= 3 && words[0] == "evt" && words[1] in {"arg", "rawarg"} && Means(params, words[2], i)
  }

  /** The result word of the header, read as a signed number. */
  lemma ResultSurvives(b: Scratch, c: Context, stores: seq<Store>)
    requires Codec.Valid(b) && Program(c, stores)
    ensures forall r :: -0x8000_0000_0000_0000 <= r < 0x8000_0000_0000_0000 && c.res == r % U64 ==>
              Signed(Word(Encoded(b, c, stores), 6)) == r
  {
    hide ExecAll, LoadHeader, Submit, Clean, Sane, Word, ParamIs, Value;
    EventArrives(b, c, stores);
  }

  /**
   One event through the ring buffer, the record and the field tables. From conditions on the
   program, the table and the path alone: the record has the event's type, its direction and its
   result as the signed number the system call returned; the pointer found has the parameter's type, and the
   slot it leads to shows what store `i` contributed. The bindings stand for the next event, and
   without a table "fd" the enrichment reports failure all the same.
   */
  method Deliver(ring: Ringbuf, record: EventRecord, c: Context, stores: seq<Store>, table: seq<EventInfo>, w: World,
                 fd: nat, proc: nat, user: nat, group: nat, path: string, ghost i: nat)
      returns (event: seq<byte>, p: Pointer, slot: Slot, ok: bool)
    requires ring.Valid() && Bound(record)
    requires Program(c, stores) && c.kind < |table| && IdsStored(stores, table[c.kind].params)
    requires i < |stores| && i < |table[c.kind].params| && AsksFor(path, table[c.kind].params, i)
    modifies ring, ring.data, record, record.arg, record.rawarg, record.fields
    ensures ring.Valid() && Bound(record) && record.fields.tables.Keys == old(record.fields.tables.Keys)
    ensures "fd" !in old(record.fields.tables) ==> !ok
    ensures event == Encoded(old(ring.View()), c, stores)
    ensures p.At? && p.kind == Some(table[c.kind].params[i].kind)
    ensures slot == SlotAt(record.address, record.rawarg[..], record.arg[..], p.address)
    ensures Shows(slot, event, table[c.kind].params[i].kind, Payload(stores[i]), w)
    ensures record.num == c.kind && record.name == table[c.kind].name
    ensures record.dir == if c.kind % 2 == 1 then '<' else '>'
    ensures forall r :: -0x8000_0000_0000_0000 <= r < 0x8000_0000_0000_0000 && c.res == r % U64 ==>
              && record.rawres == r && (record.failed <==> r != 0)
              && record.res == if r == 0 then "SUCCESS" else "ERRNO"
  {
    hide ExecAll, LoadHeader, Submit, Sane, Clean, Payload, SlotFor, Value, Shows, Tokens, Means, Designates, ByPath,
         IdsStored, FieldsOf, Flat, ContextOk, HeaderIs, ParamIs, ParamOffset, Readable, SlotAt, FirstMissing;
    ghost var b := ring.View();
    ghost var params := table[c.kind].params;
    EventArrives(b, c, stores);
    var out := ring.Emit(c, stores);
    event := out.bytes;
    TypeSurvives(b, c, stores);
    ResultSurvives(b, c, stores);
    IdsReadable(b, c, stores, params);
    ok := record.Enrich(event, table, w, fd, proc, user, group);
    var r := record.fields.GetFieldByPath(path);
    p := record.fields.GetValuePtr(r, table[record.num].params);
    ArgumentReachesStore(b, c, stores, table, w, record.rawarg[..], record.arg[..], record.fields.tables,
                         record.address, path, i, p);
    slot := SlotAt(record.address, record.rawarg[..], record.arg[..], p.address);
  }
}
