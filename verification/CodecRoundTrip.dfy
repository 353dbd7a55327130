/**
 What the encoder writes is what the decoder reads: for any program of at most 32 stores,
 an accepted event holds in parameter `i` exactly the bytes of store `i`.
 */
module CodecRoundTrip {
  import opened Basics
  import opened Codec

  /** Exactly the writes of at most 32769 bytes stay inside the scratch buffer at every position. */
  lemma MaskedWritesFit(len: nat)
    ensures (forall pos: nat :: Mask(pos) + len <= SCRATCH_SIZE) <==> len <= WRITE_MAX
  {
    if len > WRITE_MAX {
      assert Mask(EVENT_MAX - 1) + len > SCRATCH_SIZE;
    }
  }

  // ---------------------------------------------------------------------------
  // One store in terms of its payload

  function Flat(stores: seq<Store>): seq<byte>
    decreases stores
  {
    if stores == [] then [] else Flat(stores[..|stores| - 1]) + Payload(stores[|stores| - 1])
  }

  function FlatPieces(pieces: seq<seq<byte>>): seq<byte>
    decreases pieces
  {
    if pieces == [] then [] else pieces[0] + FlatPieces(pieces[1..])
  }

  lemma OnePiece(p: seq<byte>)
    ensures FlatPieces([p]) == p
  {
    assert [p][1..] == [];
  }

  lemma FivePieces(p: seq<seq<byte>>)
    requires |p| == 5
    ensures FlatPieces(p) == p[0] + p[1] + p[2] + p[3] + p[4]
  {
    assert p[1..][1..] == p[2..] && p[2..][1..] == p[3..] && p[3..][1..] == p[4..] && p[4..] == [p[4]];
    OnePiece(p[4]);
    assert FlatPieces(p[3..]) == p[3] + p[4];
    assert FlatPieces(p[2..]) == p[2] + (p[3] + p[4]);
    assert FlatPieces(p[1..]) == p[1] + (p[2] + (p[3] + p[4]));
  }

  /** The writes of a store are its payload, apart from the NUL that is patched in afterwards. */
  lemma WritesArePayload(st: Store)
    requires Sane(st)
    ensures |Payload(st)| == |FlatPieces(Writes(st))| == RecordedSize(st) <= WRITE_MAX
    ensures Payload(st) == if st.CharArray? then Terminated(FlatPieces(Writes(st))) else FlatPieces(Writes(st))
  {
    hide FlatPieces;
    assert FlatPieces([]) == [] by { NoPieces(); }
    if |Writes(st)| == 1 {
      OnePiece(Writes(st)[0]);
      assert Writes(st) == [Writes(st)[0]];
    } else if |Writes(st)| == 5 {
      FivePieces(Writes(st));
    }
  }

  lemma NoPieces()
    ensures FlatPieces([]) == []
  {
  }

  /**
   What a store contributes, in the terms of its caller. Numbers as they are; text as read, one
   NUL for an empty read; buffers as read; of an array the smaller of the two lengths, the last
   byte replaced by NUL; of a connection the family, and then the local end first when it is
   outbound, the remote end first when it is inbound. Nothing for a null pointer, a length of
   zero, a failed read, or a socket that is missing or of another family.
   */
  lemma StoreContributes(st: Store)
    requires Sane(st)
    ensures match st
      case Fixed(value) => Payload(st) == value
      case Empty => Payload(st) == []
      case CharPointer(nonNull, fetch) =>
        && (!nonNull || fetch.Fault? ==> Payload(st) == [])
        && (nonNull && fetch.Fetched? ==> Payload(st) == if fetch.bytes == [] then [0] else fetch.bytes)
      case ByteBuf(nonNull, len, fetch) =>
        && (!nonNull || len == 0 || fetch.Fault? ==> Payload(st) == [])
        && (nonNull && len > 0 && fetch.Fetched? ==> |Payload(st)| == len && Payload(st) == fetch.bytes)
      case CharArray(nonNull, len, maxLen, fetch) =>
        && (!nonNull || len == 0 || maxLen == 0 || fetch.Fault? ==> Payload(st) == [])
        && (nonNull && len > 0 && maxLen > 0 && fetch.Fetched? ==>
              && |Payload(st)| == (if len < maxLen then len else maxLen)
              && Payload(st)[|Payload(st)| - 1] == 0
              && Payload(st)[..|Payload(st)| - 1] == fetch.bytes[..|Payload(st)| - 1])
      case SockTuple(NoSocket) => Payload(st) == []
      case SockTuple(OtherFamily) => Payload(st) == []
      case SockTuple(Inet(family, localIp, localPort, remoteIp, remotePort, outbound)) =>
        && |Payload(st)| == 13 && Payload(st)[0] == family
        && Payload(st)[1..5] == (if outbound then localIp else remoteIp)
        && Payload(st)[5..7] == (if outbound then localPort else remotePort)
        && Payload(st)[7..11] == (if outbound then remoteIp else localIp)
        && Payload(st)[11..13] == (if outbound then remotePort else localPort)
  {
  }

  // ---------------------------------------------------------------------------
  // Sizes add up, whatever wraps

  lemma {:induction false} PushAllPos(b: Scratch, pieces: seq<seq<byte>>)
    requires Valid(b) && forall i :: 0 <= i < |pieces| ==> |pieces[i]| <= WRITE_MAX
    ensures PushAll(b, pieces).pos == b.pos + |FlatPieces(pieces)|
    decreases pieces
  {
    if pieces != [] {
      PushAllPos(Push(b, pieces[0]), pieces[1..]);
    }
  }

  lemma ExecPos(b: Scratch, st: Store)
    requires Valid(b) && Sane(st)
    ensures Exec(b, st).pos == b.pos + |Payload(st)|
    ensures Exec(b, st).index == (b.index + 1) % 256
  {
    hide Writes, RecordedSize, Payload, PushAll, FlatPieces, Sane, Junk;
    WritesFit(st);
    WritesArePayload(st);
    PushAllPos(Put(b, Junk(st)), Writes(st));
  }

  predicate AllSane(stores: seq<Store>) {
    forall i :: 0 <= i < |stores| ==> Sane(stores[i])
  }

  /** The payload position is always the header plus the sizes stored so far. */
  lemma {:induction false} ExecAllPos(b: Scratch, stores: seq<Store>)
    requires Valid(b) && AllSane(stores)
    ensures ExecAll(b, stores).pos == b.pos + |Flat(stores)|
    decreases stores
  {
    hide Exec, Payload, Sane;
    if stores != [] {
      var init := stores[..|stores| - 1];
      ExecAllPos(b, init);
      ExecPos(ExecAll(b, init), stores[|stores| - 1]);
    }
  }

  /** An event is dropped exactly when its parameters do not fit under the maximum. */
  lemma DroppedIff(b: Scratch, stores: seq<Store>)
    requires Valid(b) && AllSane(stores)
    ensures Submit(ExecAll(Loaded(b), stores)).Dropped? <==> HEADER_SIZE + |Flat(stores)| > EVENT_MAX
  {
    ExecAllPos(Loaded(b), stores);
  }

  // ---------------------------------------------------------------------------
  // Below the maximum nothing wraps and nothing earlier is touched

  /** Two buffers agree on a stretch. */
  ghost predicate Same(a: seq<byte>, b: seq<byte>, lo: nat, hi: nat) {
    hi <= |a| && hi <= |b| && forall k :: lo <= k < hi ==> a[k] == b[k]
  }

  /** A buffer holds these bytes from `at` on. */
  ghost predicate HasAt(a: seq<byte>, at: nat, bytes: seq<byte>) {
    at + |bytes| <= |a| && forall k :: 0 <= k < |bytes| ==> a[at + k] == bytes[k]
  }

  lemma {:induction false} PushAllBytes(b: Scratch, pieces: seq<seq<byte>>)
    requires Valid(b) && forall i :: 0 <= i < |pieces| ==> 0 < |pieces[i]| <= WRITE_MAX
    requires b.pos + |FlatPieces(pieces)| <= EVENT_MAX
    ensures var r := PushAll(b, pieces);
            Same(r.data, b.data, 0, b.pos) && HasAt(r.data, b.pos, FlatPieces(pieces))
    decreases pieces
  {
    if pieces != [] {
      var b1 := Push(b, pieces[0]);
      PushAllBytes(b1, pieces[1..]);
      var r := PushAll(b, pieces);
      forall k | 0 <= k < |FlatPieces(pieces)| ensures r.data[b.pos + k] == FlatPieces(pieces)[k] {
        if k >= |pieces[0]| {
          assert r.data[b1.pos + (k - |pieces[0]|)] == FlatPieces(pieces[1..])[k - |pieces[0]|];
        }
      }
    }
  }

  /** A failed read scribbles only beyond what is already stored. */
  predicate Contained(b: Scratch, st: Store) {
    && b.pos + |Payload(st)| <= EVENT_MAX
    && (Junk(st) != [] ==> b.pos < EVENT_MAX)
  }

  lemma ScribbleBytes(b: Scratch, junk: seq<byte>)
    requires Valid(b) && |junk| <= WRITE_MAX && (junk != [] ==> b.pos < EVENT_MAX) && b.pos <= EVENT_MAX
    ensures Same(Put(b, junk).data, b.data, 0, b.pos)
  {
  }

  /** Everything one store does to an event that stays within the maximum. */
  lemma ExecEffect(b: Scratch, st: Store)
    requires Valid(b) && Sane(st) && Contained(b, st) && HEADER_SIZE <= b.pos && b.index < MAX_PARAMS
    ensures var r := Exec(b, st);
            && r.pos == b.pos + |Payload(st)| && r.index == b.index + 1
            && Stored(b, r, |Payload(st)|, b.pos, Payload(st))
  {
    hide Writes, RecordedSize, Payload, PushAll, FlatPieces, Sane, Junk, Same, HasAt, Put, PushSize,
         PatchPrevious, Bytes, Terminated;
    ExecPos(b, st);
    WritesFit(st);
    WritesArePayload(st);
    var scribbled := Put(b, Junk(st));
    ScribbleBytes(b, Junk(st));
    PushAllPos(scribbled, Writes(st));
    PushAllBytes(scribbled, Writes(st));
    var written := PushAll(scribbled, Writes(st));
    SameTrans(written.data, scribbled.data, b.data, b.pos);
    var pieces := FlatPieces(Writes(st));
    var sized := PushSize(written, RecordedSize(st));
    SizeEffect(b, written, RecordedSize(st), b.pos, pieces);
    if st.CharArray? && RecordedSize(st) > 0 {
      PatchEffect(b, sized, RecordedSize(st), b.pos, pieces);
    } else if st.CharArray? {
      EmptyTerminated(pieces);
    }
  }

  lemma EmptyTerminated(pieces: seq<byte>)
    ensures |pieces| == 0 ==> Terminated(pieces) == pieces
  {
  }

  lemma SameTrans(a: seq<byte>, b: seq<byte>, c: seq<byte>, hi: nat)
    requires Same(a, b, 0, hi) && Same(b, c, 0, hi)
    ensures Same(a, c, 0, hi)
  {
  }

  /** Recording the size of the piece that starts at `from` keeps it, and all the rest of the event. */
  lemma SizeEffect(b0: Scratch, b: Scratch, size: nat, from: nat, piece: seq<byte>)
    requires Valid(b0) && Valid(b) && b.index == b0.index < MAX_PARAMS && HEADER_SIZE <= from
    requires Same(b.data, b0.data, 0, from) && HasAt(b.data, from, piece)
    ensures Stored(b0, PushSize(b, size), size, from, piece)
  {
  }

  lemma PatchEffect(b0: Scratch, b: Scratch, size: nat, from: nat, piece: seq<byte>)
    requires Valid(b0) && Valid(b) && b0.index < MAX_PARAMS && HEADER_SIZE <= from
    requires piece != [] && b.pos == from + |piece| <= EVENT_MAX
    requires Stored(b0, b, size, from, piece)
    ensures Stored(b0, PatchPrevious(b), size, from, Terminated(piece))
  {
  }

  /** One more size in the table, one more piece at `from`, and nothing else changed before it. */
  ghost predicate Stored(b0: Scratch, b: Scratch, size: nat, from: nat, piece: seq<byte>) {
    var at := PARAMS_OFFSET + 8 * b0.index;
    && Same(b.data, b0.data, 0, at)
    && HasAt(b.data, at, Bytes(size, 8))
    && Same(b.data, b0.data, HEADER_SIZE, from)
    && HasAt(b.data, from, piece)
  }

  // ---------------------------------------------------------------------------
  // Whole programs

  /** No failed read scribbles with the payload position already at the maximum. */
  predicate Clean(stores: seq<Store>) {
    forall i :: 0 <= i < |stores| ==> Junk(stores[i]) == [] || HEADER_SIZE + |Flat(stores[..i])| < EVENT_MAX
  }

  /** The buffer `b`, started from `b0`, holds exactly these stores. */
  ghost predicate Holds(b0: Scratch, b: Scratch, stores: seq<Store>) {
    && Valid(b0) && Valid(b)
    && b.index == |stores| <= MAX_PARAMS
    && b.pos == HEADER_SIZE + |Flat(stores)| <= EVENT_MAX
    && Same(b.data, b0.data, 0, PARAMS_OFFSET)
    && (forall i :: 0 <= i < |stores| ==> SizeRecorded(b.data, i, |Payload(stores[i])|))
    && HasAt(b.data, HEADER_SIZE, Flat(stores))
  }

  ghost predicate SizeRecorded(data: seq<byte>, i: nat, size: nat) {
    HasAt(data, PARAMS_OFFSET + 8 * i, Bytes(size, 8))
  }

  lemma {:induction false} ProgramHolds(b0: Scratch, stores: seq<Store>)
    requires Valid(b0) && AllSane(stores) && |stores| <= MAX_PARAMS && Clean(stores)
    requires HEADER_SIZE + |Flat(stores)| <= EVENT_MAX
    ensures Holds(b0, ExecAll(Loaded(b0), stores), stores)
    decreases stores
  {
    hide Exec, Payload, Sane, Junk;
    if stores != [] {
      var k := |stores| - 1;
      var init, last := stores[..k], stores[k];
      CleanPrefix(stores, k);
      ProgramHolds(b0, init);
      var b := ExecAll(Loaded(b0), init);
      assert Contained(b, last);
      StoreHolds(b0, b, stores);
    }
  }

  lemma CleanPrefix(stores: seq<Store>, k: nat)
    requires k <= |stores| && Clean(stores)
    ensures Clean(stores[..k])
  {
    forall i | 0 <= i < k ensures stores[..k][..i] == stores[..i] {
    }
  }

  lemma SizeKept(before: seq<byte>, after: seq<byte>, at: nat, i: nat, size: nat)
    requires SizeRecorded(before, i, size) && Same(after, before, 0, at) && PARAMS_OFFSET + 8 * i + 8 <= at
    ensures SizeRecorded(after, i, size)
  {
  }

  lemma FlatKept(before: seq<byte>, after: seq<byte>, init: seq<byte>, last: seq<byte>)
    requires HasAt(before, HEADER_SIZE, init) && Same(after, before, HEADER_SIZE, HEADER_SIZE + |init|)
    requires HasAt(after, HEADER_SIZE + |init|, last)
    ensures HasAt(after, HEADER_SIZE, init + last)
  {
    forall k | 0 <= k < |init + last| ensures after[HEADER_SIZE + k] == (init + last)[k] {
      if k >= |init| {
        assert after[HEADER_SIZE + |init| + (k - |init|)] == last[k - |init|];
      }
    }
  }

  lemma StoreHolds(b0: Scratch, b: Scratch, stores: seq<Store>)
    requires stores != [] && |stores| <= MAX_PARAMS && AllSane(stores) && HEADER_SIZE + |Flat(stores)| <= EVENT_MAX
    requires Holds(b0, b, stores[..|stores| - 1]) && Contained(b, stores[|stores| - 1])
    ensures Holds(b0, Exec(b, stores[|stores| - 1]), stores)
  {
    hide Exec, Payload, Sane, Junk, SizeRecorded, HasAt, Bytes;
    var k := |stores| - 1;
    var init, last := stores[..k], stores[k];
    ExecEffect(b, last);
    var r := Exec(b, last);
    var at := PARAMS_OFFSET + 8 * k;
    forall i | 0 <= i < |stores| ensures SizeRecorded(r.data, i, |Payload(stores[i])|) {
      if i < k {
        assert init[i] == stores[i];
        SizeKept(b.data, r.data, at, i, |Payload(init[i])|);
      } else {
        SizeIs(r.data, k, |Payload(last)|);
      }
    }
    FlatKept(b.data, r.data, Flat(init), Payload(last));
  }

  lemma SizeIs(data: seq<byte>, i: nat, size: nat)
    ensures SizeRecorded(data, i, size) <==> HasAt(data, PARAMS_OFFSET + 8 * i, Bytes(size, 8))
  {
  }

  // ---------------------------------------------------------------------------
  // Decoding

  /** `params_size[i]` of an event. */
  function ParamSize(event: seq<byte>, i: nat): nat
    requires |event| >= HEADER_SIZE && i < MAX_PARAMS
  {
    Value(event[PARAMS_OFFSET + 8 * i..PARAMS_OFFSET + 8 * i + 8])
  }

  /** Where the user side looks for parameter `i`: the header, then the sizes before it. */
  function ParamOffset(event: seq<byte>, i: nat): (at: nat)
    requires |event| >= HEADER_SIZE && i <= MAX_PARAMS
    ensures at >= HEADER_SIZE
  {
    if i == 0 then HEADER_SIZE else ParamOffset(event, i - 1) + ParamSize(event, i - 1)
  }

  lemma Power8()
    ensures Power256(8) == 0x1_0000_0000_0000_0000
  {
    assert Power256(2) == 0x1_0000;
    assert Power256(4) == 0x1_0000_0000;
    assert Power256(6) == 0x1_0000_0000_0000;
  }

  lemma SliceIs(data: seq<byte>, at: nat, bytes: seq<byte>)
    requires HasAt(data, at, bytes)
    ensures data[at..at + |bytes|] == bytes
  {
  }

  lemma SizeRead(event: seq<byte>, i: nat, size: nat)
    requires |event| >= HEADER_SIZE && i < MAX_PARAMS && size < 0x1_0000_0000 && SizeRecorded(event, i, size)
    ensures ParamSize(event, i) == size
  {
    Power8();
    ValueOfBytes(size, 8);
    SliceIs(event, PARAMS_OFFSET + 8 * i, Bytes(size, 8));
  }

  lemma {:induction false} OffsetsAdd(event: seq<byte>, stores: seq<Store>, i: nat)
    requires |event| >= HEADER_SIZE && i <= |stores| <= MAX_PARAMS
    requires forall k :: 0 <= k < |stores| ==>
               |Payload(stores[k])| < 0x1_0000_0000 && SizeRecorded(event, k, |Payload(stores[k])|)
    ensures ParamOffset(event, i) == HEADER_SIZE + |Flat(stores[..i])|
  {
    hide Payload, SizeRecorded, ParamSize;
    if i > 0 {
      OffsetsAdd(event, stores, i - 1);
      SizeRead(event, i - 1, |Payload(stores[i - 1])|);
      assert stores[..i][..i - 1] == stores[..i - 1];
    }
  }

  lemma {:induction false} FlatSlice(stores: seq<Store>, i: nat)
    requires i < |stores|
    ensures HasAt(Flat(stores), |Flat(stores[..i])|, Payload(stores[i]))
    decreases stores
  {
    hide Payload;
    var k := |stores| - 1;
    if i < k {
      FlatSlice(stores[..k], i);
      assert stores[..k][..i] == stores[..i];
    }
  }

  lemma EventFields(b0: Scratch, b: Scratch, stores: seq<Store>, event: seq<byte>)
    requires Holds(b0, b, stores)
    requires Submit(b) == Event(event)
    ensures |event| == b.pos
    ensures event[..PARAMS_OFFSET] == b0.data[..PARAMS_OFFSET]
    ensures Value(event[SIZE_OFFSET..HEADER_SIZE]) == b.pos
    ensures forall i :: 0 <= i < |stores| ==> SizeRecorded(event, i, |Payload(stores[i])|)
    ensures HasAt(event, HEADER_SIZE, Flat(stores))
  {
    hide Payload, Flat, Bytes, Power256;
    Power8();
    ValueOfBytes(b.pos, 8);
    var data := Write(b.data, SIZE_OFFSET, Bytes(b.pos, 8));
    assert event == data[..b.pos];
    SliceIs(event, SIZE_OFFSET, Bytes(b.pos, 8));
    forall i | 0 <= i < |stores| ensures SizeRecorded(event, i, |Payload(stores[i])|) {
      SizeKept(b.data, event, SIZE_OFFSET, i, |Payload(stores[i])|);
    }
  }

  /**
   The round trip. Whatever was in the buffer before, when submit accepts the event of a
   program of at most 32 stores: the event is the header and the stored bytes in order, its
   `size` field is its length, the header before the size table is untouched, and parameter
   `i`, found by adding up the sizes before it, is exactly what store `i` contributed.
   */
  lemma RoundTrip(b0: Scratch, stores: seq<Store>, event: seq<byte>)
    requires Valid(b0) && AllSane(stores) && |stores| <= MAX_PARAMS && Clean(stores)
    requires Submit(ExecAll(Loaded(b0), stores)) == Event(event)
    ensures |event| == HEADER_SIZE + |Flat(stores)|
    ensures event[..PARAMS_OFFSET] == b0.data[..PARAMS_OFFSET]
    ensures Value(event[SIZE_OFFSET..HEADER_SIZE]) == |event|
    ensures forall i :: 0 <= i < |stores| ==> ParamIs(event, i, Payload(stores[i]))
    ensures ParamOffset(event, |stores|) == |event|
  {
    hide ExecAll, Payload, Sane, SizeRecorded, Junk, Clean, Value, Bytes, Power256, ParamSize;
    DroppedIff(b0, stores);
    ProgramHolds(b0, stores);
    var b := ExecAll(Loaded(b0), stores);
    EventFields(b0, b, stores, event);
    forall i | 0 <= i < |stores| ensures |Payload(stores[i])| < 0x1_0000_0000 {
      WritesArePayload(stores[i]);
    }
    OffsetsAdd(event, stores, |stores|);
    assert stores[..|stores|] == stores;
    forall i | 0 <= i < |stores| ensures ParamIs(event, i, Payload(stores[i])) {
      OffsetsAdd(event, stores, i);
      SizeRead(event, i, |Payload(stores[i])|);
      FlatSlice(stores, i);
      ParamInFlat(event, Flat(stores), |Flat(stores[..i])|, Payload(stores[i]));
      SliceIs(event, ParamOffset(event, i), Payload(stores[i]));
    }
  }

  lemma ParamInFlat(event: seq<byte>, flat: seq<byte>, at: nat, bytes: seq<byte>)
    requires HasAt(event, HEADER_SIZE, flat) && HasAt(flat, at, bytes)
    ensures HasAt(event, HEADER_SIZE + at, bytes)
  {
    forall k | 0 <= k < |bytes| ensures event[HEADER_SIZE + at + k] == bytes[k] {
      assert event[HEADER_SIZE + (at + k)] == flat[at + k];
    }
  }

  /** The decoder's slice for parameter `i` is inside the event and is exactly `bytes`. */
  predicate ParamIs(event: seq<byte>, i: nat, bytes: seq<byte>)
    requires |event| >= HEADER_SIZE && i < MAX_PARAMS
  {
    && ParamOffset(event, i + 1) == ParamOffset(event, i) + |bytes| <= |event|
    && event[ParamOffset(event, i)..ParamOffset(event, i + 1)] == bytes
  }

  // ---------------------------------------------------------------------------
  // When the round trip holds, exactly

  /** What the reader is promised about an event: header, size, and every parameter. */
  ghost predicate Faithful(b0: Scratch, stores: seq<Store>, submitted: Submitted)
    requires Valid(b0)
  {
    && submitted.Event?
    && |stores| <= MAX_PARAMS
    && var event := submitted.bytes;
    && |event| == HEADER_SIZE + |Flat(stores)|
    && event[..PARAMS_OFFSET] == b0.data[..PARAMS_OFFSET]
    && Value(event[SIZE_OFFSET..HEADER_SIZE]) == |event|
    && forall i :: 0 <= i < |stores| ==> ParamIs(event, i, Payload(stores[i]))
  }

  datatype Mark = Untouched | Overwritten(first: byte)

  /** What the last failed read at the wrapped position left in the first header byte, if there was one. */
  function FirstByte(stores: seq<Store>): Mark
    decreases stores
  {
    if stores == [] then Untouched
    else
      var k := |stores| - 1;
      var junk := Junk(stores[k]);
      if junk != [] && HEADER_SIZE + |Flat(stores[..k])| >= EVENT_MAX then Overwritten(junk[0])
      else FirstByte(stores[..k])
  }

  lemma {:induction false} UntouchedIffClean(stores: seq<Store>)
    ensures FirstByte(stores).Untouched? <==> Clean(stores)
    decreases stores
  {
    hide Junk, Payload;
    if stores != [] {
      var k := |stores| - 1;
      UntouchedIffClean(stores[..k]);
      forall i | 0 <= i < k ensures stores[..k][..i] == stores[..i] {
      }
      if Clean(stores[..k]) && (Junk(stores[k]) == [] || HEADER_SIZE + |Flat(stores[..k])| < EVENT_MAX) {
        forall i | 0 <= i < |stores|
          ensures Junk(stores[i]) == [] || HEADER_SIZE + |Flat(stores[..i])| < EVENT_MAX
        {
          if i < k {
            assert stores[..k][i] == stores[i];
          }
        }
      } else if Clean(stores) {
        CleanPrefix(stores, k);
      }
    }
  }

  /** A failed read at the wrapped position writes over the start of the header, and nothing repairs it. */
  lemma ScribbleFirstByte(b: Scratch, st: Store)
    requires Valid(b) && Sane(st) && HEADER_SIZE <= b.pos && b.pos + |Payload(st)| <= EVENT_MAX && b.index < MAX_PARAMS
    ensures Exec(b, st).data[0] == if Junk(st) != [] && b.pos >= EVENT_MAX then Junk(st)[0] else b.data[0]
  {
    hide Writes, RecordedSize, Payload, PushAll, FlatPieces, Sane, Junk;
    WritesFit(st);
    WritesArePayload(st);
    var scribbled := Put(b, Junk(st));
    PushAllPos(scribbled, Writes(st));
    PushAllBytes(scribbled, Writes(st));
    var written := PushAll(scribbled, Writes(st));
    assert written.data[0] == scribbled.data[0];
  }

  lemma {:induction false} ProgramFirstByte(b0: Scratch, stores: seq<Store>)
    requires Valid(b0) && AllSane(stores) && |stores| <= MAX_PARAMS && HEADER_SIZE + |Flat(stores)| <= EVENT_MAX
    ensures var b := ExecAll(Loaded(b0), stores);
            && b.index == |stores|
            && b.data[0] == match FirstByte(stores) case Untouched => b0.data[0] case Overwritten(x) => x
    decreases stores
  {
    hide Exec, Payload, Sane, Junk;
    if stores != [] {
      var k := |stores| - 1;
      ProgramFirstByte(b0, stores[..k]);
      var b := ExecAll(Loaded(b0), stores[..k]);
      ExecAllPos(Loaded(b0), stores[..k]);
      ExecPos(b, stores[k]);
      ScribbleFirstByte(b, stores[k]);
    }
  }

  /**
   For a program whose event fits: it is faithful whatever the buffer held before exactly when
   no read fails with the payload position already at the maximum.
   */
  lemma RoundTripExactly(stores: seq<Store>)
    requires AllSane(stores) && |stores| <= MAX_PARAMS && HEADER_SIZE + |Flat(stores)| <= EVENT_MAX
    ensures (forall b0: Scratch :: Valid(b0) ==> Faithful(b0, stores, Submit(ExecAll(Loaded(b0), stores))))
            <==> Clean(stores)
  {
    hide ExecAll, Payload, Sane, Junk, Clean, Flat, FirstByte, ParamIs, Value;
    UntouchedIffClean(stores);
    if Clean(stores) {
      forall b0: Scratch | Valid(b0) ensures Faithful(b0, stores, Submit(ExecAll(Loaded(b0), stores))) {
        DroppedIff(b0, stores);
        RoundTrip(b0, stores, Submit(ExecAll(Loaded(b0), stores)).bytes);
      }
    } else {
      var x: byte := if FirstByte(stores).first == 0 then 1 else 0;
      var b0 := Scratch(seq(SCRATCH_SIZE, _ => x), 0, 0);
      ProgramFirstByte(b0, stores);
      ExecAllPos(Loaded(b0), stores);
      var b := ExecAll(Loaded(b0), stores);
      assert Submit(b).Event? && Submit(b).bytes[0] == b.data[0];
      assert Submit(b).bytes[..PARAMS_OFFSET][0] != b0.data[..PARAMS_OFFSET][0];
    }
  }

  /** A buffer that fills the event to the last byte, and then a read that fails. */
  function FullThenFault(bytes: seq<byte>, junk: seq<byte>): seq<Store> {
    [ByteBuf(true, |bytes|, Fetched(bytes)), CharPointer(true, Fault(junk))]
  }

  /** Programs outside the condition exist: such an event is accepted with its first header byte overwritten. */
  lemma FullThenFaultIsNotClean(bytes: seq<byte>, junk: seq<byte>, b0: Scratch)
    requires |bytes| == EVENT_MAX - HEADER_SIZE && 0 < |junk| <= WRITE_MAX && Valid(b0)
    ensures var stores := FullThenFault(bytes, junk);
            && AllSane(stores) && HEADER_SIZE + |Flat(stores)| == EVENT_MAX && !Clean(stores)
            && var out := Submit(ExecAll(Loaded(b0), stores));
            out.Event? && out.bytes != [] && out.bytes[0] == junk[0]
  {
    hide Exec, ExecAll;
    var stores := FullThenFault(bytes, junk);
    assert stores[..1] == [stores[0]];
    assert Flat(stores[..0]) == [] && Payload(stores[0]) == bytes && Payload(stores[1]) == [];
    assert stores[..1][..0] == stores[..0];
    assert Flat(stores[..1]) == bytes;
    assert Flat(stores) == bytes;
    assert FirstByte(stores) == Overwritten(junk[0]);
    ProgramFirstByte(b0, stores);
    DroppedIff(b0, stores);
    ExecAllPos(Loaded(b0), stores);
    UntouchedIffClean(stores);
  }

  // ---------------------------------------------------------------------------
  // The header

  /** Field `i` of the seven 64-bit ones that open an event. */
  function Word(event: seq<byte>, i: nat): nat
    requires i < 7 && |event| >= 56
  {
    Value(event[8 * i..8 * i + 8])
  }

  /** The header says what the kernel told the encoder: both halves of the two packed identifiers, and the rest. */
  ghost predicate HeaderIs(event: seq<byte>, c: Context)
    requires |event| >= HEADER_SIZE && ContextOk(c)
  {
    && Word(event, 0) * U32 + Word(event, 1) == c.pidTgid && Word(event, 1) < U32
    && Word(event, 2) == c.ppid
    && Word(event, 4) * U32 + Word(event, 3) == c.uidGid && Word(event, 3) < U32
    && Word(event, 5) == c.time && Word(event, 6) == c.res
    && Value(event[56..60]) == c.kind
    && event[COMM_OFFSET..COMM_OFFSET + COMM_SIZE] == c.comm
    && event[CMDLINE_OFFSET..CMDLINE_OFFSET + |c.cmdline|] == c.cmdline
  }

  lemma WordIs(event: seq<byte>, i: nat, v: nat)
    requires i < 7 && |event| >= 56 && v < U64 && HasAt(event, 8 * i, Bytes(v, 8))
    ensures Word(event, i) == v
  {
    hide Bytes, Value, Power256;
    Power8();
    ValueOfBytes(v, 8);
    SliceIs(event, 8 * i, Bytes(v, 8));
  }

  lemma FrontWords(data: seq<byte>, c: Context)
    requires |data| >= 60 && HasAt(data, 0, Front(c))
    ensures HasAt(data, 0, Bytes(c.pidTgid / U32, 8)) && HasAt(data, 8, Bytes(c.pidTgid % U32, 8))
    ensures HasAt(data, 16, Bytes(c.ppid, 8)) && HasAt(data, 24, Bytes(c.uidGid % U32, 8))
    ensures HasAt(data, 32, Bytes(c.uidGid / U32, 8)) && HasAt(data, 40, Bytes(c.time, 8))
    ensures HasAt(data, 48, Bytes(c.res, 8)) && HasAt(data, 56, Bytes(c.kind, 4))
  {
    hide Bytes, HasAt;
    var p1 := Bytes(c.pidTgid / U32, 8);
    var p2 := p1 + Bytes(c.pidTgid % U32, 8);
    var p3 := p2 + Bytes(c.ppid, 8);
    var p4 := p3 + Bytes(c.uidGid % U32, 8);
    var p5 := p4 + Bytes(c.uidGid / U32, 8);
    var p6 := p5 + Bytes(c.time, 8);
    var p7 := p6 + Bytes(c.res, 8);
    HasParts(data, p7, Bytes(c.kind, 4));
    HasParts(data, p6, Bytes(c.res, 8));
    HasParts(data, p5, Bytes(c.time, 8));
    HasParts(data, p4, Bytes(c.uidGid / U32, 8));
    HasParts(data, p3, Bytes(c.uidGid % U32, 8));
    HasParts(data, p2, Bytes(c.ppid, 8));
    HasParts(data, p1, Bytes(c.pidTgid % U32, 8));
  }

  lemma HasParts(data: seq<byte>, init: seq<byte>, last: seq<byte>)
    requires HasAt(data, 0, init + last)
    ensures HasAt(data, 0, init) && HasAt(data, |init|, last)
  {
    forall k | 0 <= k < |init| ensures data[0 + k] == init[k] {
      assert data[0 + k] == (init + last)[k];
    }
    forall k | 0 <= k < |last| ensures data[|init| + k] == last[k] {
      assert data[0 + (|init| + k)] == (init + last)[|init| + k];
    }
  }

  lemma Power4()
    ensures Power256(4) == U32
  {
    assert Power256(2) == 0x1_0000;
  }

  lemma FrontRead(event: seq<byte>, c: Context)
    requires |event| >= HEADER_SIZE && ContextOk(c) && HasAt(event, 0, Front(c))
    requires HasAt(event, COMM_OFFSET, c.comm) && HasAt(event, CMDLINE_OFFSET, c.cmdline)
    ensures HeaderIs(event, c)
  {
    hide Front, Bytes, Value, Power256, Word, HasAt;
    FrontWords(event, c);
    WordIs(event, 0, c.pidTgid / U32);
    WordIs(event, 1, c.pidTgid % U32);
    WordIs(event, 2, c.ppid);
    WordIs(event, 3, c.uidGid % U32);
    WordIs(event, 4, c.uidGid / U32);
    WordIs(event, 5, c.time);
    WordIs(event, 6, c.res);
    Power4();
    ValueOfBytes(c.kind, 4);
    SliceIs(event, 56, Bytes(c.kind, 4));
    SliceIs(event, COMM_OFFSET, c.comm);
    SliceIs(event, CMDLINE_OFFSET, c.cmdline);
  }

  lemma HeaderLoaded(b: Scratch, c: Context)
    requires Valid(b) && ContextOk(c)
    ensures var d := LoadHeader(b, c).data;
            HasAt(d, 0, Front(c)) && HasAt(d, COMM_OFFSET, c.comm) && HasAt(d, CMDLINE_OFFSET, c.cmdline)
  {
    hide Front, Bytes;
  }

  /**
   End to end for the encoder: the event of any program that fits carries the header the
   program loaded and, parameter by parameter, what its stores contributed.
   */
  lemma EventArrives(b: Scratch, c: Context, stores: seq<Store>)
    requires Valid(b) && ContextOk(c) && AllSane(stores) && |stores| <= MAX_PARAMS && Clean(stores)
    requires HEADER_SIZE + |Flat(stores)| <= EVENT_MAX
    ensures var out := Submit(ExecAll(LoadHeader(b, c), stores));
            && out.Event? && |out.bytes| == HEADER_SIZE + |Flat(stores)|
            && HeaderIs(out.bytes, c)
            && ParamOffset(out.bytes, |stores|) == |out.bytes|
            && forall i :: 0 <= i < |stores| ==> ParamIs(out.bytes, i, Payload(stores[i]))
  {
    hide ExecAll, Payload, Sane, Junk, Clean, Flat, ParamIs, Value, LoadHeader, Write, Front, HeaderIs, Submit;
    var b1 := LoadHeader(b, c);
    assert Loaded(b1) == b1 by { LoadedTwice(b, c); }
    DroppedIff(b1, stores);
    var out := Submit(ExecAll(Loaded(b1), stores));
    RoundTrip(b1, stores, out.bytes);
    HeaderLoaded(b, c);
    HasInPrefix(out.bytes, b1.data, 0, Front(c));
    HasInPrefix(out.bytes, b1.data, COMM_OFFSET, c.comm);
    HasInPrefix(out.bytes, b1.data, CMDLINE_OFFSET, c.cmdline);
    FrontRead(out.bytes, c);
  }

  lemma LoadedTwice(b: Scratch, c: Context)
    requires Valid(b) && ContextOk(c)
    ensures Loaded(LoadHeader(b, c)) == LoadHeader(b, c)
  {
  }

  lemma HasInPrefix(a: seq<byte>, b: seq<byte>, at: nat, bytes: seq<byte>)
    requires |a| >= PARAMS_OFFSET && |b| >= PARAMS_OFFSET && a[..PARAMS_OFFSET] == b[..PARAMS_OFFSET]
    requires HasAt(b, at, bytes) && at + |bytes| <= PARAMS_OFFSET
    ensures HasAt(a, at, bytes)
  {
    forall k | 0 <= k < |bytes| ensures a[at + k] == bytes[k] {
      assert a[..PARAMS_OFFSET][at + k] == b[..PARAMS_OFFSET][at + k];
    }
  }
}
