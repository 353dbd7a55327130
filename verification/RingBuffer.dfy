/**
 The per-CPU buffer that the store functions of `ringbuf_func.h` write in place. Every method
 is proved to do on the array what its function in `Codec` does on the buffer's value.
 */
module RingBuffer {
  import opened Codec

  class Ringbuf {
    const data: array<byte>
    var index: nat
    var payloadPos: nat

    ghost predicate Valid()
      reads this, data
    {
      data.Length == SCRATCH_SIZE && index < 256
    }

    ghost function View(): (b: Scratch)
      requires Valid()
      reads this, data
      ensures Codec.Valid(b)
    {
      Scratch(data[..], index, payloadPos)
    }

    constructor ()
      ensures Valid() && fresh(data)
    {
      data := new byte[SCRATCH_SIZE];
      index, payloadPos := 0, 0;
    }

    /** One assignment or helper read into the buffer. */
    method Set(at: nat, bytes: seq<byte>)
      requires Valid() && at + |bytes| <= SCRATCH_SIZE
      modifies data
      ensures Valid() && View() == old(View()).(data := Write(old(data[..]), at, bytes))
    {
      forall k | 0 <= k < |bytes| {
        data[at + k] := bytes[k];
      }
    }

    method PushValue(bytes: seq<byte>)
      requires Valid() && |bytes| <= WRITE_MAX
      modifies this, data
      ensures Valid() && View() == Push(old(View()), bytes)
    {
      Set(Mask(payloadPos), bytes);
      payloadPos := payloadPos + |bytes|;
    }

    method RecordSize(size: nat)
      requires Valid()
      modifies this, data
      ensures Valid() && View() == PushSize(old(View()), size)
    {
      hide Bytes, Write;
      Set(PARAMS_OFFSET + 8 * index, Bytes(size, 8));
      index := (index + 1) % 256;
    }

    /** The seven 64-bit fields, the type, the size, the two names; the cursors last. */
    method LoadEvent(c: Context)
      requires Valid() && ContextOk(c)
      modifies this, data
      ensures Valid() && View() == LoadHeader(old(View()), c)
    {
      hide Bytes, Front;
      Set(0, Front(c));
      Set(SIZE_OFFSET, Bytes(0, 8));
      Set(COMM_OFFSET, c.comm);
      Set(CMDLINE_OFFSET, c.cmdline);
      index, payloadPos := 0, HEADER_SIZE;
    }

    method SubmitEvent() returns (out: Submitted)
      requires Valid()
      modifies this, data
      ensures out == Submit(old(View()))
      ensures Valid() && index == old(index) && payloadPos == old(payloadPos)
      ensures data[..] == if out.Dropped? then old(data[..])
                          else Write(old(data[..]), SIZE_OFFSET, Bytes(old(payloadPos), 8))
    {
      hide Bytes;
      if payloadPos > EVENT_MAX {
        return Dropped;
      }
      Set(SIZE_OFFSET, Bytes(payloadPos, 8));
      out := Event(data[..payloadPos]);
    }

    method StoreFixed(value: seq<byte>)
      requires Valid() && Sane(Fixed(value))
      modifies this, data
      ensures Valid() && View() == Exec(old(View()), Fixed(value))
    {
      ghost var b := View();
      OneWrite(b, Fixed(value), value);
      NothingPut(b);
      PushValue(value);
      RecordSize(|value|);
    }

    method StoreEmpty()
      requires Valid()
      modifies this, data
      ensures Valid() && View() == Exec(old(View()), Empty)
    {
      NothingPut(View());
      NoWrite(View(), Empty);
      RecordSize(0);
    }

    method PushCharPointer(fetch: Fetch) returns (n: nat)
      requires Valid() && FetchBounded(fetch)
      modifies this, data
      ensures n == RecordedSize(CharPointer(true, fetch))
      ensures Valid() && View() == Written(old(View()), CharPointer(true, fetch))
    {
      ghost var b, st := View(), CharPointer(true, fetch);
      match fetch {
        case Fault(junk) =>
          NoWrite(b, st);
          Set(Mask(payloadPos), junk);
          n := 0;
        case Fetched(bytes) =>
          NothingPut(b);
          OneWrite(b, st, if bytes == [] then [0] else bytes);
          var written := bytes;
          if bytes == [] {
            written := [0];
          }
          PushValue(written);
          n := |written|;
      }
    }

    method StoreCharPointer(nonNull: bool, fetch: Fetch) returns (n: nat)
      requires Valid() && Sane(CharPointer(nonNull, fetch))
      modifies this, data
      ensures n == RecordedSize(CharPointer(nonNull, fetch))
      ensures Valid() && View() == Exec(old(View()), CharPointer(nonNull, fetch))
    {
      ghost var b := View();
      n := 0;
      if nonNull {
        n := PushCharPointer(fetch);
      } else {
        NothingPut(b);
        NoWrite(b, CharPointer(nonNull, fetch));
      }
      RecordSize(n);
    }

    method PushByteBuf(len: nat, fetch: Fetch) returns (n: nat)
      requires Valid() && len > 0 && Sane(ByteBuf(true, len, fetch))
      modifies this, data
      ensures n == RecordedSize(ByteBuf(true, len, fetch))
      ensures Valid() && View() == Written(old(View()), ByteBuf(true, len, fetch))
    {
      ghost var b, st := View(), ByteBuf(true, len, fetch);
      match fetch {
        case Fault(junk) =>
          NoWrite(b, st);
          Set(Mask(payloadPos), junk);
          n := 0;
        case Fetched(bytes) =>
          NothingPut(b);
          OneWrite(b, st, bytes);
          PushValue(bytes);
          n := len;
      }
    }

    method StoreByteBuf(nonNull: bool, len: nat, fetch: Fetch) returns (n: nat)
      requires Valid() && Sane(ByteBuf(nonNull, len, fetch))
      modifies this, data
      ensures n == RecordedSize(ByteBuf(nonNull, len, fetch))
      ensures Valid() && View() == Exec(old(View()), ByteBuf(nonNull, len, fetch))
    {
      ghost var b := View();
      n := 0;
      if nonNull && len > 0 {
        n := PushByteBuf(len, fetch);
      } else {
        NothingPut(b);
        NoWrite(b, ByteBuf(nonNull, len, fetch));
      }
      RecordSize(n);
    }

    /** A byte buffer whose last byte is then replaced by NUL. */
    method StoreCharArray(nonNull: bool, len: nat, maxLen: nat, fetch: Fetch)
      requires Valid() && Sane(CharArray(nonNull, len, maxLen, fetch))
      modifies this, data
      ensures Valid() && View() == Exec(old(View()), CharArray(nonNull, len, maxLen, fetch))
    {
      hide PushAll, Push, Put, Writes, Junk, PushSize, Bytes, Written, Mask;
      ghost var b := View();
      var capped := len;
      if capped >= maxLen {
        capped := maxLen;
      }
      ArraySteps(b, nonNull, len, maxLen, fetch);
      var n := StoreByteBuf(nonNull, capped, fetch);
      if n > 0 {
        Set(Mask(payloadPos - 1), [0]);
      }
    }

    /** The address family, then the two ends in the order the direction asks for. */
    method StoreSockTuple(socket: Socket)
      requires Valid() && Sane(SockTuple(socket))
      modifies this, data
      ensures Valid() && View() == Exec(old(View()), SockTuple(socket))
    {
      ghost var b := View();
      NothingPut(b);
      match socket {
        case NoSocket =>
          NoWrite(b, SockTuple(socket));
          RecordSize(0);
        case OtherFamily =>
          NoWrite(b, SockTuple(socket));
          RecordSize(0);
        case Inet(family, localIp, localPort, remoteIp, remotePort, outbound) =>
          FiveWrites(b, socket);
          PushValue([family]);
          if outbound {
            PushValue(localIp);
            PushValue(localPort);
            PushValue(remoteIp);
            PushValue(remotePort);
          } else {
            PushValue(remoteIp);
            PushValue(remotePort);
            PushValue(localIp);
            PushValue(localPort);
          }
          RecordSize(13);
      }
    }

    method StoreOne(st: Store)
      requires Valid() && Sane(st)
      modifies this, data
      ensures Valid() && View() == Exec(old(View()), st)
    {
      hide Exec, Sane, Write;
      match st {
        case Fixed(value) => StoreFixed(value);
        case Empty => StoreEmpty();
        case CharPointer(nonNull, fetch) => var _ := StoreCharPointer(nonNull, fetch);
        case ByteBuf(nonNull, len, fetch) => var _ := StoreByteBuf(nonNull, len, fetch);
        case CharArray(nonNull, len, maxLen, fetch) => StoreCharArray(nonNull, len, maxLen, fetch);
        case SockTuple(socket) => StoreSockTuple(socket);
      }
    }

    /** A tail-call program: load the header, make its store calls, submit. */
    method Emit(c: Context, stores: seq<Store>) returns (out: Submitted)
      requires Valid() && ContextOk(c) && forall i :: 0 <= i < |stores| ==> Sane(stores[i])
      modifies this, data
      ensures Valid()
      ensures out == Submit(ExecAll(LoadHeader(old(View()), c), stores))
    {
      hide Exec, Sane, Write, LoadHeader, Submit;
      LoadEvent(c);
      ghost var b := View();
      var i := 0;
      while i < |stores|
        invariant 0 <= i <= |stores| && Valid()
        invariant View() == ExecAll(b, stores[..i])
      {
        StoreOne(stores[i]);
        assert stores[..i + 1][..i] == stores[..i];
        i := i + 1;
      }
      assert stores[..i] == stores;
      out := SubmitEvent();
    }
  }

  // ---------------------------------------------------------------------------
  // The parts of a store call

  /** A store call before it records the size. */
  ghost function Written(b: Scratch, st: Store): Scratch
    requires Codec.Valid(b) && Sane(st)
  {
    WritesFit(st);
    PushAll(Put(b, Junk(st)), Writes(st))
  }

  lemma NothingPut(b: Scratch)
    requires Codec.Valid(b)
    ensures Put(b, []) == b
  {
    assert Write(b.data, Mask(b.pos), []) == b.data;
  }

  lemma NoWrite(b: Scratch, st: Store)
    requires Codec.Valid(b) && Sane(st) && Writes(st) == []
    ensures Written(b, st) == Put(b, Junk(st))
  {
  }

  lemma OneWrite(b: Scratch, st: Store, piece: seq<byte>)
    requires Codec.Valid(b) && Sane(st) && Writes(st) == [piece]
    ensures |piece| <= WRITE_MAX && Written(b, st) == Push(Put(b, Junk(st)), piece)
  {
    hide Sane, Writes, Junk, Push, Put;
    WritesFit(st);
    assert Writes(st)[0] == piece;
    LastPush(Put(b, Junk(st)), piece);
  }

  lemma LastPush(b: Scratch, piece: seq<byte>)
    requires Codec.Valid(b) && |piece| <= WRITE_MAX
    ensures PushAll(b, [piece]) == Push(b, piece)
  {
    hide Push;
    assert PushAll(Push(b, piece), [piece][1..]) == Push(b, piece);
  }

  lemma FiveWrites(b: Scratch, socket: Socket)
    requires Codec.Valid(b) && socket.Inet? && Sane(SockTuple(socket))
    ensures var p := Writes(SockTuple(socket));
            && |p| == 5 && (forall i :: 0 <= i < 5 ==> |p[i]| <= WRITE_MAX)
            && Written(b, SockTuple(socket)) == Push(Push(Push(Push(Push(Put(b, []), p[0]), p[1]), p[2]), p[3]), p[4])
  {
    hide Push, Put;
    var p := Writes(SockTuple(socket));
    var b1 := Push(Put(b, []), p[0]);
    var b2 := Push(b1, p[1]);
    var b3 := Push(b2, p[2]);
    var b4 := Push(b3, p[3]);
    assert p[1..][1..] == p[2..] && p[2..][1..] == p[3..] && p[3..][1..] == [p[4]];
    assert Written(b, SockTuple(socket)) == PushAll(b1, p[1..]);
    assert PushAll(b1, p[1..]) == PushAll(b2, p[2..]);
    assert PushAll(b2, p[2..]) == PushAll(b3, p[3..]);
    LastPush(b4, p[4]);
  }

  lemma ArrayIsBuf(b: Scratch, nonNull: bool, len: nat, maxLen: nat, fetch: Fetch)
    requires Codec.Valid(b) && Sane(CharArray(nonNull, len, maxLen, fetch))
    ensures var whole := CharArray(nonNull, len, maxLen, fetch);
            var buf := ByteBuf(nonNull, Capped(len, maxLen), fetch);
            Sane(buf) && Written(b, whole) == Written(b, buf) && RecordedSize(whole) == RecordedSize(buf)
  {
  }

  /** Storing an array is storing a byte buffer and then patching, if anything was stored. */
  lemma ArraySteps(b: Scratch, nonNull: bool, len: nat, maxLen: nat, fetch: Fetch)
    requires Codec.Valid(b) && Sane(CharArray(nonNull, len, maxLen, fetch))
    ensures var buf := ByteBuf(nonNull, Capped(len, maxLen), fetch);
            var whole := Exec(b, CharArray(nonNull, len, maxLen, fetch));
            && Sane(buf)
            && (RecordedSize(buf) == 0 ==> whole == Exec(b, buf))
            && (RecordedSize(buf) > 0 ==> Exec(b, buf).pos > 0 && whole == PatchPrevious(Exec(b, buf)))
  {
    ArrayIsBuf(b, nonNull, len, maxLen, fetch);
    var buf := ByteBuf(nonNull, Capped(len, maxLen), fetch);
    if RecordedSize(buf) > 0 {
      StoredMoves(b, buf);
    }
    hide Sane, Writes, Junk, PushAll, Put, PushSize, RecordedSize, PatchPrevious, Capped;
  }

  /** A recorded byte buffer has moved the payload position. */
  lemma StoredMoves(b: Scratch, st: Store)
    requires Codec.Valid(b) && Sane(st) && st.ByteBuf? && RecordedSize(st) > 0
    ensures Exec(b, st).pos > 0
  {
    OneWrite(b, st, st.fetch.bytes);
  }
}
