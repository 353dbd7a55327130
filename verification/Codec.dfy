/**
 The event codec on bytes: the kernel side (`ringbuf_func.h`) writes a header and then one
 parameter after another into a scratch buffer twice the maximum event size, masking every
 payload position; the user side finds parameter `i` by adding up the sizes before it.
 */
module Codec {
  import opened Basics

  type byte = x: int | 0 <= x < 256

  /** `sizeof(linx_event_t)`, and the offsets of `params_size` and `size` in it. */
  const HEADER_SIZE := 4112
  const PARAMS_OFFSET := 3848
  const SIZE_OFFSET := 4104
  const MAX_PARAMS := 32
  const EVENT_MAX := 32768
  const SCRATCH_SIZE := 65536
  /** The longest write that every masked position leaves room for. */
  const WRITE_MAX := 32769

  /** Members of `linx_event_t` in order: size and alignment on a 64-bit machine. */
  function EventMember(k: nat): Member {
    if k < 7 then Member(8, 8) // tid, pid, ppid, uid, gid, time, res
    else if k < 10 then Member(4, 4) // type, nparams, nfds
    else match k
      case 10 => Member(12 * 4, 4) // fds
      case 11 => Member(12 * 256, 1) // fd_path
      case 12 => Member(COMM_SIZE, 1)
      case 13 => Member(CMDLINE_SIZE, 1)
      case 14 => Member(256, 1) // fullpath
      case 15 => Member(256, 1) // p_fullpath
      case 16 => Member(MAX_PARAMS * 8, 8) // params_size
      case _ => Member(8, 8) // size
  }

  /** The offsets used here are where C puts the members of the event header. */
  lemma EventLayout()
    ensures OffsetOf(EventMember, 6) == 48 && OffsetOf(EventMember, 7) == 56
    ensures OffsetOf(EventMember, 12) == COMM_OFFSET && OffsetOf(EventMember, 13) == CMDLINE_OFFSET
    ensures OffsetOf(EventMember, 16) == PARAMS_OFFSET && OffsetOf(EventMember, 17) == SIZE_OFFSET
    ensures SIZE_OFFSET + EventMember(17).size == HEADER_SIZE
  {
    assert OffsetOf(EventMember, 0) == 0;
    hide OffsetOf;
    NextOffset(EventMember, 0, 0, Member(8, 8), Member(8, 8));
    NextOffset(EventMember, 1, 8, Member(8, 8), Member(8, 8));
    NextOffset(EventMember, 2, 16, Member(8, 8), Member(8, 8));
    NextOffset(EventMember, 3, 24, Member(8, 8), Member(8, 8));
    NextOffset(EventMember, 4, 32, Member(8, 8), Member(8, 8));
    NextOffset(EventMember, 5, 40, Member(8, 8), Member(8, 8));
    NextOffset(EventMember, 6, 48, Member(8, 8), Member(4, 4));
    NextOffset(EventMember, 7, 56, Member(4, 4), Member(4, 4));
    NextOffset(EventMember, 8, 60, Member(4, 4), Member(4, 4));
    NextOffset(EventMember, 9, 64, Member(4, 4), Member(48, 4));
    NextOffset(EventMember, 10, 68, Member(48, 4), Member(3072, 1));
    NextOffset(EventMember, 11, 116, Member(3072, 1), Member(16, 1));
    NextOffset(EventMember, 12, 3188, Member(16, 1), Member(128, 1));
    NextOffset(EventMember, 13, 3204, Member(128, 1), Member(256, 1));
    NextOffset(EventMember, 14, 3332, Member(256, 1), Member(256, 1));
    NextOffset(EventMember, 15, 3588, Member(256, 1), Member(256, 8));
    NextOffset(EventMember, 16, 3848, Member(256, 8), Member(8, 8));
  }

  // ---------------------------------------------------------------------------
  // Bytes

  function Write(data: seq<byte>, at: nat, bytes: seq<byte>): (r: seq<byte>)
    requires at + |bytes| <= |data|
    ensures |r| == |data|
    ensures forall k :: 0 <= k < |data| ==> r[k] == if at <= k < at + |bytes| then bytes[k - at] else data[k]
  {
    data[..at] + bytes + data[at + |bytes|..]
  }

  /** Little-endian bytes of an unsigned number. */
  function Bytes(v: nat, n: nat): (b: seq<byte>)
    ensures |b| == n
    decreases n
  {
    if n == 0 then [] else [v % 256] + Bytes(v / 256, n - 1)
  }

  function Value(b: seq<byte>): nat {
    if b == [] then 0 else b[0] + 256 * Value(b[1..])
  }

  function Power256(n: nat): (p: nat)
    ensures p > 0
  {
    if n == 0 then 1 else 256 * Power256(n - 1)
  }

  lemma {:induction false} ValueOfBytes(v: nat, n: nat)
    requires v < Power256(n)
    ensures Value(Bytes(v, n)) == v
    decreases n
  {
    if n > 0 {
      ValueOfBytes(v / 256, n - 1);
      assert Bytes(v, n)[1..] == Bytes(v / 256, n - 1);
    }
  }

  // ---------------------------------------------------------------------------
  // Stores

  /** Outcome of a probe-read helper: bytes, or a fault that may have scribbled on the destination. */
  datatype Fetch = Fault(junk: seq<byte>) | Fetched(bytes: seq<byte>)

  datatype Socket =
    | NoSocket
    | OtherFamily
    | Inet(family: byte, localIp: seq<byte>, localPort: seq<byte>, remoteIp: seq<byte>, remotePort: seq<byte>,
           outbound: bool)

  datatype Store =
    | Fixed(value: seq<byte>)
    | Empty
    | CharPointer(nonNull: bool, fetch: Fetch)
    | ByteBuf(nonNull: bool, len: nat, fetch: Fetch)
    | CharArray(nonNull: bool, len: nat, maxLen: nat, fetch: Fetch)
    | SockTuple(socket: Socket)

  /** Length `store_charbufarray_as_bytebuf` really asks for. */
  function Capped(len: nat, maxLen: nat): nat {
    if len >= maxLen then maxLen else len
  }

  /** What the helpers and the callers promise: reads fill what was asked for, widths are C widths. */
  predicate Sane(st: Store) {
    match st
    case Fixed(value) => |value| in {1, 2, 4, 8}
    case Empty => true
    case CharPointer(_, fetch) => FetchBounded(fetch)
    case ByteBuf(_, len, fetch) => FetchBounded(fetch) && (fetch.Fetched? ==> |fetch.bytes| == len)
    case CharArray(_, len, maxLen, fetch) =>
      FetchBounded(fetch) && (fetch.Fetched? ==> |fetch.bytes| == Capped(len, maxLen))
    case SockTuple(Inet(_, lip, lport, rip, rport, _)) => |lip| == |rip| == 4 && |lport| == |rport| == 2
    case SockTuple(_) => true
  }

  predicate FetchBounded(fetch: Fetch) {
    match fetch
    case Fault(junk) => |junk| <= WRITE_MAX
    case Fetched(bytes) => |bytes| <= WRITE_MAX
  }

  /** The last byte replaced by NUL. */
  function Terminated(b: seq<byte>): seq<byte> {
    if b == [] then [] else b[|b| - 1 := 0]
  }

  /** The bytes a store contributes to the event. */
  function Payload(st: Store): seq<byte> {
    match st
    case Fixed(value) => value
    case Empty => []
    case CharPointer(nonNull, fetch) =>
      if !nonNull || fetch.Fault? then [] else if fetch.bytes == [] then [0] else fetch.bytes
    case ByteBuf(nonNull, len, fetch) =>
      if !nonNull || len == 0 || fetch.Fault? then [] else fetch.bytes
    case CharArray(nonNull, len, maxLen, fetch) =>
      if !nonNull || Capped(len, maxLen) == 0 || fetch.Fault? then [] else Terminated(fetch.bytes)
    case SockTuple(socket) =>
      match socket {
        case NoSocket => []
        case OtherFamily => []
        case Inet(family, lip, lport, rip, rport, outbound) =>
          if outbound then [family] + lip + lport + rip + rport else [family] + rip + rport + lip + lport
      }
  }

  /** What a failed read leaves at the current position. */
  function Junk(st: Store): seq<byte> {
    match st
    case CharPointer(nonNull, fetch) => if nonNull && fetch.Fault? then fetch.junk else []
    case ByteBuf(nonNull, len, fetch) => if nonNull && len > 0 && fetch.Fault? then fetch.junk else []
    case CharArray(nonNull, len, maxLen, fetch) =>
      if nonNull && Capped(len, maxLen) > 0 && fetch.Fault? then fetch.junk else []
    case _ => []
  }

  // ---------------------------------------------------------------------------
  // The scratch buffer

  datatype Scratch = Scratch(data: seq<byte>, index: nat, pos: nat)

  ghost predicate Valid(b: Scratch) {
    |b.data| == SCRATCH_SIZE && b.index < 256
  }

  /** `SAFE_ACCESS`. */
  function Mask(pos: nat): (r: nat)
    ensures r < EVENT_MAX && (pos - r) % EVENT_MAX == 0
    ensures pos < EVENT_MAX ==> r == pos
  {
    pos % EVENT_MAX
  }

  /** A write at the masked position, without advancing. */
  function Put(b: Scratch, bytes: seq<byte>): (r: Scratch)
    requires Valid(b) && |bytes| <= WRITE_MAX
    ensures Valid(r)
  {
    b.(data := Write(b.data, Mask(b.pos), bytes))
  }

  /** A write that advances the payload position. */
  function Push(b: Scratch, bytes: seq<byte>): (r: Scratch)
    requires Valid(b) && |bytes| <= WRITE_MAX
    ensures Valid(r) && r.pos == b.pos + |bytes| && r.index == b.index
  {
    Put(b, bytes).(pos := b.pos + |bytes|)
  }

  /** `params_size[index++] = size`, with the counter one byte wide. */
  function PushSize(b: Scratch, size: nat): (r: Scratch)
    requires Valid(b)
    ensures Valid(r) && r.pos == b.pos && r.index == (b.index + 1) % 256
  {
    b.(data := Write(b.data, PARAMS_OFFSET + 8 * b.index, Bytes(size, 8)), index := (b.index + 1) % 256)
  }

  /** `linx_push_previous_character`. */
  function PatchPrevious(b: Scratch): (r: Scratch)
    requires Valid(b) && b.pos > 0
    ensures Valid(r) && r.pos == b.pos && r.index == b.index
  {
    b.(data := Write(b.data, Mask(b.pos - 1), [0]))
  }

  function PushAll(b: Scratch, pieces: seq<seq<byte>>): (r: Scratch)
    requires Valid(b) && forall i :: 0 <= i < |pieces| ==> |pieces[i]| <= WRITE_MAX
    ensures Valid(r) && r.index == b.index
    decreases pieces
  {
    if pieces == [] then b else PushAll(Push(b, pieces[0]), pieces[1..])
  }

  /** The separate payload writes of a store call, in order. */
  function Writes(st: Store): seq<seq<byte>> {
    match st
    case Fixed(value) => [value]
    case Empty => []
    case CharPointer(nonNull, fetch) =>
      if !nonNull || fetch.Fault? then [] else if fetch.bytes == [] then [[0]] else [fetch.bytes]
    case ByteBuf(nonNull, len, fetch) =>
      if !nonNull || len == 0 || fetch.Fault? then [] else [fetch.bytes]
    case CharArray(nonNull, len, maxLen, fetch) =>
      if !nonNull || Capped(len, maxLen) == 0 || fetch.Fault? then [] else [fetch.bytes]
    case SockTuple(socket) =>
      match socket {
        case NoSocket => []
        case OtherFamily => []
        case Inet(family, lip, lport, rip, rport, outbound) =>
          if outbound then [[family], lip, lport, rip, rport] else [[family], rip, rport, lip, lport]
      }
  }

  /** The number a store call puts into `params_size`. */
  function RecordedSize(st: Store): nat {
    match st
    case Fixed(value) => |value|
    case Empty => 0
    case CharPointer(nonNull, fetch) =>
      if !nonNull || fetch.Fault? then 0 else if fetch.bytes == [] then 1 else |fetch.bytes|
    case ByteBuf(nonNull, len, fetch) => if !nonNull || len == 0 || fetch.Fault? then 0 else len
    case CharArray(nonNull, len, maxLen, fetch) =>
      if !nonNull || Capped(len, maxLen) == 0 || fetch.Fault? then 0 else Capped(len, maxLen)
    case SockTuple(socket) => if socket.Inet? then 13 else 0
  }

  lemma WritesFit(st: Store)
    requires Sane(st)
    ensures forall i :: 0 <= i < |Writes(st)| ==> 0 < |Writes(st)[i]| <= WRITE_MAX
    ensures |Junk(st)| <= WRITE_MAX
  {
  }

  /** One store call: what a failed read scribbles, the payload, the size, the NUL patch. */
  function Exec(b: Scratch, st: Store): (r: Scratch)
    requires Valid(b) && Sane(st)
    ensures Valid(r)
  {
    WritesFit(st);
    var written := PushAll(Put(b, Junk(st)), Writes(st));
    var sized := PushSize(written, RecordedSize(st));
    if st.CharArray? && RecordedSize(st) > 0 && sized.pos > 0 then PatchPrevious(sized) else sized
  }

  /** What the current task tells `linx_ringbuf_load_event`. */
  datatype Context = Context(
    pidTgid: nat, ppid: nat, uidGid: nat, time: nat, res: nat, kind: nat, comm: seq<byte>, cmdline: seq<byte>)

  const COMM_OFFSET := 3188
  const COMM_SIZE := 16
  const CMDLINE_OFFSET := 3204
  const CMDLINE_SIZE := 128

  predicate ContextOk(c: Context) {
    && c.pidTgid < U64 && c.ppid < U64 && c.uidGid < U64 && c.time < U64 && c.res < U64 && c.kind < U32
    && |c.comm| == COMM_SIZE && |c.cmdline| <= CMDLINE_SIZE
  }

  /** The seven 64-bit fields and the event type that open the header. */
  function Front(c: Context): (r: seq<byte>)
    ensures |r| == 60
  {
    Bytes(c.pidTgid / U32, 8) + Bytes(c.pidTgid % U32, 8) + Bytes(c.ppid, 8) + Bytes(c.uidGid % U32, 8)
    + Bytes(c.uidGid / U32, 8) + Bytes(c.time, 8) + Bytes(c.res, 8) + Bytes(c.kind, 4)
  }

  /** `linx_ringbuf_load_event`: the header fields it knows, and both cursors. */
  function LoadHeader(b: Scratch, c: Context): (r: Scratch)
    requires Valid(b) && ContextOk(c)
    ensures Valid(r)
  {
    var front := Write(b.data, 0, Front(c));
    var named := Write(Write(front, SIZE_OFFSET, Bytes(0, 8)), COMM_OFFSET, c.comm);
    Loaded(b.(data := Write(named, CMDLINE_OFFSET, c.cmdline)))
  }

  /** Both cursors at the start of an event. */
  function Loaded(b: Scratch): Scratch {
    b.(index := 0, pos := HEADER_SIZE)
  }

  function ExecAll(b: Scratch, stores: seq<Store>): (r: Scratch)
    requires Valid(b) && forall i :: 0 <= i < |stores| ==> Sane(stores[i])
    ensures Valid(r)
    decreases stores
  {
    if stores == [] then b
    else Exec(ExecAll(b, stores[..|stores| - 1]), stores[|stores| - 1])
  }

  datatype Submitted = Dropped | Event(bytes: seq<byte>)

  /** `linx_ringbuf_submit_event`: drop what is too long, else record the size and emit a prefix. */
  function Submit(b: Scratch): Submitted
    requires Valid(b)
  {
    if b.pos > EVENT_MAX then Dropped
    else Event(Write(b.data, SIZE_OFFSET, Bytes(b.pos, 8))[..b.pos])
  }
}
