/** The decoder and encoder as the program runs them: a ring buffer that is drained, header objects
    that are filled step by step and recycled through a shared pool, a context slot that keeps a
    half-read header between calls, and output arrays filled by index. */
module Codec {
  import opened Bytes
  import opened Frame
  import opened Packing
  import Metadata

  // ------------------------------------------------------------- ring buffer

  /** The ring buffer by its contract. `linear` says that the contents lie in one piece, which is so
      for a buffer made over given data until something is written to it. */
  class RingBuffer {
    var data: Str
    var linear: bool

    constructor ()
      ensures data == [] && !linear
    {
      data, linear := [], false;
    }

    constructor WithData(s: Str)
      ensures data == s && linear
    {
      data, linear := s, true;
    }

    function Length(): nat
      reads this
    {
      |data|
    }

    method PeekUint8() returns (b: byte)
      requires |data| >= 1
      ensures b == data[0]
    {
      b := data[0];
    }

    method PeekUint16() returns (x: uint16)
      requires |data| >= 2
      ensures x == Uint16(data[..2])
    {
      x := Uint16(data[..2]);
    }

    method PeekUint32() returns (x: uint32)
      requires |data| >= 4
      ensures x == Uint32(data[..4])
    {
      x := Uint32(data[..4]);
    }

    method PeekUint64() returns (x: uint64)
      requires |data| >= 8
      ensures x == Uint64(data[..8])
    {
      x := Uint64(data[..8]);
    }

    /** The first `n` bytes in two pieces, cut wherever the contents wrap. */
    method Peek(n: nat) returns (first: Str, end: Str)
      requires n <= |data|
      ensures first + end == data[..n]
      ensures linear ==> end == []
    {
      var k := n;
      if !linear {
        k :| 0 <= k <= n;
      }
      first, end := data[..k], data[k..n];
    }

    method PeekAll() returns (first: Str, end: Str)
      ensures first + end == data
      ensures linear ==> end == []
    {
      first, end := Peek(|data|);
      assert data[..|data|] == data;
    }

    method Retrieve(n: nat)
      requires n <= |data|
      modifies this
      ensures data == old(data)[n..] && linear == old(linear)
    {
      data := data[n..];
    }

    /** Reads into a new slice of `n` bytes. */
    method Read(n: nat) returns (s: Str)
      requires n <= |data|
      modifies this
      ensures s == old(data)[..n] && data == old(data)[n..] && linear == old(linear)
    {
      s := data[..n];
      data := data[n..];
    }

    method Write(s: Str)
      modifies this
      ensures data == old(data) + s && !linear
    {
      data, linear := data + s, false;
    }

    method Reset()
      modifies this
      ensures data == [] && linear == old(linear)
    {
      data := [];
    }
  }

  // ---------------------------------------------------------- header objects

  class HeaderObject {
    var RequestId: uint32
    var BodyLength: uint32
    var Timeout: uint16
    var Type: byte
    var Verify: byte
    var Gzip: byte
    var Reserve: byte
    var CmdCode: byte
    var StatusCode: byte
    var MetadataLength: uint16
    var BeginUnpack: bool
    var IsUnpacked: bool

    constructor ()
      ensures View() == FRESH
    {
      RequestId, BodyLength, Timeout, Type, Verify, Gzip := 0, 0, 0, 0, 0, 0;
      Reserve, CmdCode, StatusCode, MetadataLength := 0, 0, 0, 0;
      BeginUnpack, IsUnpacked := false, false;
    }

    function View(): Header
      reads this
    {
      Header(Type, Verify, Gzip, Reserve, CmdCode, RequestId, Timeout, StatusCode, MetadataLength,
             BodyLength, BeginUnpack, IsUnpacked)
    }

    method Clear()
      modifies this
      ensures View() == FRESH
    {
      RequestId, BodyLength, Timeout, Type, Verify, Gzip := 0, 0, 0, 0, 0, 0;
      Reserve, CmdCode, StatusCode, MetadataLength := 0, 0, 0, 0;
      BeginUnpack, IsUnpacked := false, false;
    }

    method SetFirst(b: byte)
      modifies this
      ensures View() == ReadFirst(old(View()), b).(begun := old(BeginUnpack))
    {
      Type, Verify, Gzip, Reserve := b % 16, b / 16 % 2, b / 32 % 2, b / 64;
    }

    /** Decodes as much of the header as the buffer holds. */
    method Unpack(v: Version, buf: RingBuffer) returns (done: bool, err: Option<Error>)
      modifies this, buf
      ensures match UnpackHeader(v, old(View()), old(buf.data))
              case Pending(h, r) => !done && err.None? && View() == h && buf.data == r
              case Ready(h, r) => done && err.None? && View() == h && buf.data == r
              case Malformed(r) => !done && err == Some(UnknownPacket) && buf.data == r
      ensures buf.linear == old(buf.linear)
    {
      if buf.Length() == 0 {
        return false, None;
      }
      if IsUnpacked {
        return true, None;
      }
      if !BeginUnpack {
        var b := buf.PeekUint8();
        BeginUnpack := true;
        SetFirst(b);
        buf.Retrieve(1);
      }
      if !Known(Type) {
        return false, Some(UnknownPacket);
      }
      if buf.Length() < HeaderLength(v, Type) - 1 {
        return false, None;
      }
      IsUnpacked := true;
      UnpackFields(v, buf);
      done, err := true, None;
    }

    method UnpackFields(v: Version, buf: RingBuffer)
      requires Known(Type) && |buf.data| >= HeaderLength(v, Type) - 1
      modifies this, buf
      ensures View() == ReadRest(v, old(View()), old(buf.data))
      ensures buf.data == old(buf.data)[HeaderLength(v, old(Type)) - 1..]
      ensures buf.linear == old(buf.linear)
    {
      hide Uint16, Uint24, Uint32;
      ghost var s := buf.data;
      CmdCode := buf.PeekUint8();
      buf.Retrieve(1);
      ghost var at := LengthsAt(Type);
      UnpackIds(buf, s);
      ghost var k := if v == V2 then 2 else 0;
      SubSlice(s, at, 0, k);
      SubSlice(s, at, k, k + 3);
      SubSlice(s, at, k + 3, k + 3);
      UnpackLengths(v, buf);
    }

    /** Request id, then timeout or status, as the type has them. */
    method UnpackIds(buf: RingBuffer, ghost s: Str)
      requires Known(Type) && |s| >= LengthsAt(Type) && buf.data == s[1..]
      modifies this`RequestId, this`Timeout, this`StatusCode, buf
      ensures RequestId == if Type == 3 then old(RequestId) else Uint32(s[1..5])
      ensures Timeout == if Type == 1 then Uint16(s[5..7]) else old(Timeout)
      ensures StatusCode == if Type == 2 then s[5] else old(StatusCode)
      ensures buf.data == s[LengthsAt(Type)..] && buf.linear == old(buf.linear)
    {
      hide Uint16, Uint32;
      if Type == 1 || Type == 2 {
        assert s[1..][..4] == s[1..5];
        RequestId := buf.PeekUint32();
        buf.Retrieve(4);
        assert buf.data == s[5..];
      }
      if Type == 1 {
        assert s[5..][..2] == s[5..7];
        Timeout := buf.PeekUint16();
        buf.Retrieve(2);
      }
      if Type == 2 {
        StatusCode := buf.PeekUint8();
        buf.Retrieve(1);
      }
    }

    method UnpackLengths(v: Version, buf: RingBuffer)
      requires |buf.data| >= if v == V2 then 5 else 3
      modifies this`MetadataLength, this`BodyLength, buf
      ensures var s, k := old(buf.data), if v == V2 then 2 else 0;
              && (v == V2 ==> MetadataLength == Uint16(s[..2]))
              && (v == V1 ==> MetadataLength == old(MetadataLength))
              && BodyLength == Uint24(s[k..k + 3])
              && buf.data == s[k + 3..]
      ensures buf.linear == old(buf.linear)
    {
      ghost var s := buf.data;
      ghost var k := if v == V2 then 2 else 0;
      if v == V2 {
        MetadataLength := buf.PeekUint16();
        buf.Retrieve(2);
      }
      var f, e := buf.Peek(3);
      assert buf.data == s[k..] && f + e == s[k..k + 3];
      buf.Retrieve(3);
      BodyLength := ThreeBytes(f, e);
    }

    /** Decodes the header at the start of a whole frame. */
    method UnpackBytes(v: Version, frame: Str) returns (rest: Str, err: Option<Error>)
      modifies this
      ensures frame == [] ==> err == Some(InvalidFrame)
      ensures frame != [] ==>
                var h1 := ReadFirst(old(View()), frame[0]).(begun := old(BeginUnpack));
                if !Known(h1.typ) then err == Some(UnknownPacket)
                else if |frame| < HeaderLength(v, h1.typ) then err == Some(InvalidFrame)
                else && err.None?
                     && View() == ReadRest(v, h1, frame[1..])
                     && rest == frame[HeaderLength(v, h1.typ)..]
    {
      hide Uint16, Uint24, Uint32;
      rest := [];
      if |frame| == 0 {
        return [], Some(InvalidFrame);
      }
      var idx := 0;
      SetFirst(frame[idx]);
      idx := idx + 1;
      if !Known(Type) {
        return [], Some(UnknownPacket);
      }
      if |frame| < HeaderLength(v, Type) {
        return [], Some(InvalidFrame);
      }
      ghost var s := frame[1..];
      CmdCode := frame[idx];
      idx := ReadIds(frame, idx + 1);
      assert idx == LengthsAt(Type) + 1;
      if v == V2 {
        SubSlice(frame, 1, idx - 1, idx + 1);
        MetadataLength := Uint16(frame[idx..idx + 2]);
        idx := idx + 2;
      }
      SubSlice(frame, 1, idx - 1, idx + 2);
      assert frame[idx..idx + 3] + [] == frame[idx..idx + 3];
      BodyLength := ThreeBytes(frame[idx..idx + 3], []);
      idx := idx + 3;
      return frame[idx..], None;
    }

    /** Request id, then timeout or status, by index. */
    method ReadIds(frame: Str, start: nat) returns (idx: nat)
      requires Known(Type) && start == 2 && |frame| >= LengthsAt(Type) + 1
      modifies this`RequestId, this`Timeout, this`StatusCode
      ensures idx == LengthsAt(Type) + 1
      ensures RequestId == if Type == 3 then old(RequestId) else Uint32(frame[1..][1..5])
      ensures Timeout == if Type == 1 then Uint16(frame[1..][5..7]) else old(Timeout)
      ensures StatusCode == if Type == 2 then frame[1..][5] else old(StatusCode)
    {
      hide Uint16, Uint32;
      idx := start;
      if Type == 1 || Type == 2 {
        assert frame[2..6] == frame[1..][1..5];
        RequestId := Uint32(frame[idx..idx + 4]);
        idx := idx + 4;
      }
      if Type == 1 {
        assert frame[6..8] == frame[1..][5..7];
        Timeout := Uint16(frame[idx..idx + 2]);
        idx := idx + 2;
      }
      if Type == 2 {
        StatusCode := frame[idx];
        idx := idx + 1;
      }
    }

    /** Fills an array with the header, field by field. */
    method Pack(v: Version) returns (r: Result<Str>)
      ensures r == PackHeader(v, View())
    {
      hide BigEndian, FirstByte, Ids, Lengths;
      if !Known(Type) {
        return Err(UnknownPacket);
      }
      if BodyLength > MAX_BODY_LENGTH {
        return Err(BodyLenHitLimit);
      }
      HeaderBytesLength(v, View());
      LengthsLength(v, View());
      var data := new byte[HeaderLength(v, Type)](_ => 0);
      var idx := PutIds(data);
      PutLengths(v, data, idx);
      assert [FirstByte(View()), CmdCode] + Ids(View()) + Lengths(v, View()) == HeaderBytes(v, View());
      return Ok(data[..]);
    }

    method PutLengths(v: Version, data: array<byte>, start: nat)
      requires data.Length == start + |Lengths(v, View())|
      modifies data
      ensures data[..] == old(data[..start]) + Lengths(v, View())
    {
      hide BigEndian;
      var idx := start;
      if v == V2 {
        idx := Put(data, idx, BigEndian(2, MetadataLength));
      }
      idx := Put(data, idx, BigEndian(3, BodyLength));
      assert data[..] == data[..idx];
    }

    method PutIds(data: array<byte>) returns (idx: nat)
      requires Known(Type) && data.Length >= LengthsAt(Type) + 1
      modifies data
      ensures idx == LengthsAt(Type) + 1
      ensures data[..idx] == [FirstByte(View()), CmdCode] + Ids(View())
    {
      hide BigEndian, FirstByte;
      idx := Put(data, 0, [FirstByte(View())]);
      idx := Put(data, idx, [CmdCode]);
      if Type == 1 || Type == 2 {
        idx := Put(data, idx, BigEndian(4, RequestId));
        if Type == 1 {
          idx := Put(data, idx, BigEndian(2, Timeout));
        }
        if Type == 2 {
          idx := Put(data, idx, [StatusCode]);
        }
      }
    }
  }

  /** The big-endian value of three bytes that may lie in two pieces. */
  method ThreeBytes(f: Str, e: Str) returns (x: uint32)
    requires |f| + |e| == 3
    ensures |f + e| == 3 && x == Uint24(f + e)
  {
    var fb: int, sb: int, tb: int;
    match |f| {
      case 0 => fb, sb, tb := e[0], e[1], e[2];
      case 1 => fb, sb, tb := f[0], e[0], e[1];
      case 2 => fb, sb, tb := f[0], f[1], e[0];
      case _ => fb, sb, tb := f[0], f[1], f[2];
    }
    x := fb * 65536 + sb * 256 + tb;
    ghost var s := f + e;
    assert s[..2][..1] == [s[0]] && s[..2] == [s[0], s[1]];
    assert [s[0]][..0] == [];
    assert Value(s[..2]) == Value([s[0]]) * 256 + s[1];
    assert Value([s[0]]) == s[0];
  }

  /** Writes `s` at `idx` and returns the index behind it. */
  method Put(a: array<byte>, idx: nat, s: Str) returns (next: nat)
    requires idx + |s| <= a.Length
    modifies a
    ensures next == idx + |s|
    ensures a[..next] == old(a[..idx]) + s
  {
    forall i | 0 <= i < |s| {
      a[idx + i] := s[i];
    }
    next := idx + |s|;
  }

  /** copy(a[at..], src) */
  method CopyInto(a: array<byte>, at: nat, src: Str)
    requires at <= a.Length
    modifies a
    ensures a[..] == Overlay(old(a[..]), at, src)
  {
    var n := if |src| <= a.Length - at then |src| else a.Length - at;
    forall i | 0 <= i < n {
      a[at + i] := src[i];
    }
  }

  // ------------------------------------------------------ pool and context

  class HeaderPool {
    var free: set<HeaderObject>

    constructor ()
      ensures free == {}
    {
      free := {};
    }

    /** Any pooled header, or a new one; cleared either way. */
    method Get() returns (h: HeaderObject)
      modifies this, free
      ensures h.View() == FRESH
      ensures h in old(free) || fresh(h)
      ensures free == old(free) - {h}
    {
      var reuse: bool :| true;
      if reuse && free != {} {
        h :| h in free;
        free := free - {h};
        h.Clear();
      } else {
        h := new HeaderObject();
      }
    }

    method Release(h: HeaderObject)
      modifies this
      ensures free == old(free) + {h}
    {
      free := free + {h};
    }
  }

  class Context {
    var header: HeaderObject?
    var beginUnpack: bool
    const codec: byte

    constructor (codec: byte)
      ensures header == null && this.codec == codec
    {
      header, beginUnpack := null, false;
      this.codec := codec;
    }

    ghost function Kept(): Option<Header>
      reads this, if header == null then {} else {header}
    {
      if header == null then None else Some(header.View())
    }

    /** What the next call of Unpack starts from. */
    function Slot(): Header
      reads this, if header == null then {} else {header}
    {
      if header == null then FRESH else header.View()
    }
  }

  /** No header is both pooled and held, and no two contexts hold the same one. */
  ghost predicate Exclusive(pool: HeaderPool, ctxs: set<Context>)
    reads pool, ctxs
  {
    && (forall c :: c in ctxs && c.header != null ==> c.header !in pool.free)
    && (forall c, d :: c in ctxs && d in ctxs && c != d && c.header != null ==> c.header != d.header)
  }

  ghost function Held(ctx: Context): set<HeaderObject>
    reads ctx
  {
    if ctx.header == null then {} else {ctx.header}
  }

  /** What a decoding call reports: `slot` is the header kept for the next call, if any. */
  ghost predicate Reports(
    o: Outcome, packet: Option<Packet>, done: bool, err: Option<Error>, slot: Option<Header>, data: Str)
  {
    match o
    case Waiting(h, r) => packet.None? && !done && err.None? && slot == Some(h) && data == r
    case Decoded(p, r) => packet == Some(p) && done && err.None? && slot.None? && data == r
    case Failed(e, r) => packet.None? && !done && err == Some(e) && slot.None? && data == r
  }

  /** The header in the slot, taken from the pool when the slot is empty. */
  method HeaderFromContext(pool: HeaderPool, ctx: Context, ghost ctxs: set<Context>) returns (h: HeaderObject)
    requires ctx in ctxs && Exclusive(pool, ctxs)
    modifies ctx`header, pool, if ctx.header == null then pool.free else {}
    ensures Exclusive(pool, ctxs) && ctx.header == h && h.View() == old(ctx.Slot())
    ensures old(ctx.header) != null ==> h == old(ctx.header) && pool.free == old(pool.free)
    ensures old(ctx.header) == null ==> (h in old(pool.free) || fresh(h)) && pool.free == old(pool.free) - {h}
    ensures forall c :: c in ctxs && c != ctx ==> c.header == old(c.header)
  {
    if ctx.header == null {
      h := pool.Get();
      ctx.header := h;
    } else {
      h := ctx.header;
    }
  }

  /** The metadata map of a section; version 1 has none. */
  method DecodeValues(v: Version, md: Str) returns (values: Option<map<Str, Str>>)
    ensures values == if v == V1 then Some(map[]) else Metadata.UnmarshalValues(md)
  {
    values := Some(map[]);
    if v == V2 {
      var target := new Metadata.Values.Nil();
      var ok := target.Unmarshal(md);
      values := if ok then Some(target.values) else None;
    }
  }

  /** The packet once its metadata, nonce and signature are decoded. */
  method Complete(
    cfg: Config, h: Header, ghost md: Str, values: map<Str, Str>, nonce: uint64, signature: Str, wire: Str,
    ghost trailer: Str)
    returns (r: Result<Packet>)
    requires h.verify == 1 ==> |trailer| >= TRAILER_LENGTH
    requires Some(values) == if cfg.version == V1 then Some(map[]) else Metadata.UnmarshalValues(md)
    requires nonce == if h.verify == 1 then Uint64(trailer[..NONCE_LENGTH]) else 0
    requires signature == if h.verify == 1 then trailer[NONCE_LENGTH..] else []
    ensures r == Assemble(cfg, h, md, wire, trailer) && (r.Err? ==> r.error == GzipFailure)
  {
    hide Metadata.UnmarshalValues, Uint64;
    var body := wire;
    if h.gzip == 1 {
      var plain := cfg.gzip.decompress(body);
      if plain.None? {
        return Err(GzipFailure);
      }
      body := plain.value;
    }
    return Ok(Packet(TypeOf(h.typ), cfg.codec, h.timeout, h.cmdCode, h.requestId, h.status,
                     h.verify == 1, h.gzip == 1, nonce, signature, values, body));
  }

  /** Nonce and signature, if the header announces them. */
  method ReadTrailer(h: Header, buf: RingBuffer) returns (nonce: uint64, signature: Str)
    requires |buf.data| >= TrailerSize(h)
    modifies buf
    ensures var t := old(buf.data)[..TrailerSize(h)];
            && nonce == (if h.verify == 1 then Uint64(t[..NONCE_LENGTH]) else 0)
            && signature == (if h.verify == 1 then t[NONCE_LENGTH..] else [])
    ensures buf.data == old(buf.data)[TrailerSize(h)..] && buf.linear == old(buf.linear)
  {
    hide Uint64;
    nonce, signature := 0, [];
    if h.verify == 1 {
      ghost var b := buf.data;
      nonce := buf.PeekUint64();
      buf.Retrieve(NONCE_LENGTH);
      signature := buf.Read(SIGNATURE_LENGTH);
      assert b[..24][..8] == b[..8];
      assert b[..24][8..] == b[8..][..16];
      assert b[8..][16..] == b[24..];
    }
  }

  method CutSections(v: Version, h: Header, buf: RingBuffer) returns (md: Str, body: Str)
    requires |buf.data| >= MetadataSize(v, h) + h.bodyLength
    modifies buf
    ensures var b, m, e := old(buf.data), MetadataSize(v, h), MetadataSize(v, h) + h.bodyLength;
            md == b[..m] && body == b[m..e] && buf.data == b[e..]
    ensures buf.linear == old(buf.linear)
  {
    ghost var b, m := buf.data, MetadataSize(v, h);
    md := buf.Read(MetadataSize(v, h));
    SubSlice(b, m, 0, h.bodyLength);
    SubSlice(b, m, h.bodyLength, h.bodyLength);
    body := buf.Read(h.bodyLength);
  }

  /** Cuts the sections off the buffer and assembles the packet. */
  method ReadSections(cfg: Config, h: Header, buf: RingBuffer) returns (packet: Option<Packet>, err: Option<Error>)
    requires |buf.data| >= Needed(cfg.version, h)
    modifies buf
    ensures match UnpackSections(cfg, h, old(buf.data))
            case Waiting(_, _) => false
            case Decoded(p, r) => packet == Some(p) && err.None? && buf.data == r
            case Failed(e, r) => packet.None? && err == Some(e) && buf.data == r
    ensures buf.linear == old(buf.linear)
  {
    hide Assemble, Uint64, Metadata.UnmarshalValues, UnpackSections;
    ghost var b := buf.data;
    var md, body := CutSections(cfg.version, h, buf);
    ghost var rest := buf.data;
    ghost var trailer := rest[..TrailerSize(h)];
    SectionsOf(cfg, h, b, md, body, rest);
    var values := DecodeValues(cfg.version, md);
    if values.None? {
      AssembleWithoutValues(cfg, h, md, body, trailer);
      return None, Some(InvalidMetadata);
    }
    var nonce, signature := ReadTrailer(h, buf);
    var r := Complete(cfg, h, md, values.value, nonce, signature, body, trailer);
    if r.Ok? {
      packet, err := Some(r.value), None;
    } else {
      packet, err := None, Some(r.error);
    }
  }

  lemma SectionsOf(cfg: Config, h: Header, b: Str, md: Str, body: Str, rest: Str)
    requires |b| >= Needed(cfg.version, h)
    requires var m, e := MetadataSize(cfg.version, h), MetadataSize(cfg.version, h) + h.bodyLength;
             md == b[..m] && body == b[m..e] && rest == b[e..]
    ensures UnpackSections(cfg, h, b)
         == match Assemble(cfg, h, md, body, rest[..TrailerSize(h)])
            case Ok(p) => Decoded(p, rest[TrailerSize(h)..])
            case Err(e) => Failed(e, if e == InvalidMetadata then rest else rest[TrailerSize(h)..])
  {
    hide Assemble;
    var e, n := MetadataSize(cfg.version, h) + h.bodyLength, Needed(cfg.version, h);
    SubSlice(b, e, 0, n - e);
    SubSlice(b, e, n - e, n - e);
  }

  lemma AssembleWithoutValues(cfg: Config, h: Header, md: Str, body: Str, t: Str)
    requires cfg.version == V2 && Metadata.UnmarshalValues(md).None? && |t| == TrailerSize(h)
    ensures Assemble(cfg, h, md, body, t) == Err(InvalidMetadata)
  {
  }

  /** Decoding with the header `h`, which is kept only if the call has to wait. */
  method Decode(cfg: Config, h: HeaderObject, buf: RingBuffer)
    returns (packet: Option<Packet>, done: bool, err: Option<Error>)
    modifies h, buf
    ensures Reports(Unpack(cfg, old(h.View()), old(buf.data)), packet, done, err,
                    if done || err.Some? then None else Some(h.View()), buf.data)
    ensures buf.linear == old(buf.linear)
  {
    hide UnpackSections, UnpackHeader;
    if !h.IsUnpacked {
      var ok, e := h.Unpack(cfg.version, buf);
      if e.Some? {
        return None, false, e;
      }
      if !ok {
        return None, false, None;
      }
    }
    if buf.Length() < Needed(cfg.version, h.View()) {
      SectionsShort(cfg, h.View(), buf.data);
      return None, false, None;
    }
    packet, err := ReadSections(cfg, h.View(), buf);
    done := err.None?;
  }

  /** One step of stream decoding. What it reports depends only on the context's own slot and the
      buffer, and no other context or its header is touched, whatever headers the pool hands out. */
  method UnpackStream(cfg: Config, pool: HeaderPool, ctx: Context, buf: RingBuffer, ghost ctxs: set<Context>)
    returns (packet: Option<Packet>, done: bool, err: Option<Error>)
    requires ctx in ctxs && Exclusive(pool, ctxs) && cfg.codec == ctx.codec
    modifies ctx, buf, pool, if ctx.header == null then pool.free else {ctx.header}
    ensures Reports(Unpack(cfg, old(ctx.Slot()), old(buf.data)), packet, done, err, ctx.Kept(), buf.data)
    ensures ctx.beginUnpack == !done
    ensures Exclusive(pool, ctxs)
    ensures forall c :: c in ctxs && c != ctx ==> c.header == old(c.header) && c.Slot() == old(c.Slot())
    ensures old(pool.free) + old(Held(ctx)) <= pool.free + Held(ctx)
    ensures fresh(pool.free + Held(ctx) - old(pool.free) - old(Held(ctx)))
    ensures buf.linear == old(buf.linear)
  {
    hide Unpack;
    ctx.beginUnpack := true;
    var h := HeaderFromContext(pool, ctx, ctxs);
    packet, done, err := Decode(cfg, h, buf);
    if done {
      ctx.beginUnpack := false;
    }
    if done || err.Some? {
      ctx.header := null;
      pool.Release(h);
    }
  }

  lemma SectionsShort(cfg: Config, h: Header, b: Str)
    requires |b| < Needed(cfg.version, h)
    ensures UnpackSections(cfg, h, b) == Waiting(h, b)
  {
  }

  /** Decoding of one whole frame. The slot is empty and its header back in the pool afterwards. */
  method UnpackFrame(cfg: Config, pool: HeaderPool, ctx: Context, bs: Str, ghost ctxs: set<Context>)
    returns (r: Result<Packet>)
    requires ctx in ctxs && Exclusive(pool, ctxs) && cfg.codec == ctx.codec
    modifies ctx, pool, if ctx.header == null then pool.free else {ctx.header}
    ensures r == UnpackBytes(cfg, old(ctx.Slot()), bs)
    ensures Exclusive(pool, ctxs) && ctx.header == null && ctx.beginUnpack == r.Err?
    ensures forall c :: c in ctxs && c != ctx ==> c.header == old(c.header)
    ensures old(pool.free) + old(Held(ctx)) <= pool.free
    ensures fresh(pool.free - old(pool.free) - old(Held(ctx)))
  {
    hide UnpackBytes, UnpackSections;
    ctx.beginUnpack := true;
    var h := HeaderFromContext(pool, ctx, ctxs);
    r := DecodeFrame(cfg, h, bs);
    if r.Ok? {
      ctx.beginUnpack := false;
    }
    ctx.header := null;
    pool.Release(h);
  }

  method DecodeFrame(cfg: Config, h: HeaderObject, bs: Str) returns (r: Result<Packet>)
    modifies h
    ensures r == UnpackBytes(cfg, old(h.View()), bs)
  {
    hide Metadata.UnmarshalValues, Uint64, ReadRest, Assemble;
    ghost var v := h.View();
    var data, e := h.UnpackBytes(cfg.version, bs);
    if e.Some? {
      return Err(e.value);
    }
    ghost var h1 := ReadFirst(v, bs[0]);
    ghost var h2 := ReadRest(cfg.version, h1, bs[1..]);
    BegunIgnored(cfg.version, h1, v.begun, bs[1..]);
    assert h.View() == h2.(begun := v.begun);
    var m := MetadataSize(cfg.version, h.View());
    var end := m + h.BodyLength;
    if |data| < end {
      return Err(InvalidFrame);
    }
    var values := DecodeValues(cfg.version, data[..m]);
    if values.None? {
      return Err(InvalidMetadata);
    }
    var nonce: uint64, signature: Str := 0, [];
    if h.Verify == 1 {
      if |data| < end + NONCE_LENGTH + SIGNATURE_LENGTH {
        return Err(InvalidFrame);
      }
      SubSlice(data, end, 0, 8);
      SubSlice(data, end, 8, 8);
      nonce := Uint64(data[end..end + NONCE_LENGTH]);
      signature := data[end + NONCE_LENGTH..];
    }
    ghost var trailer := if h.Verify == 1 then data[end..] else [];
    r := Complete(cfg, h.View(), data[..m], values.value, nonce, signature, data[m..end], trailer);
    AssembleIgnoresBegun(cfg, h2, v.begun, data[..m], data[m..end], trailer);
  }

  lemma AssembleIgnoresBegun(cfg: Config, h: Header, begun: bool, md: Str, body: Str, t: Str)
    requires h.verify == 1 ==> |t| >= TRAILER_LENGTH
    ensures Assemble(cfg, h.(begun := begun), md, body, t) == Assemble(cfg, h, md, body, t)
  {
  }

  lemma BegunIgnored(v: Version, h: Header, begun: bool, s: Str)
    ensures |s| >= HeaderLength(v, h.typ) - 1 ==>
              ReadRest(v, h.(begun := begun), s) == ReadRest(v, h, s).(begun := begun)
  {
  }

  // ------------------------------------------------------------- the encoder

  /** A packet the caller holds; Pack changes it. */
  class PacketObject {
    var packet: Packet

    constructor (p: Packet)
      ensures packet == p
    {
      packet := p;
    }
  }

  method HeaderFromMetadata(pool: HeaderPool, p: Packet) returns (h: HeaderObject)
    modifies pool, pool.free
    ensures h.View() == HeaderOf(p, 0, 0)
    ensures h in old(pool.free) || fresh(h)
    ensures pool.free == old(pool.free) - {h}
  {
    h := pool.Get();
    if p.gzip {
      h.Gzip := 1;
    }
    if p.verify {
      h.Verify := 1;
    }
    h.Type := TypeCode(p.typ);
    h.RequestId := p.requestId;
    h.CmdCode := p.cmdCode % 256;
    h.Timeout := p.timeout;
    h.StatusCode := p.status;
  }

  /** Encodes the packet, leaving it compressed if it was compressed on the way. */
  method PackPacket(
    cfg: Config, pool: HeaderPool, obj: PacketObject, min: int, order: seq<Str>, ghost ctxs: set<Context>)
    returns (r: Result<Str>)
    requires Metadata.IsOrder(order, obj.packet.values) && Exclusive(pool, ctxs)
    modifies obj, pool, pool.free
    ensures r == PackFrame(cfg, old(obj.packet), min, order, false)
    ensures obj.packet == match Squeeze(cfg.gzip, old(obj.packet), min)
                          case Some(q) => q
                          case None => old(obj.packet).(body := [])
    ensures Exclusive(pool, ctxs)
    ensures old(pool.free) <= pool.free && fresh(pool.free - old(pool.free))
  {
    hide BuildFrame;
    if min != 0 && |obj.packet.body| >= min {
      var z := cfg.gzip.compress(obj.packet.body);
      if z.None? {
        obj.packet := obj.packet.(body := []);
        return Err(GzipFailure);
      }
      obj.packet := obj.packet.(body := z.value, gzip := true);
    }
    var q := obj.packet;
    if |q.body| > MAX_BODY_LENGTH {
      return Err(BodyLenHitLimit);
    }
    r := Build(cfg.version, pool, q, order);
  }

  /** The frame of a packet that is already compressed or small enough. */
  method Build(v: Version, pool: HeaderPool, q: Packet, order: seq<Str>) returns (r: Result<Str>)
    requires Metadata.IsOrder(order, q.values)
    modifies pool, pool.free
    ensures r == BuildFrame(v, q, order, false)
    ensures old(pool.free) <= pool.free && fresh(pool.free - old(pool.free))
  {
    hide Lay, PackHeader, Metadata.MarshalValues, TrailerAt;
    var h := HeaderFromMetadata(pool, q);
    var md: Str := [];
    if v == V2 {
      var source := new Metadata.Values(q.values);
      md := source.Marshal(order, MAX_METADATA_LENGTH);
    }
    h.MetadataLength := |md| % 0x1_0000;
    h.BodyLength := |q.body| % 0x1_0000_0000;
    var hd := h.Pack(v);
    if hd.Ok? {
      r := LayOut(q, hd.value, md);
    } else {
      r := Err(hd.error);
    }
    pool.Release(h);
  }

  method LayOut(q: Packet, hd: Str, md: Str) returns (r: Result<Str>)
    ensures r == Ok(Lay(q, hd, md, TrailerAt(hd, md, q.body, false)))
  {
    hide BigEndian, Overlay, Zeros;
    var bl, hl := |q.body|, |hd|;
    var t := if q.verify then TRAILER_LENGTH else 0;
    var l := hl + bl + |md| + t;
    var data := ZeroArray(l);
    CopyInto(data, 0, hd);
    CopyInto(data, hl, md);
    CopyInto(data, hl + |md|, q.body);
    CopiedInTurn(hd, md, q.body, t);
    if q.verify {
      CopyInto(data, hl + bl, BigEndian(8, q.nonce));
      CopyInto(data, hl + bl + NONCE_LENGTH, q.signature);
    } else {
      assert Zeros(0) == [];
      assert hd + md + q.body + [] == hd + md + q.body;
    }
    return Ok(data[..]);
  }

  method ZeroArray(n: nat) returns (a: array<byte>)
    ensures fresh(a) && a[..] == Zeros(n)
  {
    a := new byte[n](_ => 0);
  }

  lemma CopiedInTurn(hd: Str, md: Str, body: Str, n: nat)
    ensures Overlay(Overlay(Overlay(Zeros(|hd| + |body| + |md| + n), 0, hd), |hd|, md), |hd| + |md|, body)
         == hd + md + body + Zeros(n)
  {
    var l := |hd| + |body| + |md| + n;
    var a := Overlay(Zeros(l), 0, hd);
    assert a == hd + Zeros(l - |hd|);
    var b := Overlay(a, |hd|, md);
    assert b == hd + md + Zeros(l - |hd| - |md|);
    assert Overlay(b, |hd| + |md|, body) == hd + md + body + Zeros(n);
  }
}
