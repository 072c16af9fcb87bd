/** Frames of protocol versions 1 and 2: the header layout, the resumable decoder and the
    one-shot decoder, as functions on byte strings. Version 2 adds a 16-bit metadata length to the
    header and a metadata section before the body; everything else is shared. */
module Frame {
  import opened Bytes
  import Metadata

  const NONCE_LENGTH := 8
  const SIGNATURE_LENGTH := 16
  const TRAILER_LENGTH := 24
  const MAX_BODY_LENGTH := 0xff_ffff
  const MAX_METADATA_LENGTH := 0xffff

  datatype Version = V1 | V2

  datatype PacketType = Untyped | Request | Response | Push

  datatype Error = UnknownPacket | BodyLenHitLimit | InvalidFrame | InvalidMetadata | GzipFailure

  datatype Result<+T> = Ok(value: T) | Err(error: Error)

  /** The compression library: two partial functions. */
  datatype Gzip = Gzip(compress: Str -> Option<Str>, decompress: Str -> Option<Str>)

  /** The only thing asked of the library: what it compressed it can restore. */
  ghost predicate Inverse(z: Gzip) {
    forall x: Str :: z.compress(x).Some? ==> z.decompress(z.compress(x).value) == Some(x)
  }

  datatype Config = Config(version: Version, codec: byte, gzip: Gzip)

  datatype Packet = Packet(
    typ: PacketType, codec: byte, timeout: uint16, cmdCode: uint32, requestId: uint32, status: byte,
    verify: bool, gzip: bool, nonce: uint64, signature: Str, values: map<Str, Str>, body: Str)

  /** The fields of a header object, including how far its decoding has got. */
  datatype Header = Header(
    typ: byte, verify: byte, gzip: byte, reserve: byte, cmdCode: byte, requestId: uint32,
    timeout: uint16, status: byte, metadataLength: uint16, bodyLength: uint32, begun: bool, unpacked: bool)

  const FRESH := Header(0, 0, 0, 0, 0, 0, 0, 0, 0, 0, false, false)

  predicate Known(typ: byte) {
    1 <= typ <= 3
  }

  function HeaderLength(v: Version, typ: byte): nat {
    (if typ == 1 then 11 else if typ == 2 then 10 else 5) + if v == V2 then 2 else 0
  }

  /** Where the length fields start, counted from the second byte of the header. */
  function LengthsAt(typ: byte): nat {
    if typ == 1 then 7 else if typ == 2 then 6 else 1
  }

  /** First byte: type in the low four bits, then verify, gzip and two reserved bits. */
  function ReadFirst(h: Header, b: byte): Header {
    h.(typ := b % 16, verify := b / 16 % 2, gzip := b / 32 % 2, reserve := b / 64, begun := true)
  }

  /** The remaining header bytes `s`, read into `h`. Fields the type does not carry are kept. */
  function ReadRest(v: Version, h: Header, s: Str): Header
    requires |s| >= HeaderLength(v, h.typ) - 1
  {
    var at := LengthsAt(h.typ);
    var at' := if v == V2 then at + 2 else at;
    h.(cmdCode := s[0],
       requestId := if h.typ == 1 || h.typ == 2 then Uint32(s[1..5]) else h.requestId,
       timeout := if h.typ == 1 then Uint16(s[5..7]) else h.timeout,
       status := if h.typ == 2 then s[5] else h.status,
       metadataLength := if v == V2 then Uint16(s[at..at']) else h.metadataLength,
       bodyLength := Uint24(s[at'..at' + 3]))
  }

  function MetadataSize(v: Version, h: Header): nat {
    if v == V2 then h.metadataLength else 0
  }

  function TrailerSize(h: Header): nat {
    if h.verify == 1 then TRAILER_LENGTH else 0
  }

  /** Bytes that follow the header. */
  function Needed(v: Version, h: Header): nat {
    MetadataSize(v, h) + h.bodyLength + TrailerSize(h)
  }

  function TypeOf(typ: byte): PacketType {
    if typ == 1 then Request else if typ == 2 then Response else if typ == 3 then Push else Untyped
  }

  /** The packet a header and its sections stand for. `trailer` is empty without verification. */
  function Assemble(cfg: Config, h: Header, md: Str, body: Str, trailer: Str): Result<Packet>
    requires h.verify == 1 ==> |trailer| >= TRAILER_LENGTH
  {
    var values := if cfg.version == V1 then Some(map[]) else Metadata.UnmarshalValues(md);
    if values.None? then Err(InvalidMetadata)
    else
      var plain := if h.gzip == 1 then cfg.gzip.decompress(body) else Some(body);
      if plain.None? then Err(GzipFailure)
      else
        Ok(Packet(
             TypeOf(h.typ), cfg.codec, h.timeout, h.cmdCode, h.requestId, h.status,
             h.verify == 1, h.gzip == 1,
             if h.verify == 1 then Uint64(trailer[..NONCE_LENGTH]) else 0,
             if h.verify == 1 then trailer[NONCE_LENGTH..] else [],
             values.value, plain.value))
  }

  // ------------------------------------------------------ the resumable decoder

  datatype HeaderOutcome =
    | Pending(header: Header, rest: Str)
    | Ready(header: Header, rest: Str)
    | Malformed(rest: Str)

  datatype Outcome =
    | Waiting(header: Header, rest: Str)
    | Decoded(packet: Packet, rest: Str)
    | Failed(error: Error, rest: Str)

  /** One call of Header.Unpack on a buffer holding `b`: the type byte is consumed as soon as it is
      there, the others only once all of them are. */
  function UnpackHeader(v: Version, h: Header, b: Str): HeaderOutcome {
    if b == [] then Pending(h, b)
    else if h.unpacked then Ready(h, b)
    else
      var h1 := if h.begun then h else ReadFirst(h, b[0]);
      var r := if h.begun then b else b[1..];
      if !Known(h1.typ) then Malformed(r)
      else
        var n := HeaderLength(v, h1.typ) - 1;
        if |r| < n then Pending(h1, r)
        else Ready(ReadRest(v, h1, r).(unpacked := true), r[n..])
  }

  /** The part of Unpack after the header: nothing is consumed until all sections are there. */
  function UnpackSections(cfg: Config, h: Header, b: Str): Outcome {
    if |b| < Needed(cfg.version, h) then Waiting(h, b)
    else
      var m := MetadataSize(cfg.version, h);
      var e := m + h.bodyLength;
      var n := Needed(cfg.version, h);
      match Assemble(cfg, h, b[..m], b[m..e], b[e..n])
      case Ok(p) => Decoded(p, b[n..])
      case Err(err) => Failed(err, if err == InvalidMetadata then b[e..] else b[n..])
  }

  /** One call of Unpack with header `h` in the context slot. */
  function Unpack(cfg: Config, h: Header, b: Str): Outcome {
    if h.unpacked then UnpackSections(cfg, h, b)
    else
      match UnpackHeader(cfg.version, h, b)
      case Pending(h', r) => Waiting(h', r)
      case Malformed(r) => Failed(UnknownPacket, r)
      case Ready(h', r) => UnpackSections(cfg, h', r)
  }

  /** What a header left in the slot looks like: untouched, or its type byte read and nothing else,
      or complete and still short of at least one byte. */
  predicate Resumable(v: Version, h: Header) {
    || h == FRESH
    || (h == FRESH.(typ := h.typ, verify := h.verify, gzip := h.gzip, reserve := h.reserve, begun := true)
        && Known(h.typ))
    || (h.begun && h.unpacked && Known(h.typ) && Needed(v, h) > 0)
  }

  /** A waiting decoder keeps its slot resumable; a decoded packet has consumed input. */
  lemma UnpackProgress(cfg: Config, h: Header, b: Str)
    requires Resumable(cfg.version, h)
    ensures match Unpack(cfg, h, b)
            case Waiting(h', r) => Resumable(cfg.version, h') && |r| <= |b|
            case Decoded(_, r) => |r| < |b|
            case Failed(_, r) => |r| <= |b|
  {
    hide Assemble, ReadRest;
    if !h.unpacked && b != [] {
      var h1 := if h.begun then h else ReadFirst(h, b[0]);
      var r := if h.begun then b else b[1..];
      if Known(h1.typ) && |r| >= HeaderLength(cfg.version, h1.typ) - 1 {
        KeepsFlags(cfg.version, h1, r);
      }
    }
  }

  /** Bytes that arrive later change nothing that was decided earlier, and a suspended call goes on
      as if it had never stopped. */
  lemma UnpackExtend(cfg: Config, h: Header, b: Str, x: Str)
    ensures match Unpack(cfg, h, b)
            case Waiting(h', r) => Unpack(cfg, h, b + x) == Unpack(cfg, h', r + x)
            case Decoded(p, r) => Unpack(cfg, h, b + x) == Decoded(p, r + x)
            case Failed(e, r) => Unpack(cfg, h, b + x) == Failed(e, r + x)
  {
    if b == [] && !h.unpacked {
      assert b + x == x;
    } else if h.unpacked {
      SectionsExtend(cfg, h, b, x);
    } else {
      HeaderExtend(cfg.version, h, b, x);
      match UnpackHeader(cfg.version, h, b)
      case Ready(h', r) => SectionsExtend(cfg, h', r, x);
      case Pending(_, _) =>
      case Malformed(_) =>
    }
  }

  lemma SectionsExtend(cfg: Config, h: Header, b: Str, x: Str)
    ensures match UnpackSections(cfg, h, b)
            case Waiting(h', r) => h' == h && r == b
            case Decoded(p, r) => UnpackSections(cfg, h, b + x) == Decoded(p, r + x)
            case Failed(e, r) => UnpackSections(cfg, h, b + x) == Failed(e, r + x)
  {
    hide Assemble;
    var m := MetadataSize(cfg.version, h);
    var e := m + h.bodyLength;
    var n := Needed(cfg.version, h);
    if |b| >= n {
      assert (b + x)[..m] == b[..m] && (b + x)[m..e] == b[m..e] && (b + x)[e..n] == b[e..n];
      assert (b + x)[n..] == b[n..] + x && (b + x)[e..] == b[e..] + x;
    }
  }

  lemma HeaderExtend(v: Version, h: Header, b: Str, x: Str)
    requires b != [] && !h.unpacked
    ensures match UnpackHeader(v, h, b)
            case Pending(h', r) =>
              && !h'.unpacked
              && (UnpackHeader(v, h, b + x) == UnpackHeader(v, h', r + x)
                  || (r + x == [] && UnpackHeader(v, h, b + x) == Pending(h', [])))
            case Ready(h', r) => UnpackHeader(v, h, b + x) == Ready(h', r + x) && h'.unpacked
            case Malformed(r) => UnpackHeader(v, h, b + x) == Malformed(r + x)
  {
    var h1 := if h.begun then h else ReadFirst(h, b[0]);
    var r := if h.begun then b else b[1..];
    assert (b + x)[0] == b[0] && (b + x)[1..] == b[1..] + x;
    if Known(h1.typ) {
      var n := HeaderLength(v, h1.typ) - 1;
      if |r| >= n {
        ReadRestExtend(v, h1, r, x);
        assert (r + x)[n..] == r[n..] + x;
      }
    }
  }

  /** Only the header's own bytes are read. */
  lemma ReadRestExtend(v: Version, h: Header, s: Str, x: Str)
    requires Known(h.typ) && |s| >= HeaderLength(v, h.typ) - 1
    ensures ReadRest(v, h, s + x) == ReadRest(v, h, s)
  {
    var at := LengthsAt(h.typ);
    var at' := if v == V2 then at + 2 else at;
    assert h.typ != 3 ==> (s + x)[1..5] == s[1..5];
    assert h.typ == 1 ==> (s + x)[5..7] == s[5..7];
    assert (s + x)[at..at'] == s[at..at'];
    assert (s + x)[at'..at' + 3] == s[at'..at' + 3];
  }

  // -------------------------------------------------------- the one-shot decoder

  /** UnpackBytes with header `h` in the context slot. */
  function UnpackBytes(cfg: Config, h: Header, bs: Str): Result<Packet> {
    if bs == [] then Err(InvalidFrame)
    else
      var h1 := ReadFirst(h, bs[0]);
      if !Known(h1.typ) then Err(UnknownPacket)
      else if |bs| < HeaderLength(cfg.version, h1.typ) then Err(InvalidFrame)
      else
        var h2 := ReadRest(cfg.version, h1, bs[1..]);
        var data := bs[HeaderLength(cfg.version, h1.typ)..];
        var m := MetadataSize(cfg.version, h2);
        var e := m + h2.bodyLength;
        if |data| < e then Err(InvalidFrame)
        else if cfg.version == V2 && Metadata.UnmarshalValues(data[..m]).None? then Err(InvalidMetadata)
        else if h2.verify == 1 && |data| < e + TRAILER_LENGTH then Err(InvalidFrame)
        else Assemble(cfg, h2, data[..m], data[m..e], if h2.verify == 1 then data[e..] else [])
  }

  datatype Cut = More | Bad | Cut(size: nat)

  /** The size of the frame at the head of `b`, from its header alone. */
  function NextFrame(v: Version, b: Str): Cut {
    if b == [] then More
    else
      var h := ReadFirst(FRESH, b[0]);
      if !Known(h.typ) then Bad
      else if |b| < HeaderLength(v, h.typ) then More
      else
        var n := HeaderLength(v, h.typ) + Needed(v, ReadRest(v, h, b[1..]));
        if |b| < n then More else Cut(n)
  }

  /** `f` is one whole frame and nothing else. */
  predicate ExactFrame(v: Version, f: Str) {
    NextFrame(v, f) == Cut(|f|)
  }

  /** The header at the head of `b`, marked as unpacked. */
  function HeaderAt(v: Version, b: Str): Header
    requires b != [] && |b| >= HeaderLength(v, b[0] % 16)
  {
    ReadRest(v, ReadFirst(FRESH, b[0]), b[1..]).(unpacked := true)
  }

  /** With the whole header there, decoding goes straight on to the sections. */
  lemma UnpackFromHeader(cfg: Config, b: Str)
    requires b != [] && Known(b[0] % 16) && |b| >= HeaderLength(cfg.version, b[0] % 16)
    ensures Unpack(cfg, FRESH, b)
         == UnpackSections(cfg, HeaderAt(cfg.version, b), b[HeaderLength(cfg.version, b[0] % 16)..])
  {
    hide ReadRest, UnpackSections;
    var k := HeaderLength(cfg.version, b[0] % 16);
    assert b[1..][k - 1..] == b[k..];
  }

  /** On exactly one frame the one-shot decoder looks at the same sections. */
  lemma BytesFromHeader(cfg: Config, f: Str)
    requires ExactFrame(cfg.version, f)
    ensures var h := HeaderAt(cfg.version, f);
            var d := f[HeaderLength(cfg.version, f[0] % 16)..];
            var m := MetadataSize(cfg.version, h);
            var e := m + h.bodyLength;
            && |d| == Needed(cfg.version, h)
            && UnpackBytes(cfg, FRESH, f) == Assemble(cfg, h, d[..m], d[m..e], d[e..])
  {
    hide Assemble, ReadRest;
    var h1 := ReadFirst(FRESH, f[0]);
    KeepsFlags(cfg.version, h1, f[1..]);
    AssembleIgnoresProgress(cfg, ReadRest(cfg.version, h1, f[1..]), f[HeaderLength(cfg.version, f[0] % 16)..]);
  }

  lemma FramePrefix(v: Version, b: Str, n: nat)
    requires NextFrame(v, b) == Cut(n)
    ensures b != [] && Known(b[0] % 16) && HeaderLength(v, b[0] % 16) <= n <= |b|
    ensures ExactFrame(v, b[..n]) && HeaderAt(v, b[..n]) == HeaderAt(v, b)
  {
    hide ReadRest;
    assert b[1..] == b[..n][1..] + b[n..];
    ReadRestExtend(v, ReadFirst(FRESH, b[0]), b[..n][1..], b[n..]);
  }

  /** Cutting the frame out first or reading its sections in place is the same. */
  lemma Slices(b: Str, k: nat, n: nat, m: nat, e: nat)
    requires m <= e && k + e <= n <= |b|
    ensures b[..n][k..][..m] == b[k..][..m]
    ensures b[..n][k..][m..e] == b[k..][m..e]
    ensures b[..n][k..][e..] == b[k..][e..n - k]
    ensures b[k..][n - k..] == b[n..]
  {
    assert b[..n][k..] == b[k..n] == b[k..][..n - k];
    SubSlice(b, k, 0, m);
    SubSlice(b, k, m, e);
    SubSlice(b, k, e, n - k);
    SubSlice(b, k, n - k, n - k);
    SubSlice(b[..n], k, 0, m);
    SubSlice(b[..n], k, m, e);
    SubSlice(b[..n], k, e, n - k);
    assert b[..n][k + e..n] == b[..n][k + e..];
  }

  /** On a stream that starts with a whole frame the resumable decoder takes exactly that frame and
      gives what the one-shot decoder gives for it; otherwise it waits or refuses the type. */
  lemma DecodersAgree(cfg: Config, b: Str)
    ensures match NextFrame(cfg.version, b)
            case More => Unpack(cfg, FRESH, b).Waiting?
            case Bad => Unpack(cfg, FRESH, b).Failed? && Unpack(cfg, FRESH, b).error == UnknownPacket
            case Cut(n) =>
              && 0 < n <= |b|
              && match UnpackBytes(cfg, FRESH, b[..n])
                 case Ok(p) => Unpack(cfg, FRESH, b) == Decoded(p, b[n..])
                 case Err(e) => Unpack(cfg, FRESH, b).Failed? && Unpack(cfg, FRESH, b).error == e
  {
    hide Assemble, ReadRest, UnpackBytes;
    var v := cfg.version;
    if NextFrame(v, b).Cut? {
      hide UnpackHeader, Unpack, NextFrame;
      WholeFrameAgrees(cfg, b, NextFrame(v, b).size);
    } else if b != [] && Known(b[0] % 16) && |b| >= HeaderLength(v, b[0] % 16) {
      KeepsFlags(v, ReadFirst(FRESH, b[0]), b[1..]);
    }
  }

  lemma WholeFrameAgrees(cfg: Config, b: Str, n: nat)
    requires NextFrame(cfg.version, b) == Cut(n)
    ensures 0 < n <= |b|
    ensures match UnpackBytes(cfg, FRESH, b[..n])
            case Ok(p) => Unpack(cfg, FRESH, b) == Decoded(p, b[n..])
            case Err(e) => Unpack(cfg, FRESH, b).Failed? && Unpack(cfg, FRESH, b).error == e
  {
    hide Assemble, ReadRest, UnpackBytes, UnpackHeader, Unpack, NextFrame;
    var v := cfg.version;
    FramePrefix(v, b, n);
    UnpackFromHeader(cfg, b);
    BytesFromHeader(cfg, b[..n]);
    var h := HeaderAt(v, b);
    var k := HeaderLength(v, b[0] % 16);
    var m := MetadataSize(v, h);
    var e := m + h.bodyLength;
    Slices(b, k, n, m, e);
  }

  lemma KeepsFlags(v: Version, h: Header, s: Str)
    requires |s| >= HeaderLength(v, h.typ) - 1
    ensures var r := ReadRest(v, h, s);
            r.typ == h.typ && r.verify == h.verify && r.gzip == h.gzip && r.begun == h.begun && r.unpacked == h.unpacked
  {
  }

  /** The sections of `d` mean the same whether or not the header is marked as unpacked, and
      without verification no trailer is looked at. */
  lemma AssembleIgnoresProgress(cfg: Config, h: Header, d: Str)
    requires |d| == Needed(cfg.version, h)
    ensures var m := MetadataSize(cfg.version, h);
            var e := m + h.bodyLength;
            && Assemble(cfg, h, d[..m], d[m..e], if h.verify == 1 then d[e..] else [])
               == Assemble(cfg, h.(unpacked := true), d[..m], d[m..e], d[e..])
            && (Assemble(cfg, h, d[..m], d[m..e], if h.verify == 1 then d[e..] else []) == Err(InvalidMetadata)
                <==> cfg.version == V2 && Metadata.UnmarshalValues(d[..m]).None?)
  {
  }

  /** Cut a valid frame short anywhere: the stream decoder waits, the frame decoder objects. */
  lemma PrefixOfFrame(cfg: Config, f: Str, k: nat)
    requires ExactFrame(cfg.version, f) && UnpackBytes(cfg, FRESH, f).Ok? && k < |f|
    ensures Unpack(cfg, FRESH, f[..k]).Waiting?
    ensures UnpackBytes(cfg, FRESH, f[..k]) == Err(InvalidFrame)
  {
    hide Assemble;
    var g := f[..k];
    if k > 0 && k >= HeaderLength(cfg.version, f[0] % 16) {
      var h1 := ReadFirst(FRESH, f[0]);
      assert f[1..] == g[1..] + f[k..];
      ReadRestExtend(cfg.version, h1, g[1..], f[k..]);
      KeepsFlags(cfg.version, h1, g[1..]);
      var h2 := ReadRest(cfg.version, h1, g[1..]);
      var n := HeaderLength(cfg.version, h1.typ);
      var m := MetadataSize(cfg.version, h2);
      if |g[n..]| >= m + h2.bodyLength {
        assert g[n..][..m] == f[n..][..m];
      }
    }
    DecodersAgree(cfg, g);
  }

  /** The one-shot decoder up to the end of the header. */
  function FrameHeader(v: Version, h: Header, bs: Str): Result<Header> {
    if bs == [] then Err(InvalidFrame)
    else
      var h1 := ReadFirst(h, bs[0]);
      if !Known(h1.typ) then Err(UnknownPacket)
      else if |bs| < HeaderLength(v, h1.typ) then Err(InvalidFrame)
      else Ok(ReadRest(v, h1, bs[1..]))
  }

  /** And behind it, with the header fields it finds then. */
  function FrameBody(cfg: Config, x: Header, bs: Str): Result<Packet> {
    if |bs| < HeaderLength(cfg.version, x.typ) then Err(InvalidFrame)
    else
      var data := bs[HeaderLength(cfg.version, x.typ)..];
      var m := MetadataSize(cfg.version, x);
      var e := m + x.bodyLength;
      if |data| < e then Err(InvalidFrame)
      else if cfg.version == V2 && Metadata.UnmarshalValues(data[..m]).None? then Err(InvalidMetadata)
      else if x.verify == 1 && |data| < e + TRAILER_LENGTH then Err(InvalidFrame)
      else Assemble(cfg, x, data[..m], data[m..e], if x.verify == 1 then data[e..] else [])
  }

  lemma InTwoSteps(cfg: Config, h: Header, bs: Str)
    ensures UnpackBytes(cfg, h, bs)
         == match FrameHeader(cfg.version, h, bs)
            case Err(e) => Err(e)
            case Ok(x) => FrameBody(cfg, x, bs)
  {
    hide Assemble, ReadRest;
    if bs != [] {
      var h1 := ReadFirst(h, bs[0]);
      if Known(h1.typ) && |bs| >= HeaderLength(cfg.version, h1.typ) {
        KeepsFlags(cfg.version, h1, bs[1..]);
      }
    }
  }

  lemma HeaderBehind(v: Version, f: Str, x: Str)
    requires ExactFrame(v, f)
    ensures FrameHeader(v, FRESH, f).Ok? && FrameHeader(v, FRESH, f + x) == FrameHeader(v, FRESH, f)
    ensures var h := FrameHeader(v, FRESH, f).value; |f| == HeaderLength(v, h.typ) + Needed(v, h)
  {
    hide ReadRest;
    var h1 := ReadFirst(FRESH, f[0]);
    assert (f + x)[1..] == f[1..] + x;
    ReadRestExtend(v, h1, f[1..], x);
    KeepsFlags(v, h1, f[1..]);
  }

  lemma BodyBehind(cfg: Config, h: Header, f: Str, x: Str)
    requires |f| == HeaderLength(cfg.version, h.typ) + Needed(cfg.version, h)
    ensures FrameBody(cfg, h, f + x)
         == match FrameBody(cfg, h, f)
            case Err(e) => Err(e)
            case Ok(p) => Ok(if p.verify then p.(signature := p.signature + x) else p)
  {
    hide Assemble;
    var n := HeaderLength(cfg.version, h.typ);
    var data := f[n..];
    var m := MetadataSize(cfg.version, h);
    var e := m + h.bodyLength;
    assert (f + x)[n..] == data + x;
    assert (data + x)[..m] == data[..m] && (data + x)[m..e] == data[m..e] && (data + x)[e..] == data[e..] + x;
    LongerTrailer(cfg, h, data[..m], data[m..e], data[e..], x);
  }

  /** Bytes behind a whole frame: the one-shot decoder takes them for more of the signature, if there
      is one, and otherwise does not see them. */
  lemma BytesBehindFrame(cfg: Config, f: Str, x: Str)
    requires ExactFrame(cfg.version, f)
    ensures UnpackBytes(cfg, FRESH, f + x)
         == match UnpackBytes(cfg, FRESH, f)
            case Err(e) => Err(e)
            case Ok(p) => Ok(if p.verify then p.(signature := p.signature + x) else p)
  {
    hide UnpackBytes, FrameHeader, FrameBody;
    InTwoSteps(cfg, FRESH, f);
    InTwoSteps(cfg, FRESH, f + x);
    HeaderBehind(cfg.version, f, x);
    BodyBehind(cfg, FrameHeader(cfg.version, FRESH, f).value, f, x);
  }

  lemma LongerTrailer(cfg: Config, h: Header, md: Str, body: Str, t: Str, x: Str)
    requires h.verify == 1 ==> |t| >= TRAILER_LENGTH
    ensures h.verify == 1 ==>
              Assemble(cfg, h, md, body, t + x)
              == match Assemble(cfg, h, md, body, t)
                 case Err(e) => Err(e)
                 case Ok(p) => Ok(p.(signature := p.signature + x))
    ensures Assemble(cfg, h, md, body, t).Ok? ==> Assemble(cfg, h, md, body, t).value.verify == (h.verify == 1)
    ensures h.verify != 1 ==> Assemble(cfg, h, md, body, []) == Assemble(cfg, h, md, body, t)
  {
    if h.verify == 1 {
      assert (t + x)[..NONCE_LENGTH] == t[..NONCE_LENGTH] && (t + x)[NONCE_LENGTH..] == t[NONCE_LENGTH..] + x;
    }
  }
}
