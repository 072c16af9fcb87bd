/** Encoding packets into frames, and what decoding makes of the result. */
module Packing {
  import opened Bytes
  import opened Frame
  import opened Stream
  import Metadata

  // ------------------------------------------------------------ the encoder

  /** The packet as Pack leaves it: from `min` bytes on (if `min` is not zero) the body is
      replaced by its compressed form and the gzip flag is set. */
  function Squeeze(z: Gzip, p: Packet, min: int): Option<Packet> {
    if min == 0 || |p.body| < min then Some(p)
    else
      match z.compress(p.body)
      case None => None
      case Some(b) => Some(p.(body := b, gzip := true))
  }

  function TypeCode(t: PacketType): byte {
    match t
    case Untyped => 0
    case Request => 1
    case Response => 2
    case Push => 3
  }

  /** headerFromMetadata with the two lengths filled in; the command code loses its upper bits. */
  function HeaderOf(p: Packet, metadataLength: uint16, bodyLength: uint32): Header {
    Header(TypeCode(p.typ), if p.verify then 1 else 0, if p.gzip then 1 else 0, 0,
           p.cmdCode % 256, p.requestId, p.timeout, p.status, metadataLength, bodyLength, false, false)
  }

  function FirstByte(h: Header): byte {
    h.typ % 16 + 16 * (h.verify % 2) + 32 * (h.gzip % 2) + 64 * (h.reserve % 4)
  }

  function HeaderBytes(v: Version, h: Header): Str {
    [FirstByte(h), h.cmdCode] + Numbers(v, h)
  }

  function Numbers(v: Version, h: Header): Str {
    Ids(h) + Lengths(v, h)
  }

  function Ids(h: Header): Str {
    if h.typ == 1 then BigEndian(4, h.requestId) + BigEndian(2, h.timeout)
    else if h.typ == 2 then BigEndian(4, h.requestId) + [h.status]
    else []
  }

  function Lengths(v: Version, h: Header): Str {
    (if v == V2 then BigEndian(2, h.metadataLength) else []) + BigEndian(3, h.bodyLength)
  }

  function PackHeader(v: Version, h: Header): Result<Str> {
    if !Known(h.typ) then Err(UnknownPacket)
    else if h.bodyLength > MAX_BODY_LENGTH then Err(BodyLenHitLimit)
    else Ok(HeaderBytes(v, h))
  }

  /** Go's copy(base[at..], src): as much of `src` as there is room for. */
  function Overlay(base: Str, at: nat, src: Str): (r: Str)
    requires at <= |base|
    ensures |r| == |base|
  {
    var n := if |src| <= |base| - at then |src| else |base| - at;
    base[..at] + src[..n] + base[at + n..]
  }

  /** The sections one after the other, then nonce and signature copied in at offset `at`. */
  function Lay(p: Packet, hd: Str, md: Str, at: nat): Str
    requires p.verify ==> at + NONCE_LENGTH <= |hd| + |md| + |p.body| + TRAILER_LENGTH
  {
    if !p.verify then hd + md + p.body
    else
      Overlay(Overlay(hd + md + p.body + Zeros(TRAILER_LENGTH), at, BigEndian(8, p.nonce)),
              at + NONCE_LENGTH, p.signature)
  }

  /** The metadata section: empty in version 1. */
  function Section(v: Version, p: Packet, order: seq<Str>): Str
    requires forall i :: 0 <= i < |order| ==> order[i] in p.values
  {
    if v == V1 then [] else Metadata.MarshalValues(p.values, order, MAX_METADATA_LENGTH)
  }

  /** Where Pack puts the trailer. Both versions leave the metadata section out of the sum;
      `corrected` adds it. */
  function TrailerAt(hd: Str, md: Str, body: Str, corrected: bool): nat {
    |hd| + |body| + if corrected then |md| else 0
  }

  /** Pack, for one enumeration `order` of the packet's metadata keys. */
  function PackFrame(cfg: Config, p: Packet, min: int, order: seq<Str>, corrected: bool): Result<Str>
    requires forall i :: 0 <= i < |order| ==> order[i] in p.values
  {
    match Squeeze(cfg.gzip, p, min)
    case None => Err(GzipFailure)
    case Some(q) =>
      if |q.body| > MAX_BODY_LENGTH then Err(BodyLenHitLimit) else BuildFrame(cfg.version, q, order, corrected)
  }

  function BuildFrame(v: Version, q: Packet, order: seq<Str>, corrected: bool): Result<Str>
    requires forall i :: 0 <= i < |order| ==> order[i] in q.values
  {
    var md := Section(v, q, order);
    match PackHeader(v, HeaderOf(q, |md| % 0x1_0000, |q.body| % 0x1_0000_0000))
    case Err(e) => Err(e)
    case Ok(hd) => Ok(Lay(q, hd, md, TrailerAt(hd, md, q.body, corrected)))
  }

  /** The cap on the metadata section and the check on the body keep both length fields exact. */
  lemma NoLengthTruncates(cfg: Config, p: Packet, min: int, order: seq<Str>)
    requires forall i :: 0 <= i < |order| ==> order[i] in p.values
    ensures |Section(cfg.version, p, order)| % 0x1_0000 == |Section(cfg.version, p, order)|
    ensures PackFrame(cfg, p, min, order, false).Ok? ==>
              |Squeeze(cfg.gzip, p, min).value.body| < 0x100_0000
  {
    Metadata.TakenPrefix(p.values, order, MAX_METADATA_LENGTH, 0);
  }

  // ------------------------------------------------------- decoding the header

  lemma HeaderBytesLength(v: Version, h: Header)
    requires Known(h.typ)
    ensures |HeaderBytes(v, h)| == HeaderLength(v, h.typ)
  {
    hide BigEndian;
  }

  lemma LengthsLength(v: Version, h: Header)
    ensures |Lengths(v, h)| == if v == V2 then 5 else 3
  {
  }

  lemma LengthsAreRead(v: Version, h: Header, s: Str, x: Str)
    requires h.bodyLength <= MAX_BODY_LENGTH && s == Lengths(v, h) + x
    ensures var k := if v == V2 then 2 else 0;
            && |s| >= k + 3
            && Value(s[..k]) == (if v == V2 then h.metadataLength else 0)
            && Value(s[k..k + 3]) == h.bodyLength
  {
    hide BigEndian;
    ValueOf(2, h.metadataLength);
    ValueOf(3, h.bodyLength);
    var k := if v == V2 then 2 else 0;
    assert v == V2 ==> s[..k] == BigEndian(2, h.metadataLength);
    assert s[k..k + 3] == BigEndian(3, h.bodyLength);
  }

  lemma NumbersAreRead(v: Version, h: Header, s: Str, x: Str)
    requires Known(h.typ) && s == [h.cmdCode] + Numbers(v, h) + x
    ensures |s| >= HeaderLength(v, h.typ) - 1
    ensures s[0] == h.cmdCode
    ensures h.typ != 3 ==> Value(s[1..5]) == h.requestId
    ensures h.typ == 1 ==> Value(s[5..7]) == h.timeout
    ensures h.typ == 2 ==> s[5] == h.status
    ensures s[LengthsAt(h.typ)..] == Lengths(v, h) + x
    ensures s[HeaderLength(v, h.typ) - 1..] == x
  {
    hide BigEndian, Value;
    ValueOf(4, h.requestId);
    ValueOf(2, h.timeout);
    assert h.typ != 3 ==> s[1..5] == BigEndian(4, h.requestId);
    assert h.typ == 1 ==> s[5..7] == BigEndian(2, h.timeout);
  }

  /** A packed header with `x` behind it is read back field by field, and `x` is left. */
  lemma HeaderRoundTrip(v: Version, h: Header, x: Str)
    requires Known(h.typ) && h.verify < 2 && h.gzip < 2 && h.reserve < 4 && h.bodyLength <= MAX_BODY_LENGTH
    requires Carried(h) == h && (v == V1 ==> h.metadataLength == 0)
    requires !h.begun && !h.unpacked
    ensures var b := HeaderBytes(v, h) + x;
            && |HeaderBytes(v, h)| == HeaderLength(v, h.typ)
            && b[0] % 16 == h.typ
            && HeaderAt(v, b) == h.(begun := true, unpacked := true)
            && b[HeaderLength(v, h.typ)..] == x
  {
    hide BigEndian, Value, Numbers, Lengths, FirstByte;
    var b := HeaderBytes(v, h) + x;
    HeaderBytesLength(v, h);
    FirstByteRoundTrip(h);
    var s := b[1..];
    assert s == [h.cmdCode] + Numbers(v, h) + x;
    NumbersAreRead(v, h, s, x);
    var at := LengthsAt(h.typ);
    LengthsAreRead(v, h, s[at..], x);
    var k := if v == V2 then 2 else 0;
    SubSlice(s, at, 0, k);
    SubSlice(s, at, k, k + 3);
    SubSlice(b, 1, HeaderLength(v, h.typ) - 1, |s|);
  }

  lemma FirstByteRoundTrip(h: Header)
    requires h.typ < 16 && h.verify < 2 && h.gzip < 2 && h.reserve < 4
    ensures var b := FirstByte(h);
            b % 16 == h.typ && b / 16 % 2 == h.verify && b / 32 % 2 == h.gzip && b / 64 == h.reserve
  {
    var t: int, v: int, g: int, r: int := h.typ, h.verify, h.gzip, h.reserve;
    DivMod(v + 2 * (g + 2 * r), t, 16);
    DivMod(g + 2 * r, v, 2);
    DivMod(g + 2 * r, t + 16 * v, 32);
    DivMod(r, g, 2);
    DivMod(r, t + 16 * v + 32 * g, 64);
  }

  lemma DivMod(q: nat, r: nat, d: nat)
    requires r < d && (d == 2 || d == 16 || d == 32 || d == 64)
    ensures (d * q + r) / d == q && (d * q + r) % d == r
  {
    if d == 2 {
      assert (2 * q + r) / 2 == q;
    } else if d == 16 {
      assert (16 * q + r) / 16 == q;
    } else if d == 32 {
      assert (32 * q + r) / 32 == q;
    } else {
      assert (64 * q + r) / 64 == q;
    }
  }

  lemma ValueOf(n: nat, x: nat)
    requires (n == 2 && x < 0x1_0000) || (n == 3 && x < 0x100_0000) || (n == 4 && x < 0x1_0000_0000)
             || (n == 8 && x < 0x1_0000_0000_0000_0000)
    ensures Value(BigEndian(n, x)) == x
  {
    Capacities();
    ValueOfBigEndian(n, x);
  }

  // ------------------------------------------------------------- round trips

  function Signature16(s: Str): (r: Str)
    ensures |r| == SIGNATURE_LENGTH
  {
    (s + Zeros(SIGNATURE_LENGTH))[..SIGNATURE_LENGTH]
  }

  function Trailer(p: Packet): Str {
    if p.verify then BigEndian(8, p.nonce) + Signature16(p.signature) else []
  }

  /** A trailer written behind the body is the nonce and the signature cut or padded to 16 bytes. */
  lemma LayInOrder(p: Packet, hd: Str, md: Str)
    ensures Lay(p, hd, md, |hd| + |md| + |p.body|) == hd + md + p.body + Trailer(p)
  {
    hide BigEndian;
    if p.verify {
      var base := hd + md + p.body;
      var n := BigEndian(8, p.nonce);
      var one := Overlay(base + Zeros(TRAILER_LENGTH), |base|, n);
      assert one == base + n + Zeros(SIGNATURE_LENGTH);
      assert Overlay(one, |base| + 8, p.signature) == base + n + Signature16(p.signature);
      assert base + n + Signature16(p.signature) == base + (n + Signature16(p.signature));
    }
  }

  /** What the frame of `q`, already compressed or not, stands for once decoded. */
  function Restored(cfg: Config, q: Packet, md: Str): Result<Packet> {
    var values := if cfg.version == V1 then Some(map[]) else Metadata.UnmarshalValues(md);
    var body := if q.gzip then cfg.gzip.decompress(q.body) else Some(q.body);
    if values.None? then Err(InvalidMetadata)
    else if body.None? then Err(GzipFailure)
    else
      Ok(Packet(
           q.typ, cfg.codec,
           if q.typ == Request then q.timeout else 0,
           q.cmdCode % 256,
           if q.typ == Push then 0 else q.requestId,
           if q.typ == Response then q.status else 0,
           q.verify, q.gzip,
           if q.verify then q.nonce else 0,
           if q.verify then Signature16(q.signature) else [],
           values.value, body.value))
  }

  /** Header and sections in sequence decode to the packet they were made from, and the bytes
      behind them are left alone. */
  lemma SectionsDecode(cfg: Config, q: Packet, md: Str, x: Str)
    requires q.typ != Untyped && |q.body| <= MAX_BODY_LENGTH && |md| <= MAX_METADATA_LENGTH
    requires cfg.version == V1 ==> md == []
    ensures var f := HeaderBytes(cfg.version, HeaderOf(q, |md|, |q.body|)) + md + q.body + Trailer(q);
            Unpack(cfg, FRESH, f + x)
            == match Restored(cfg, q, md)
               case Ok(p) => Decoded(p, x)
               case Err(e) => Failed(e, if e == InvalidMetadata then Trailer(q) + x else x)
  {
    hide BigEndian, Metadata.UnmarshalValues, HeaderBytes, Unpack, UnpackSections, Restored, Assemble, Trailer;
    var v := cfg.version;
    var h := Carried(HeaderOf(q, |md|, |q.body|));
    var t := Trailer(q);
    assert |t| == TrailerSize(h) by { TrailerLength(q); }
    CarriedBytes(v, HeaderOf(q, |md|, |q.body|));
    var hd := HeaderBytes(v, h);
    assert hd + md + q.body + t + x == hd + (md + q.body + t + x);
    HeaderThenSections(cfg, h, md + q.body + t + x);
    SectionsAt(cfg, h.(begun := true, unpacked := true), md, q.body, t, x);
    AssembleRestores(cfg, q, md);
  }

  lemma TrailerLength(p: Packet)
    ensures |Trailer(p)| == if p.verify then TRAILER_LENGTH else 0
  {
  }

  /** Behind a packed header the decoder goes on with exactly that header. */
  lemma HeaderThenSections(cfg: Config, h: Header, s: Str)
    requires Known(h.typ) && h.verify < 2 && h.gzip < 2 && h.reserve < 4 && h.bodyLength <= MAX_BODY_LENGTH
    requires Carried(h) == h && (cfg.version == V1 ==> h.metadataLength == 0)
    requires !h.begun && !h.unpacked
    ensures Unpack(cfg, FRESH, HeaderBytes(cfg.version, h) + s)
         == UnpackSections(cfg, h.(begun := true, unpacked := true), s)
  {
    hide HeaderBytes, Unpack, UnpackSections, HeaderAt;
    HeaderRoundTrip(cfg.version, h, s);
    UnpackFromHeader(cfg, HeaderBytes(cfg.version, h) + s);
  }

  /** The header without the fields its type does not carry. */
  function Carried(h: Header): Header {
    h.(requestId := if h.typ == 3 then 0 else h.requestId,
       timeout := if h.typ == 1 then h.timeout else 0,
       status := if h.typ == 2 then h.status else 0)
  }

  lemma CarriedBytes(v: Version, h: Header)
    requires Known(h.typ)
    ensures HeaderBytes(v, Carried(h)) == HeaderBytes(v, h)
  {
  }

  lemma SectionsAt(cfg: Config, h: Header, md: Str, body: Str, t: Str, x: Str)
    requires |md| == MetadataSize(cfg.version, h) && |body| == h.bodyLength && |t| == TrailerSize(h)
    ensures UnpackSections(cfg, h, md + body + t + x)
         == match Assemble(cfg, h, md, body, t)
            case Ok(p) => Decoded(p, x)
            case Err(e) => Failed(e, if e == InvalidMetadata then t + x else x)
  {
    hide Assemble;
    var s := md + body + t + x;
    var m, e, n := |md|, |md| + |body|, |md| + |body| + |t|;
    assert s[..m] == md && s[m..e] == body && s[e..n] == t && s[n..] == x && s[e..] == t + x;
  }

  lemma AssembleRestores(cfg: Config, q: Packet, md: Str)
    requires q.typ != Untyped && |q.body| <= MAX_BODY_LENGTH && |md| <= MAX_METADATA_LENGTH
    ensures var h := Carried(HeaderOf(q, |md|, |q.body|)).(begun := true, unpacked := true);
            Assemble(cfg, h, md, q.body, Trailer(q)) == Restored(cfg, q, md)
  {
    hide BigEndian, Metadata.UnmarshalValues, Value;
    if q.verify {
      ValueOf(8, q.nonce);
      assert Trailer(q)[..8] == BigEndian(8, q.nonce);
      assert Trailer(q)[8..] == Signature16(q.signature);
    }
  }

  // ---------------------------------------------------------- main theorems

  predicate Compresses(p: Packet, min: int) {
    min != 0 && |p.body| >= min
  }

  /** What the receiver of `p` gets: the fields its type carries, the command code modulo 256, the
      signature as 16 bytes, the metadata that was written, and the body it was given. */
  function Received(cfg: Config, p: Packet, min: int, order: seq<Str>): Packet
    requires forall i :: 0 <= i < |order| ==> order[i] in p.values
  {
    Packet(
      p.typ, cfg.codec,
      if p.typ == Request then p.timeout else 0,
      p.cmdCode % 256,
      if p.typ == Push then 0 else p.requestId,
      if p.typ == Response then p.status else 0,
      p.verify, p.gzip || Compresses(p, min),
      if p.verify then p.nonce else 0,
      if p.verify then Signature16(p.signature) else [],
      if cfg.version == V1 then map[] else Metadata.ToMap(Metadata.Taken(p.values, order, MAX_METADATA_LENGTH, 0)),
      p.body)
  }

  /** What decoding the frame of `p` gives. A packet that says its body is compressed when it is not,
      and that Pack does not compress either, arrives with the body decompressed, or not at all. */
  function OutcomeOf(cfg: Config, p: Packet, min: int, order: seq<Str>, x: Str): Outcome
    requires forall i :: 0 <= i < |order| ==> order[i] in p.values
  {
    var q := Received(cfg, p, min, order);
    if !p.gzip || Compresses(p, min) then Decoded(q, x)
    else
      match cfg.gzip.decompress(p.body)
      case None => Failed(GzipFailure, x)
      case Some(b) => Decoded(q.(body := b), x)
  }

  /** The frame Pack builds when the trailer goes behind the body. */
  lemma FrameInOrder(cfg: Config, p: Packet, min: int, order: seq<Str>, corrected: bool)
    requires forall i :: 0 <= i < |order| ==> order[i] in p.values
    requires PackFrame(cfg, p, min, order, corrected).Ok?
    requires corrected || !p.verify || Section(cfg.version, p, order) == []
    ensures var q, md := Squeeze(cfg.gzip, p, min).value, Section(cfg.version, p, order);
            && q.typ != Untyped && |q.body| <= MAX_BODY_LENGTH && |md| <= MAX_METADATA_LENGTH
            && PackFrame(cfg, p, min, order, corrected).value
               == HeaderBytes(cfg.version, HeaderOf(q, |md|, |q.body|)) + md + q.body + Trailer(q)
  {
    hide Lay, HeaderBytes, Metadata.MarshalValues;
    var q, md := Squeeze(cfg.gzip, p, min).value, Section(cfg.version, p, order);
    assert Section(cfg.version, q, order) == md;
    NoLengthTruncates(cfg, p, min, order);
    var hd := HeaderBytes(cfg.version, HeaderOf(q, |md|, |q.body|));
    LayInOrder(q, hd, md);
    if !p.verify {
      assert Lay(q, hd, md, TrailerAt(hd, md, q.body, corrected)) == Lay(q, hd, md, |hd| + |md| + |q.body|) by {
        LayWithoutTrailer(q, hd, md, TrailerAt(hd, md, q.body, corrected));
        LayWithoutTrailer(q, hd, md, |hd| + |md| + |q.body|);
      }
    }
  }

  lemma LayWithoutTrailer(p: Packet, hd: Str, md: Str, at: nat)
    requires !p.verify
    ensures Lay(p, hd, md, at) == hd + md + p.body
  {
  }

  lemma SectionParses(v: Version, p: Packet, order: seq<Str>)
    requires forall i :: 0 <= i < |order| ==> order[i] in p.values
    ensures v == V2 ==> Metadata.UnmarshalValues(Section(v, p, order))
                        == Some(Metadata.ToMap(Metadata.Taken(p.values, order, MAX_METADATA_LENGTH, 0)))
  {
    var ps := Metadata.Taken(p.values, order, MAX_METADATA_LENGTH, 0);
    Metadata.Canonical(Metadata.EncodePairs(ps), ps);
  }

  /** Packing then decoding gives the packet back, with any bytes `x` behind it left in the stream:
      always in version 1, and in version 2 unless a trailer and metadata meet. With the trailer
      offset corrected it holds in version 2 as well. */
  lemma PackRoundTrip(cfg: Config, p: Packet, min: int, order: seq<Str>, corrected: bool, x: Str)
    requires forall i :: 0 <= i < |order| ==> order[i] in p.values
    requires Inverse(cfg.gzip)
    requires PackFrame(cfg, p, min, order, corrected).Ok?
    requires corrected || !p.verify || Section(cfg.version, p, order) == []
    ensures Unpack(cfg, FRESH, PackFrame(cfg, p, min, order, corrected).value + x) == OutcomeOf(cfg, p, min, order, x)
  {
    hide HeaderBytes, Unpack, Lay, Metadata.MarshalValues, Metadata.UnmarshalValues, Metadata.Taken;
    FrameInOrder(cfg, p, min, order, corrected);
    SectionParses(cfg.version, p, order);
    var q, md := Squeeze(cfg.gzip, p, min).value, Section(cfg.version, p, order);
    SectionsDecode(cfg, q, md, x);
  }

  /** Which packets come back exactly as they were given, up to the gzip flag. */
  predicate Faithful(cfg: Config, p: Packet) {
    && p.codec == cfg.codec
    && p.cmdCode < 256
    && (p.typ != Request ==> p.timeout == 0)
    && (p.typ == Push ==> p.requestId == 0)
    && (p.typ != Response ==> p.status == 0)
    && (if p.verify then |p.signature| == SIGNATURE_LENGTH else p.nonce == 0 && p.signature == [])
  }

  lemma ReceivedIsSent(cfg: Config, p: Packet, min: int, order: seq<Str>)
    requires Metadata.IsOrder(order, p.values) && Metadata.LowerKeys(p.values)
    ensures Received(cfg, p, min, order).(gzip := p.gzip) == p
            <==> && Faithful(cfg, p)
                 && (if cfg.version == V1 then p.values == map[]
                     else Metadata.Carriable(p.values) == p.values
                          && Metadata.TotalSize(p.values, order) <= MAX_METADATA_LENGTH)
  {
    hide Metadata.Taken, Metadata.ToMap, Metadata.MarshalValues, Metadata.UnmarshalValues, Metadata.TotalSize;
    assert |p.signature| == SIGNATURE_LENGTH ==> Signature16(p.signature) == p.signature;
    SectionParses(V2, p, order);
    Metadata.ValuesRoundTrip(p.values, order, MAX_METADATA_LENGTH);
    var back := Metadata.ToMap(Metadata.Taken(p.values, order, MAX_METADATA_LENGTH, 0));
    assert Section(V2, p, order) == Metadata.MarshalValues(p.values, order, MAX_METADATA_LENGTH);
    if back == p.values {
      assert Metadata.Carriable(p.values).Keys <= p.values.Keys;
      assert Metadata.Carriable(p.values) == p.values;
    }
  }

  /** Pack keeps the compressed body in the packet. Packing the same packet again yields a frame
      that carries the original body exactly when the body is not compressed a second time (or
      compression does not change it). */
  lemma PackTwice(cfg: Config, p: Packet, min: int, order: seq<Str>, x: Str)
    requires forall i :: 0 <= i < |order| ==> order[i] in p.values
    requires Inverse(cfg.gzip) && Compresses(p, min)
    requires !p.verify || Section(cfg.version, p, order) == []
    requires Squeeze(cfg.gzip, p, min).Some?
    requires PackFrame(cfg, Squeeze(cfg.gzip, p, min).value, min, order, false).Ok?
    ensures var q := Squeeze(cfg.gzip, p, min).value;
            var r := Unpack(cfg, FRESH, PackFrame(cfg, q, min, order, false).value + x);
            && r.Decoded? && r.rest == x
            && (r.packet == Received(cfg, p, min, order) <==> !Compresses(q, min) || q.body == p.body)
  {
    hide HeaderBytes, Unpack, Lay, Metadata.MarshalValues, Metadata.UnmarshalValues, Metadata.Taken;
    var q := Squeeze(cfg.gzip, p, min).value;
    FrameInOrder(cfg, q, min, order, false);
    SectionParses(cfg.version, q, order);
    var q2, md := Squeeze(cfg.gzip, q, min).value, Section(cfg.version, q, order);
    assert Restored(cfg, q2, md).Ok?;
    SectionsDecode(cfg, q2, md, x);
  }

  datatype Job = Job(packet: Packet, min: int, order: seq<Str>)

  ghost predicate Sendable(cfg: Config, j: Job) {
    && (forall i :: 0 <= i < |j.order| ==> j.order[i] in j.packet.values)
    && PackFrame(cfg, j.packet, j.min, j.order, false).Ok?
    && (!j.packet.verify || Section(cfg.version, j.packet, j.order) == [])
    && OutcomeOf(cfg, j.packet, j.min, j.order, []).Decoded?
  }

  ghost function Wire(cfg: Config, jobs: seq<Job>): Str
    requires forall i :: 0 <= i < |jobs| ==> Sendable(cfg, jobs[i])
  {
    if jobs == [] then []
    else
      assert Sendable(cfg, jobs[0]);
      PackFrame(cfg, jobs[0].packet, jobs[0].min, jobs[0].order, false).value + Wire(cfg, jobs[1..])
  }

  ghost function Arrivals(cfg: Config, jobs: seq<Job>): seq<Packet>
    requires forall i :: 0 <= i < |jobs| ==> Sendable(cfg, jobs[i])
  {
    if jobs == [] then []
    else
      assert Sendable(cfg, jobs[0]);
      [OutcomeOf(cfg, jobs[0].packet, jobs[0].min, jobs[0].order, []).packet] + Arrivals(cfg, jobs[1..])
  }

  lemma {:induction false} WireDrains(cfg: Config, jobs: seq<Job>)
    requires Inverse(cfg.gzip)
    requires forall i :: 0 <= i < |jobs| ==> Sendable(cfg, jobs[i])
    ensures Resumable(cfg.version, FRESH)
    ensures Drain(cfg, FRESH, Wire(cfg, jobs)) == Drained(Arrivals(cfg, jobs), Suspended(FRESH, []))
  {
    hide Unpack, PackFrame, Received, Resumable;
    FreshResumable(cfg.version);
    if jobs == [] {
      DrainNothing(cfg);
    } else {
      var j := jobs[0];
      assert Sendable(cfg, j);
      PackRoundTrip(cfg, j.packet, j.min, j.order, false, Wire(cfg, jobs[1..]));
      WireDrains(cfg, jobs[1..]);
    }
  }

  /** Any list of packets, packed, concatenated, cut into chunks anywhere and fed to the read loop,
      arrives as the same list in order, and the loop is left as if nothing had been read. */
  lemma StreamRoundTrip(cfg: Config, jobs: seq<Job>, chunks: seq<Str>)
    requires Inverse(cfg.gzip)
    requires forall i :: 0 <= i < |jobs| ==> Sendable(cfg, jobs[i])
    requires Flatten(chunks) == Wire(cfg, jobs)
    ensures ReadAll(cfg, chunks) == Drained(Arrivals(cfg, jobs), Suspended(FRESH, []))
  {
    ReadAllIsDrain(cfg, chunks);
    WireDrains(cfg, jobs);
  }
}
