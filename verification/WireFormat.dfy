/** The wire format in plain numbers: where each field of a header lies, how strings are prefixed,
    what the encoder accepts and which metadata it carries. */
module WireFormat {
  import opened Bytes
  import opened Frame
  import opened Packing
  import opened Metadata

  // -------------------------------------------------------------------- headers

  lemma IdsLayout(h: Header)
    requires Known(h.typ)
    ensures var b := Ids(h);
            && |b| == (if h.typ == 1 then 6 else if h.typ == 2 then 5 else 0)
            && (h.typ != 3 ==> Value(b[..4]) == h.requestId)
            && (h.typ == 1 ==> Value(b[4..6]) == h.timeout)
            && (h.typ == 2 ==> b[4] == h.status)
  {
    hide BigEndian, Value;
    ValueOf(4, h.requestId);
    ValueOf(2, h.timeout);
    var b := Ids(h);
    if h.typ == 1 {
      assert b[..4] == BigEndian(4, h.requestId) && b[4..6] == BigEndian(2, h.timeout);
    } else if h.typ == 2 {
      assert b[..4] == BigEndian(4, h.requestId);
    }
  }

  lemma LengthsLayout(v: Version, h: Header)
    requires h.bodyLength < 0x100_0000
    ensures var b, k := Lengths(v, h), if v == V2 then 2 else 0;
            && |b| == k + 3 && Value(b[k..]) == h.bodyLength
            && (v == V2 ==> Value(b[..2]) == h.metadataLength)
  {
    hide BigEndian, Value;
    ValueOf(3, h.bodyLength);
    ValueOf(2, h.metadataLength);
    var b := Lengths(v, h);
    if v == V2 {
      assert b[..2] == BigEndian(2, h.metadataLength) && b[2..] == BigEndian(3, h.bodyLength);
    } else {
      assert b[0..] == BigEndian(3, h.bodyLength);
    }
  }

  /** Type in the low four bits of the first byte, then the verify and the gzip bit; the command; for a
      request its id and timeout, for a response its id and status; in version 2 the length of the
      metadata; the length of the body. Numbers are big-endian. */
  lemma HeaderLayout(v: Version, h: Header)
    requires 1 <= h.typ <= 3 && h.verify < 2 && h.gzip < 2 && h.reserve < 4 && h.bodyLength < 0x100_0000
    ensures var b := HeaderBytes(v, h);
            var n := (if h.typ == 1 then 11 else if h.typ == 2 then 10 else 5) + if v == V2 then 2 else 0;
            && |b| == n
            && b[0] == h.typ + 16 * h.verify + 32 * h.gzip + 64 * h.reserve && b[1] == h.cmdCode
            && (h.typ != 3 ==> Value(b[2..6]) == h.requestId)
            && (h.typ == 1 ==> Value(b[6..8]) == h.timeout)
            && (h.typ == 2 ==> b[6] == h.status)
            && (v == V2 ==> Value(b[n - 5..n - 3]) == h.metadataLength)
            && Value(b[n - 3..]) == h.bodyLength
  {
    hide Value, Ids, Lengths;
    var b, ids, ls := HeaderBytes(v, h), Ids(h), Lengths(v, h);
    IdsLayout(h);
    LengthsLayout(v, h);
    var n, i := |b|, |ids|;
    assert b[2..2 + i] == ids && b[2 + i..] == ls;
    if h.typ != 3 {
      assert b[2..6] == ids[..4];
    }
    if h.typ == 1 {
      assert b[6..8] == ids[4..6];
    }
    if v == V2 {
      assert b[n - 5..n - 3] == ls[..2];
    }
    assert b[n - 3..] == ls[if v == V2 then 2 else 0..];
  }

  // ------------------------------------------------------------ what is accepted

  /** The body that goes on the wire, if compressing it does not fail. */
  function WireBody(z: Gzip, p: Packet, min: int): Option<Str> {
    if min != 0 && |p.body| >= min then z.compress(p.body) else Some(p.body)
  }

  /** The encoder refuses a packet for three reasons only, in this order: its body cannot be
      compressed, the body on the wire has 2^24 bytes or more, it is no request, response or push. */
  lemma PackAccepts(cfg: Config, p: Packet, min: int, order: seq<Str>, corrected: bool)
    requires forall i :: 0 <= i < |order| ==> order[i] in p.values
    ensures var r, b := PackFrame(cfg, p, min, order, corrected), WireBody(cfg.gzip, p, min);
            if b.None? then r == Err(GzipFailure)
            else if |b.value| >= 0x100_0000 then r == Err(BodyLenHitLimit)
            else if p.typ == Untyped then r == Err(UnknownPacket)
            else r.Ok?
  {
    hide HeaderBytes, Lay, Section;
  }

  /** The frame of an accepted packet is as long as its parts: header, metadata, body and 24 bytes of
      trailer if it is verified. */
  lemma FrameSize(cfg: Config, p: Packet, min: int, order: seq<Str>, corrected: bool)
    requires forall i :: 0 <= i < |order| ==> order[i] in p.values
    requires PackFrame(cfg, p, min, order, corrected).Ok?
    ensures |PackFrame(cfg, p, min, order, corrected).value|
         == (if p.typ == Request then 11 else if p.typ == Response then 10 else 5)
            + (if cfg.version == V2 then 2 else 0)
            + |Section(cfg.version, p, order)| + |WireBody(cfg.gzip, p, min).value| + (if p.verify then 24 else 0)
  {
    hide HeaderBytes, Section;
    var q := Squeeze(cfg.gzip, p, min).value;
    var md := Section(cfg.version, p, order);
    assert Section(cfg.version, q, order) == md by { SameSection(cfg.version, p, q, order); }
    HeaderBytesLength(cfg.version, HeaderOf(q, |md| % 0x1_0000, |q.body| % 0x1_0000_0000));
  }

  lemma SameSection(v: Version, p: Packet, q: Packet, order: seq<Str>)
    requires p.values == q.values && forall i :: 0 <= i < |order| ==> order[i] in p.values
    ensures Section(v, p, order) == Section(v, q, order)
  {
  }

  // ------------------------------------------------------------------- metadata

  /** A string of up to 127 bytes has one byte of length in front, one of up to 32767 two, of which the
      first has its top bit set; longer ones cannot be carried. */
  lemma StringFormat(s: Str)
    ensures match MarshalString(s)
            case Some(d) =>
              && |s| <= 32767
              && (if |s| <= 127 then d[0] == |s| && d[1..] == s else Value(d[..2]) == 32768 + |s| && d[2..] == s)
            case None => |s| > 32767
  {
    if 127 < |s| <= 32767 {
      var d := MarshalString(s).value;
      WideValue(d);
      assert d[2..] == s;
    }
  }

  function StringSize(s: Str): nat {
    |s| + if |s| <= 127 then 1 else 2
  }

  predicate CanCarry(k: Str, v: Str) {
    k != [] && |k| <= 32767 && |v| <= 32767
  }

  /** The bytes that all entries that can be carried take together. */
  function CarriedSize(m: map<Str, Str>, order: seq<Str>): nat
    requires forall i :: 0 <= i < |order| ==> order[i] in m
  {
    if order == [] then 0
    else
      var k, v := order[0], m[order[0]];
      (if CanCarry(k, v) then StringSize(k) + StringSize(v) else 0) + CarriedSize(m, order[1..])
  }

  lemma {:induction false} TotalIsCarried(m: map<Str, Str>, order: seq<Str>)
    requires forall i :: 0 <= i < |order| ==> order[i] in m
    ensures TotalSize(m, order) == CarriedSize(m, order)
  {
    if order == [] {
      EncodeNothing();
    } else {
      var k, v := order[0], m[order[0]];
      TotalIsCarried(m, order[1..]);
      if Admissible(k, v) {
        EncodeCons(Pair(k, v), AllPairs(m, order[1..]));
        assert AllPairs(m, order) == [Pair(k, v)] + AllPairs(m, order[1..]);
      } else {
        assert AllPairs(m, order) == AllPairs(m, order[1..]);
      }
    }
  }

  /** The metadata section of a version 2 frame has at most 65535 bytes. What is decoded from it are
      entries of the packet with a key that is not empty and strings of at most 32767 bytes, and it
      is all of those exactly when together they take at most 65535 bytes. */
  lemma MetadataCarried(p: Packet, order: seq<Str>)
    requires IsOrder(order, p.values) && LowerKeys(p.values)
    ensures |Section(V2, p, order)| <= 65535 && UnmarshalValues(Section(V2, p, order)).Some?
    ensures var back := UnmarshalValues(Section(V2, p, order)).value;
            && (forall k :: k in back ==> k in p.values && back[k] == p.values[k] && CanCarry(k, p.values[k]))
            && ((forall k :: k in p.values && CanCarry(k, p.values[k]) ==> k in back)
                <==> CarriedSize(p.values, order) <= 65535)
  {
    hide Lower, UnmarshalValues, MarshalValues, TotalSize, CarriedSize;
    ValuesRoundTrip(p.values, order, 65535);
    TotalIsCarried(p.values, order);
    var back, all := UnmarshalValues(Section(V2, p, order)).value, Carriable(p.values);
    assert forall k :: k in all <==> k in p.values && CanCarry(k, p.values[k]);
    if forall k :: k in p.values && CanCarry(k, p.values[k]) ==> k in back {
      assert back == all;
    }
  }
}
