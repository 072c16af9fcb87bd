/** Version 2 frames that carry both metadata and a trailer. Pack writes nonce and signature
    `|md|` bytes too early; this module settles exactly which packets survive that. */
module V2Trailer {
  import opened Bytes
  import opened Frame
  import opened Packing
  import opened Metadata

  // --------------------------------------------------- counting non-zero bytes

  function NonZero(s: Str): nat {
    if s == [] then 0 else (if s[0] == 0 then 0 else 1) + NonZero(s[1..])
  }

  lemma {:induction false} NonZeroConcat(a: Str, b: Str)
    ensures NonZero(a + b) == NonZero(a) + NonZero(b)
  {
    if a == [] {
      assert a + b == b;
    } else {
      NonZeroConcat(a[1..], b);
      assert (a + b)[1..] == a[1..] + b;
    }
  }

  /** `b` is `a` with some bytes cleared. */
  ghost predicate Cleared(a: Str, b: Str) {
    |a| == |b| && forall i :: 0 <= i < |a| ==> b[i] == a[i] || b[i] == 0
  }

  lemma {:induction false} ClearingLoses(a: Str, b: Str)
    requires Cleared(a, b)
    ensures NonZero(b) <= NonZero(a)
    ensures NonZero(b) == NonZero(a) ==> a == b
  {
    if a != [] {
      assert forall i :: 0 <= i < |a| - 1 ==> a[1..][i] == a[i + 1] && b[1..][i] == b[i + 1];
      ClearingLoses(a[1..], b[1..]);
      assert a == [a[0]] + a[1..] && b == [b[0]] + b[1..];
    }
  }

  lemma {:induction false} NonZeroLower(s: Str)
    ensures NonZero(Lower(s)) == NonZero(s)
  {
    if s != [] {
      NonZeroLower(s[1..]);
      assert Lower(s)[1..] == Lower(s[1..]);
    }
  }

  lemma EncodeLowerWeight(s: Str)
    requires Fits(s)
    ensures Fits(Lower(s)) && NonZero(Encode(Lower(s))) == NonZero(Encode(s))
  {
    hide Lower, NonZero;
    NonZeroLower(s);
    var n := |Encode(s)| - |s|;
    var prefix := Encode(s)[..n];
    assert Encode(s) == prefix + s && Encode(Lower(s)) == prefix + Lower(s);
    NonZeroConcat(prefix, s);
    NonZeroConcat(prefix, Lower(s));
  }

  lemma {:induction false} EncodeConcat(ps: seq<Pair>, qs: seq<Pair>)
    requires Encodable(ps) && Encodable(qs)
    ensures Encodable(ps + qs) && EncodePairs(ps + qs) == EncodePairs(ps) + EncodePairs(qs)
  {
    hide EncodePair;
    if ps == [] {
      assert ps + qs == qs;
    } else {
      EncodeConcat(ps[1..], qs);
      assert (ps + qs)[1..] == ps[1..] + qs;
    }
  }

  function Weight(ps: seq<Pair>): nat
    requires Encodable(ps)
  {
    NonZero(EncodePairs(ps))
  }

  lemma WeightConcat(ps: seq<Pair>, qs: seq<Pair>)
    requires Encodable(ps) && Encodable(qs)
    ensures Encodable(ps + qs) && Weight(ps + qs) == Weight(ps) + Weight(qs)
  {
    EncodeConcat(ps, qs);
    NonZeroConcat(EncodePairs(ps), EncodePairs(qs));
  }

  lemma WeightOfFolded(p: Pair, q: Pair)
    requires Fits(q.key) && Fits(q.val) && p == Pair(Lower(q.key), q.val)
    ensures Encodable([p]) && Weight([p]) == Weight([q])
  {
    hide Encode, NonZero, Lower;
    EncodeLowerWeight(q.key);
    assert [p][1..] == [] && [q][1..] == [];
    assert EncodePairs([p]) == Encode(p.key) + Encode(p.val);
    assert EncodePairs([q]) == Encode(q.key) + Encode(q.val);
    NonZeroConcat(Encode(p.key), Encode(p.val));
    NonZeroConcat(Encode(q.key), Encode(q.val));
  }

  lemma WeightWithout(ps: seq<Pair>, i: nat)
    requires i < |ps| && Encodable(ps)
    ensures Encodable(ps[..i] + ps[i + 1..]) && Encodable([ps[i]])
    ensures Weight(ps) == Weight(ps[..i] + ps[i + 1..]) + Weight([ps[i]])
  {
    hide Weight;
    assert ps == ps[..i] + [ps[i]] + ps[i + 1..];
    WeightConcat(ps[..i], [ps[i]]);
    WeightConcat(ps[..i] + [ps[i]], ps[i + 1..]);
    WeightConcat(ps[..i], ps[i + 1..]);
  }

  /** A list whose map covers the distinct entries `ps` encodes to at least as many non-zero bytes. */
  lemma {:induction false} CoverWeight(ps: seq<Pair>, qs: seq<Pair>)
    requires Encodable(ps) && Encodable(qs) && DistinctKeys(ps)
    requires forall i :: 0 <= i < |ps| ==> ps[i].key in ToMap(qs) && ToMap(qs)[ps[i].key] == ps[i].val
    ensures Weight(ps) <= Weight(qs)
    decreases |qs|
  {
    hide EncodePairs, Lower, NonZero, Weight;
    if qs == [] {
      assert ps == [] by { assert |ps| > 0 ==> ps[0].key in ToMap(qs); }
    } else {
      var n := |qs| - 1;
      var q, k := qs[n], Lower(qs[n].key);
      assert qs == qs[..n] + [q];
      WeightConcat(qs[..n], [q]);
      if i :| 0 <= i < |ps| && ps[i].key == k {
        var rest := ps[..i] + ps[i + 1..];
        WeightWithout(ps, i);
        WeightOfFolded(ps[i], q);
        assert forall j :: 0 <= j < |rest| ==> rest[j] == (if j < i then ps[j] else ps[j + 1]);
        CoverWeight(rest, qs[..n]);
      } else {
        CoverWeight(ps, qs[..n]);
      }
    }
  }

  /** Clearing bytes of an encoded metadata section cannot leave the decoded map unchanged. */
  lemma ClearedSectionDiffers(ps: seq<Pair>, md': Str)
    requires Encodable(ps) && DistinctKeys(ps)
    requires forall i :: 0 <= i < |ps| ==> Lower(ps[i].key) == ps[i].key
    requires Cleared(EncodePairs(ps), md') && UnmarshalValues(md') == Some(ToMap(ps))
    ensures md' == EncodePairs(ps)
  {
    hide EncodePairs, Lower, NonZero, ToMap, ParsePairs;
    var qs := ParsePairs(md').value;
    Canonical(md', qs);
    ToMapOfDistinct(ps);
    forall i | 0 <= i < |ps| ensures ps[i].key in ToMap(qs) && ToMap(qs)[ps[i].key] == ps[i].val {
      assert Pair(ps[i].key, ps[i].val) == ps[i] && ps[i] in ps;
    }
    CoverWeight(ps, qs);
    ClearingLoses(EncodePairs(ps), md');
  }

  // ------------------------------------------------------ the misplaced trailer

  /** Nonce and signature as they are to be written. */
  function NonceThenSignature(p: Packet): Str {
    BigEndian(8, p.nonce) + p.signature
  }

  /** As much of them as there is room for: the frame ends `m` bytes behind the place where a trailer
      that starts there would end. */
  function Written(p: Packet, m: nat): Str {
    if |p.signature| <= SIGNATURE_LENGTH + m then NonceThenSignature(p) else NonceThenSignature(p)[..TRAILER_LENGTH + m]
  }

  /** The sections with the trailer written at the end of `|body|` bytes instead of behind them. */
  function Misplaced(p: Packet, md: Str): (r: Str)
    ensures |r| == |md| + |p.body| + TRAILER_LENGTH
  {
    var s, w := md + p.body + Zeros(TRAILER_LENGTH), Written(p, |md|);
    s[..|p.body|] + w + s[|p.body| + |w|..]
  }

  lemma LayMisplaced(p: Packet, hd: Str, md: Str)
    requires p.verify
    ensures Lay(p, hd, md, |hd| + |p.body|) == hd + Misplaced(p, md)
  {
    hide BigEndian, Overlay;
    var b := |p.body|;
    var s := md + p.body + Zeros(TRAILER_LENGTH);
    var n := BigEndian(8, p.nonce);
    var g := if |p.signature| <= SIGNATURE_LENGTH + |md| then p.signature else p.signature[..SIGNATURE_LENGTH + |md|];
    assert hd + md + p.body + Zeros(TRAILER_LENGTH) == hd + s;
    OverlayBehind(hd, s, b, n);
    var one := s[..b] + n + s[b + 8..];
    OverlayRoom(hd + one, |hd| + b + 8, p.signature, SIGNATURE_LENGTH + |md|);
    OverlayBehind(hd, one, b + 8, g);
    assert one[..b + 8] == s[..b] + n;
    assert one[b + 8 + |g|..] == s[b + 8 + |g|..];
    assert n + g == Written(p, |md|);
    assert s[..b] + n + g == s[..b] + (n + g);
  }

  lemma OverlayRoom(base: Str, at: nat, src: Str, room: nat)
    requires at + room == |base|
    ensures Overlay(base, at, src) == Overlay(base, at, if |src| <= room then src else src[..room])
  {
    if |src| > room {
      assert src[..room][..room] == src[..room];
    }
  }

  lemma OverlayBehind(hd: Str, s: Str, at: nat, src: Str)
    requires at + |src| <= |s|
    ensures Overlay(hd + s, |hd| + at, src) == hd + (s[..at] + src + s[at + |src|..])
  {
    assert (hd + s)[..|hd| + at] == hd + s[..at];
    assert (hd + s)[|hd| + at + |src|..] == s[at + |src|..];
    assert src[..|src|] == src;
  }

  /** The trailer the decoder finds: the real one moved `m` places up, zeros behind it. */
  function Shifted(t: Str, m: nat): (r: Str)
    ensures |r| == |t|
  {
    seq(|t|, j requires 0 <= j < |t| => if m + j < |t| then t[m + j] else 0)
  }

  /** Only the all-zero trailer is not changed by the shift. */
  lemma {:induction false} ShiftChanges(t: Str, m: nat, j: nat)
    requires m > 0 && Shifted(t, m) == t && j < |t|
    ensures t[j] == 0
    decreases |t| - j
  {
    if m + j < |t| {
      assert t[j] == Shifted(t, m)[j] == t[m + j];
      ShiftChanges(t, m, m + j);
    } else {
      assert t[j] == Shifted(t, m)[j];
    }
  }

  ghost predicate AllZero(s: Str) {
    forall i :: 0 <= i < |s| ==> s[i] == 0
  }

  /** The bytes of metadata and body that the misplaced trailer overwrites. */
  function Clobbered(p: Packet, md: Str): Str {
    var n := if |Written(p, |md|)| <= |md| then |Written(p, |md|)| else |md|;
    (md + p.body)[|p.body|..|p.body| + n]
  }

  /** Byte `i` of the sections as written: from the trailer inside its window, else as laid out. */
  lemma MisplacedAt(p: Packet, md: Str, i: nat)
    requires p.verify && |p.signature| <= SIGNATURE_LENGTH && i < |Misplaced(p, md)|
    ensures var b := |p.body|;
            Misplaced(p, md)[i]
            == if b <= i < b + |Written(p, |md|)| then Trailer(p)[i - b]
               else if i < |md| + b then (md + p.body)[i] else 0
  {
    hide BigEndian;
    assert forall k :: 0 <= k < |Written(p, |md|)| ==> Written(p, |md|)[k] == Trailer(p)[k];
  }

  /** The frame is right exactly when there was nothing but zeros to write and to overwrite. */
  lemma MisplacedIsRight(p: Packet, md: Str)
    requires p.verify && |p.signature| <= SIGNATURE_LENGTH && md != []
    ensures Misplaced(p, md) == md + p.body + Trailer(p)
            <==> AllZero(Trailer(p)) && AllZero(Clobbered(p, md))
  {
    hide BigEndian, Misplaced, Trailer, Clobbered;
    if Misplaced(p, md) == md + p.body + Trailer(p) {
      RightIsZero(p, md);
    }
    if AllZero(Trailer(p)) && AllZero(Clobbered(p, md)) {
      ZeroIsRight(p, md);
    }
  }

  lemma RightIsZero(p: Packet, md: Str)
    requires p.verify && |p.signature| <= SIGNATURE_LENGTH && md != []
    requires Misplaced(p, md) == md + p.body + Trailer(p)
    ensures AllZero(Trailer(p)) && AllZero(Clobbered(p, md))
  {
    hide BigEndian, Misplaced, Trailer;
    var t, b := Trailer(p), |p.body|;
    TrailerLength(p);
    assert (md + p.body + t)[|md| + b..] == t;
    TrailerRepeats(p, md);
    ShortRepeats(p, |md|);
    forall i | 0 <= i < |Clobbered(p, md)| ensures Clobbered(p, md)[i] == 0 {
      MisplacedAt(p, md, b + i);
    }
  }

  lemma ZeroIsRight(p: Packet, md: Str)
    requires p.verify && |p.signature| <= SIGNATURE_LENGTH && md != []
    requires AllZero(Trailer(p)) && AllZero(Clobbered(p, md))
    ensures Misplaced(p, md) == md + p.body + Trailer(p)
  {
    hide BigEndian, Misplaced, Trailer;
    var t, b := Trailer(p), |p.body|;
    var s := md + p.body;
    TrailerLength(p);
    forall i | 0 <= i < |s + t| ensures Misplaced(p, md)[i] == (s + t)[i] {
      MisplacedAt(p, md, i);
      if b <= i < b + |Written(p, |md|)| && i < |s| {
        assert Clobbered(p, md)[i - b] == s[i];
      }
    }
  }

  lemma {:induction false} BigEndianOfValue(s: Str)
    ensures BigEndian(|s|, Value(s)) == s
  {
    if s != [] {
      BigEndianOfValue(s[..|s| - 1]);
    }
  }

  /** The body as the receiver reads it. */
  function Plain(cfg: Config, gzip: bool, body: Str): Option<Str> {
    if gzip then cfg.gzip.decompress(body) else Some(body)
  }

  /** The fields that do not depend on the sections. */
  predicate SameHead(cfg: Config, p: Packet, r: Packet) {
    && r.typ == p.typ && r.codec == cfg.codec && r.cmdCode == p.cmdCode % 256
    && r.timeout == (if p.typ == Request then p.timeout else 0)
    && r.requestId == (if p.typ == Push then 0 else p.requestId)
    && r.status == (if p.typ == Response then p.status else 0)
    && r.verify == p.verify && r.gzip == p.gzip
  }

  /** Decoding the frame as written, section by section. */
  lemma MisplacedDecodes(cfg: Config, p: Packet, md: Str, x: Str)
    requires cfg.version == V2 && p.verify && p.typ != Untyped
    requires |p.body| <= MAX_BODY_LENGTH && |md| <= MAX_METADATA_LENGTH
    ensures var w, m, e := Misplaced(p, md), |md|, |md| + |p.body|;
            var o := Unpack(cfg, FRESH, HeaderBytes(V2, HeaderOf(p, |md|, |p.body|)) + w + x);
            && (o.Decoded? <==> UnmarshalValues(w[..m]).Some? && Plain(cfg, p.gzip, w[m..e]).Some?)
            && (o.Decoded? ==>
                  && o.rest == x && SameHead(cfg, p, o.packet)
                  && UnmarshalValues(w[..m]) == Some(o.packet.values)
                  && Plain(cfg, p.gzip, w[m..e]) == Some(o.packet.body)
                  && |o.packet.signature| == SIGNATURE_LENGTH
                  && BigEndian(8, o.packet.nonce) + o.packet.signature == w[e..])
  {
    hide BigEndian, UnmarshalValues, HeaderBytes, Unpack, ReadRest, UnpackSections, Misplaced;
    var h := Carried(HeaderOf(p, |md|, |p.body|));
    CarriedBytes(V2, HeaderOf(p, |md|, |p.body|));
    var hd := HeaderBytes(V2, h);
    var w := Misplaced(p, md);
    var m, e := |md|, |md| + |p.body|;
    assert w + x == w[..m] + w[m..e] + w[e..] + x;
    assert hd + w + x == hd + (w + x);
    HeaderThenSections(cfg, h, w + x);
    SectionsAt(cfg, h.(begun := true, unpacked := true), w[..m], w[m..e], w[e..], x);
    BigEndianOfValue(w[e..][..8]);
    assert w[e..] == w[e..][..8] + w[e..][8..];
  }

  // --------------------------------------------------------- the exact condition

  function ByteAt(s: Str, i: nat): byte {
    if i < |s| then s[i] else 0
  }

  /** Nonce and signature, continued with zeros, repeat after `m` bytes. */
  ghost predicate Repeats(p: Packet, m: nat) {
    forall j :: 0 <= j < TRAILER_LENGTH ==> RepeatsAt(p, m, j)
  }

  predicate RepeatsAt(p: Packet, m: nat, j: nat) {
    ByteAt(NonceThenSignature(p), m + j) == ByteAt(NonceThenSignature(p), j)
  }

  /** Byte `j` of the trailer as found, and as it should be. */
  lemma TrailerBytes(p: Packet, md: Str, j: nat)
    requires p.verify && j < TRAILER_LENGTH
    ensures |Misplaced(p, md)[|md| + |p.body|..]| == TRAILER_LENGTH == |Trailer(p)|
    ensures Misplaced(p, md)[|md| + |p.body|..][j] == ByteAt(NonceThenSignature(p), |md| + j)
    ensures Trailer(p)[j] == ByteAt(NonceThenSignature(p), j)
  {
    hide BigEndian;
    assert Misplaced(p, md)[|md| + |p.body|..][j] == Misplaced(p, md)[|md| + |p.body| + j];
  }

  lemma TrailerRepeats(p: Packet, md: Str)
    requires p.verify
    ensures Misplaced(p, md)[|md| + |p.body|..] == Trailer(p) <==> Repeats(p, |md|)
  {
    hide BigEndian, Misplaced, Trailer, NonceThenSignature, ByteAt;
    var t := Misplaced(p, md)[|md| + |p.body|..];
    TrailerLength(p);
    forall j | 0 <= j < TRAILER_LENGTH ensures t[j] == Trailer(p)[j] <==> RepeatsAt(p, |md|, j) {
      TrailerBytes(p, md, j);
    }
    if Repeats(p, |md|) {
      forall j | 0 <= j < TRAILER_LENGTH ensures t[j] == Trailer(p)[j] {
        assert RepeatsAt(p, |md|, j);
      }
      assert t == Trailer(p);
    }
  }

  /** Signatures of up to 16 bytes: only zeros repeat. */
  lemma ShortRepeats(p: Packet, m: nat)
    requires p.verify && |p.signature| <= SIGNATURE_LENGTH && m > 0
    ensures Repeats(p, m) <==> AllZero(Trailer(p))
  {
    hide BigEndian, Trailer, NonceThenSignature, ByteAt;
    var t := Trailer(p);
    TrailerLength(p);
    forall j | 0 <= j < TRAILER_LENGTH ensures RepeatsAt(p, m, j) <==> Shifted(t, m)[j] == t[j] {
      ShortBytes(p, j);
      ShortBytes(p, m + j);
    }
    if Repeats(p, m) {
      forall j | 0 <= j < |t| ensures Shifted(t, m)[j] == t[j] {
        assert RepeatsAt(p, m, j);
      }
      assert Shifted(t, m) == t;
      forall j | 0 <= j < |t| ensures t[j] == 0 {
        ShiftChanges(t, m, j);
      }
    }
  }

  lemma ShortBytes(p: Packet, j: nat)
    requires p.verify && |p.signature| <= SIGNATURE_LENGTH
    ensures |Trailer(p)| == TRAILER_LENGTH
    ensures ByteAt(NonceThenSignature(p), j) == if j < TRAILER_LENGTH then Trailer(p)[j] else 0
  {
    hide BigEndian;
  }

  /** Pack as written gives a frame that decodes to the packet exactly when: there is no trailer or no
      metadata, and a body marked as compressed is; or the trailer repeats with the length of the
      metadata, and metadata and body as overwritten still mean what they meant. No limit on the
      signature, compressed or not. */
  lemma V2RoundTripExactly(cfg: Config, p: Packet, min: int, order: seq<Str>, x: Str)
    requires cfg.version == V2 && Inverse(cfg.gzip)
    requires forall i :: 0 <= i < |order| ==> order[i] in p.values
    requires PackFrame(cfg, p, min, order, false).Ok?
    ensures var q, md := Squeeze(cfg.gzip, p, min).value, Section(V2, p, order);
            var w, m, e := Misplaced(q, md), |md|, |md| + |q.body|;
            Unpack(cfg, FRESH, PackFrame(cfg, p, min, order, false).value + x)
            == Decoded(Received(cfg, p, min, order), x)
            <==> if !p.verify || md == [] then Plain(cfg, q.gzip, q.body) == Some(p.body)
                 else && Repeats(p, m)
                      && UnmarshalValues(w[..m]) == UnmarshalValues(md)
                      && Plain(cfg, q.gzip, w[m..e]) == Some(p.body)
  {
    hide HeaderBytes, Unpack, MarshalValues, UnmarshalValues, Taken, Misplaced, BigEndian, ToMap, BuildFrame, Trailer;
    hide Repeats;
    var q, md := Squeeze(cfg.gzip, p, min).value, Section(V2, p, order);
    if !p.verify || md == [] {
      PackRoundTrip(cfg, p, min, order, false, x);
    } else {
      FrameMisplaced(cfg, p, min, order);
      MisplacedDecodes(cfg, q, md, x);
      TrailerRepeats(q, md);
      assert Repeats(p, |md|) == Repeats(q, |md|) by { SameTrailer(p, q, |md|); }
      SectionParses(V2, p, order);
      var w, m, e := Misplaced(q, md), |md|, |md| + |q.body|;
      var o := Unpack(cfg, FRESH, HeaderBytes(V2, HeaderOf(q, |md|, |q.body|)) + w + x);
      if o.Decoded? {
        TrailerReads(q, o.packet, w[e..]);
      }
    }
  }

  lemma SameTrailer(p: Packet, q: Packet, m: nat)
    requires q.nonce == p.nonce && q.signature == p.signature
    ensures Repeats(p, m) == Repeats(q, m)
  {
    assert forall j: nat :: RepeatsAt(p, m, j) == RepeatsAt(q, m, j);
  }

  /** The trailer bytes are those of the packet exactly when nonce and signature are. */
  lemma TrailerReads(p: Packet, r: Packet, t: Str)
    requires p.verify && |r.signature| == SIGNATURE_LENGTH && BigEndian(8, r.nonce) + r.signature == t
    ensures t == Trailer(p) <==> r.nonce == p.nonce && r.signature == Signature16(p.signature)
  {
    hide BigEndian;
    ValueOf(8, r.nonce);
    ValueOf(8, p.nonce);
    if t == Trailer(p) {
      assert t[..8] == BigEndian(8, r.nonce) && t[8..] == r.signature;
      assert Trailer(p)[..8] == BigEndian(8, p.nonce) && Trailer(p)[8..] == Signature16(p.signature);
    }
  }

  /** With a signature of at most 16 bytes and a body that is not compressed, that leaves: no trailer,
      or no metadata, or nonce, signature and every byte they overwrite are zero. */
  lemma V2RoundTripIff(cfg: Config, p: Packet, min: int, order: seq<Str>, x: Str)
    requires cfg.version == V2 && IsOrder(order, p.values) && LowerKeys(p.values)
    requires !p.gzip && !Compresses(p, min) && |p.signature| <= SIGNATURE_LENGTH && Inverse(cfg.gzip)
    requires PackFrame(cfg, p, min, order, false).Ok?
    ensures var md := Section(V2, p, order);
            Unpack(cfg, FRESH, PackFrame(cfg, p, min, order, false).value + x)
            == Decoded(Received(cfg, p, min, order), x)
            <==> !p.verify || md == [] || (AllZero(Trailer(p)) && AllZero(Clobbered(p, md)))
  {
    hide HeaderBytes, Unpack, MarshalValues, UnmarshalValues, Taken, Misplaced, BigEndian, ToMap, Lower;
    hide BuildFrame, Trailer, Clobbered;
    var md := Section(V2, p, order);
    if !p.verify || md == [] {
      PackRoundTrip(cfg, p, min, order, false, x);
    } else {
      FrameMisplaced(cfg, p, min, order);
      MisplacedIsRight(p, md);
      var hd := HeaderBytes(V2, HeaderOf(p, |md|, |p.body|));
      if AllZero(Trailer(p)) && AllZero(Clobbered(p, md)) {
        FrameInOrder(cfg, p, min, order, true);
        PackRoundTrip(cfg, p, min, order, true, x);
        assert hd + (md + p.body + Trailer(p)) == hd + md + p.body + Trailer(p);
      }
      if Unpack(cfg, FRESH, hd + Misplaced(p, md) + x) == Decoded(Received(cfg, p, min, order), x) {
        assert Received(cfg, p, min, order) == Received(cfg, p, 0, order);
        OnlyIfRight(cfg, p, order, x);
      }
    }
  }

  /** The frame as written when a trailer and metadata meet, of the packet as compressed. */
  lemma FrameMisplaced(cfg: Config, p: Packet, min: int, order: seq<Str>)
    requires forall i :: 0 <= i < |order| ==> order[i] in p.values
    requires cfg.version == V2 && p.verify
    requires PackFrame(cfg, p, min, order, false).Ok?
    ensures var q, md := Squeeze(cfg.gzip, p, min).value, Section(V2, p, order);
            && q.typ != Untyped && |q.body| <= MAX_BODY_LENGTH && |md| <= MAX_METADATA_LENGTH
            && PackFrame(cfg, p, min, order, false).value
               == HeaderBytes(V2, HeaderOf(q, |md|, |q.body|)) + Misplaced(q, md)
    ensures PackFrame(cfg, p, min, order, true).Ok?
  {
    hide HeaderBytes, Lay, MarshalValues, Misplaced;
    var q, md := Squeeze(cfg.gzip, p, min).value, Section(V2, p, order);
    assert Section(V2, q, order) == md;
    NoLengthTruncates(cfg, p, min, order);
    LayMisplaced(q, HeaderBytes(V2, HeaderOf(q, |md|, |q.body|)), md);
  }

  /** Compressed or not, and whatever the length of the signature: nonce and signature survive
      exactly when they repeat with the length of the metadata. */
  lemma TrailerLost(cfg: Config, p: Packet, min: int, order: seq<Str>, x: Str)
    requires forall i :: 0 <= i < |order| ==> order[i] in p.values
    requires cfg.version == V2 && p.verify
    requires PackFrame(cfg, p, min, order, false).Ok? && Section(V2, p, order) != []
    ensures match Unpack(cfg, FRESH, PackFrame(cfg, p, min, order, false).value + x)
            case Decoded(r, _) =>
              r.nonce == p.nonce && r.signature == Signature16(p.signature)
              <==> Repeats(p, |Section(V2, p, order)|)
            case _ => true
  {
    hide HeaderBytes, Unpack, MarshalValues, UnmarshalValues, Misplaced, BigEndian, BuildFrame, Trailer, Repeats;
    var q, md := Squeeze(cfg.gzip, p, min).value, Section(V2, p, order);
    FrameMisplaced(cfg, p, min, order);
    MisplacedDecodes(cfg, q, md, x);
    TrailerRepeats(q, md);
    SameTrailer(p, q, |md|);
    var w := Misplaced(q, md);
    var o := Unpack(cfg, FRESH, HeaderBytes(V2, HeaderOf(q, |md|, |q.body|)) + w + x);
    if o.Decoded? {
      TrailerReads(q, o.packet, w[|md| + |q.body|..]);
    }
  }

  /** A request that carries one metadata entry and nonce 1 does not survive. */
  lemma VerifiedMetadataBreaks(cfg: Config)
    requires cfg.version == V2 && Inverse(cfg.gzip)
    ensures var p := Packet(Request, cfg.codec, 0, 7, 1, 0, true, false, 1, Zeros(16), map[[107] := [118]], [1, 2, 3]);
            var f := PackFrame(cfg, p, 0, [[107]], false);
            f.Ok? && Unpack(cfg, FRESH, f.value) != Decoded(Received(cfg, p, 0, [[107]]), [])
  {
    hide Unpack, HeaderBytes, Received;
    var p := Packet(Request, cfg.codec, 0, 7, 1, 0, true, false, 1, Zeros(16), map[[107] := [118]], [1, 2, 3]);
    var k: Str := [107];
    assert Lower(k) == k;
    assert Taken(p.values, [k], MAX_METADATA_LENGTH, 0)[0] == Pair(k, [118]);
    assert Section(V2, p, [k]) != [];
    var f := PackFrame(cfg, p, 0, [k], false);
    V2RoundTripIff(cfg, p, 0, [k], []);
    assert f.value + [] == f.value;
    assert BigEndian(8, 1)[7] == 1;
    assert Trailer(p)[7] == 1;
  }

  /** If the frame as written decodes to the packet, its bytes are those of the right frame. */
  lemma OnlyIfRight(cfg: Config, p: Packet, order: seq<Str>, x: Str)
    requires cfg.version == V2 && IsOrder(order, p.values) && LowerKeys(p.values)
    requires !p.gzip && |p.signature| <= SIGNATURE_LENGTH && p.verify && p.typ != Untyped
    requires |p.body| <= MAX_BODY_LENGTH && |Section(V2, p, order)| <= MAX_METADATA_LENGTH
    requires var md := Section(V2, p, order);
             && md != []
             && Unpack(cfg, FRESH, HeaderBytes(V2, HeaderOf(p, |md|, |p.body|)) + Misplaced(p, md) + x)
                == Decoded(Received(cfg, p, 0, order), x)
    ensures Misplaced(p, Section(V2, p, order)) == Section(V2, p, order) + p.body + Trailer(p)
  {
    hide HeaderBytes, Unpack, BigEndian, ToMap, Lower, EncodePairs, Taken, ParsePairs, Misplaced;
    var md := Section(V2, p, order);
    var w := Misplaced(p, md);
    var m, e := |md|, |md| + |p.body|;
    var ps := Taken(p.values, order, MAX_METADATA_LENGTH, 0);
    MisplacedDecodes(cfg, p, md, x);
    assert w[e..] == Trailer(p);
    TrailerRepeats(p, md);
    ShortRepeats(p, |md|);
    ZeroTrailerClears(p, md);
    TakenLower(p.values, order);
    ClearedSectionDiffers(ps, w[..m]);
    assert w == w[..m] + w[m..e] + w[e..];
  }

  lemma ZeroTrailerClears(p: Packet, md: Str)
    requires p.verify && |p.signature| <= SIGNATURE_LENGTH && AllZero(Trailer(p))
    ensures Cleared(md, Misplaced(p, md)[..|md|])
  {
    hide BigEndian;
    var t, w := Trailer(p), Written(p, |md|);
    assert forall k :: 0 <= k < |w| ==> w[k] == t[k];
  }

  lemma TakenLower(m: map<Str, Str>, order: seq<Str>)
    requires IsOrder(order, m) && LowerKeys(m)
    ensures var ps := Taken(m, order, MAX_METADATA_LENGTH, 0);
            DistinctKeys(ps) && forall i :: 0 <= i < |ps| ==> Lower(ps[i].key) == ps[i].key
  {
    hide Taken, AllPairs, Lower, Admissible, EncodePairs;
    var ps, all := Taken(m, order, MAX_METADATA_LENGTH, 0), AllPairs(m, order);
    TakenPrefix(m, order, MAX_METADATA_LENGTH, 0);
    AllPairsFilter(m, order);
    assert forall i :: 0 <= i < |ps| ==> ps[i] == all[i] && all[i] in all;
  }
}
