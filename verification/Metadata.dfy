/** The key/value section of a version 2 frame: 7/15-bit length-prefixed strings. */
module Metadata {
  import opened Bytes

  const MAX_7BIT := 127
  const MAX_15BIT := 32767

  datatype Pair = Pair(key: Str, val: Str)

  // ---------------------------------------------------------------- strings

  /** ASCII lower-casing, byte by byte. */
  function Lower(s: Str): (r: Str)
    ensures |r| == |s|
  {
    seq(|s|, i requires 0 <= i < |s| => if 65 <= s[i] <= 90 then s[i] + 32 else s[i])
  }

  /** The length prefix at the head of `data` and whether it is the wide, two-byte form. */
  function UnmarshalStringLength(data: Str): Option<(nat, bool)> {
    if data == [] then Some((0, false))
    else if data[0] < 128 then Some((data[0], false))
    else if |data| < 2 then None
    else
      var l := Value(data[..2]) - 0x8000;
      if l <= MAX_7BIT then None else Some((l, true))
  }

  /** Cuts one length-prefixed string off the head of `data`. */
  function GetString(data: Str): (r: Option<(Str, Str)>)
    ensures r.Some? ==> |r.value.1| < |data|
  {
    match UnmarshalStringLength(data)
    case None => None
    case Some((l, wide)) =>
      if !wide then
        if l > |data| - 1 then None else Some((data[1..l + 1], data[l + 1..]))
      else
        if l > |data| - 2 then None else Some((data[2..l + 2], data[l + 2..]))
  }

  /** `None` marks a string too long to carry. */
  function MarshalString(s: Str): Option<Str> {
    if |s| <= MAX_7BIT then Some([|s|] + s)
    else if |s| <= MAX_15BIT then Some([|s| / 256 + 128, |s| % 256] + s)
    else None
  }

  predicate Fits(s: Str) {
    |s| <= MAX_15BIT
  }

  function Encode(s: Str): Str
    requires Fits(s)
  {
    MarshalString(s).value
  }

  lemma WideValue(d: Str)
    requires |d| >= 2
    ensures Value(d[..2]) / 256 == d[0] && Value(d[..2]) % 256 == d[1]
  {
    assert d[..2][..1] == [d[0]];
    assert Value([d[0]]) == d[0] by { assert [d[0]][..0] == []; }
    var hi: int, lo: int := d[0], d[1];
    assert (hi * 256 + lo) / 256 == hi;
  }

  lemma GetAfterEncode(s: Str, t: Str)
    requires Fits(s)
    ensures GetString(Encode(s) + t) == Some((s, t))
  {
    var d := Encode(s) + t;
    if |s| <= MAX_7BIT {
      assert d[1..|s| + 1] == s && d[|s| + 1..] == t;
    } else {
      assert d[..2] == [|s| / 256 + 128, |s| % 256];
      WideValue(d);
      assert d[2..|s| + 2] == s && d[|s| + 2..] == t;
    }
  }

  /** Only the shortest length form is accepted, so what was read is what the encoder writes. */
  lemma EncodeAfterGet(d: Str)
    requires GetString(d).Some?
    ensures var (s, t) := GetString(d).value; Fits(s) && d == Encode(s) + t
  {
    var (s, t) := GetString(d).value;
    var (l, wide) := UnmarshalStringLength(d).value;
    assert |s| == l;
    if wide {
      WideValue(d);
      assert d == [d[0], d[1]] + s + t;
    } else {
      assert d == [d[0]] + s + t;
    }
  }

  // ------------------------------------------------------------- pair lists

  predicate Encodable(ps: seq<Pair>) {
    forall i :: 0 <= i < |ps| ==> Fits(ps[i].key) && Fits(ps[i].val)
  }

  function EncodePair(p: Pair): (r: Str)
    requires Fits(p.key) && Fits(p.val)
    ensures |r| >= 2
  {
    Encode(p.key) + Encode(p.val)
  }

  function EncodePairs(ps: seq<Pair>): Str
    requires Encodable(ps)
  {
    if ps == [] then [] else EncodePair(ps[0]) + EncodePairs(ps[1..])
  }

  function ParsePairs(data: Str): Option<seq<Pair>>
    decreases |data|
  {
    if data == [] then Some([])
    else match GetString(data)
      case None => None
      case Some((k, rest)) =>
        match GetString(rest)
        case None => None
        case Some((v, rest')) =>
          match ParsePairs(rest')
          case None => None
          case Some(ps) => Some([Pair(k, v)] + ps)
  }

  /** Decoding a section that starts with encoded pairs reads exactly those pairs first. */
  lemma {:induction false} ParseAfterEncode(ps: seq<Pair>, rest: Str)
    requires Encodable(ps)
    ensures ParsePairs(EncodePairs(ps) + rest)
         == match ParsePairs(rest) { case None => None case Some(qs) => Some(ps + qs) }
  {
    hide Encode;
    hide GetString;
    if ps == [] {
      assert EncodePairs(ps) + rest == rest;
      assert forall qs: seq<Pair> :: ps + qs == qs;
    } else {
      var tail := EncodePairs(ps[1..]) + rest;
      assert EncodePairs(ps) + rest == Encode(ps[0].key) + (Encode(ps[0].val) + tail);
      GetAfterEncode(ps[0].key, Encode(ps[0].val) + tail);
      GetAfterEncode(ps[0].val, tail);
      ParseAfterEncode(ps[1..], rest);
      assert forall qs: seq<Pair> :: ps + qs == [ps[0]] + (ps[1..] + qs);
      assert Pair(ps[0].key, ps[0].val) == ps[0];
    }
  }

  /** The accepted sections are exactly the concatenations of minimally encoded pairs, and the
      parsed list is the only one that encodes to the section. */
  lemma {:induction false} Canonical(data: Str, ps: seq<Pair>)
    ensures ParsePairs(data) == Some(ps) <==> Encodable(ps) && data == EncodePairs(ps)
    decreases |data|
  {
    hide Encode, GetString;
    if Encodable(ps) && data == EncodePairs(ps) {
      ParseAfterEncode(ps, []);
      assert EncodePairs(ps) + [] == data && ps + [] == ps;
    }
    if ParsePairs(data) == Some(ps) && data != [] {
      var (k, rest) := GetString(data).value;
      var (v, rest') := GetString(rest).value;
      EncodeAfterGet(data);
      EncodeAfterGet(rest);
      Canonical(rest', ps[1..]);
      assert data == Encode(k) + Encode(v) + rest';
    }
  }

  /** A key with no value after it is refused. */
  lemma KeyWithoutValueRefused(ps: seq<Pair>, k: Str)
    requires Encodable(ps) && Fits(k)
    ensures ParsePairs(EncodePairs(ps) + Encode(k)).None?
  {
    ParseAfterEncode(ps, Encode(k));
    GetAfterEncode(k, []);
    assert Encode(k) + [] == Encode(k);
  }

  /** Later pairs win; keys are folded to lower case. */
  function ToMap(ps: seq<Pair>): map<Str, Str> {
    if ps == [] then map[]
    else var n := |ps| - 1; ToMap(ps[..n])[Lower(ps[n].key) := ps[n].val]
  }

  /** What `UnmarshalValues` leaves in `Values`; `None` is ErrInvalidMetadataData. */
  function UnmarshalValues(data: Str): Option<map<Str, Str>> {
    match ParsePairs(data)
    case None => None
    case Some(ps) => Some(ToMap(ps))
  }

  // ------------------------------------------------------------------ case folding

  /** No ASCII capital letter. */
  predicate NoUpper(s: Str) {
    forall i :: 0 <= i < |s| ==> !(65 <= s[i] <= 90)
  }

  /** Equal, or the two cases of one ASCII letter. */
  predicate SameLetter(a: byte, b: byte) {
    a == b || (65 <= a <= 90 && b == a + 32) || (65 <= b <= 90 && a == b + 32)
  }

  predicate SameFold(k: Str, l: Str) {
    |k| == |l| && forall i :: 0 <= i < |k| ==> SameLetter(k[i], l[i])
  }

  /** Folding leaves no capital letter, and changes nothing exactly where there was none. */
  lemma LowerClean(k: Str)
    ensures NoUpper(Lower(k)) && (Lower(k) == k <==> NoUpper(k))
  {
    if Lower(k) == k {
      assert forall i :: 0 <= i < |k| ==> Lower(k)[i] == k[i];
    }
    if NoUpper(k) {
      assert forall i :: 0 <= i < |k| ==> Lower(k)[i] == k[i];
      assert Lower(k) == k;
    }
  }

  /** Two keys land on one entry exactly when they differ in the case of letters only. */
  lemma LowerFolds(k: Str, l: Str)
    ensures Lower(k) == Lower(l) <==> SameFold(k, l)
  {
    if Lower(k) == Lower(l) {
      assert |Lower(k)| == |Lower(l)|;
      forall i | 0 <= i < |k| ensures SameLetter(k[i], l[i]) {
        assert Lower(k)[i] == Lower(l)[i];
      }
    }
    if SameFold(k, l) {
      forall i | 0 <= i < |k| ensures Lower(k)[i] == Lower(l)[i] {
        assert SameLetter(k[i], l[i]);
      }
      assert Lower(k) == Lower(l);
    }
  }

  /** Pair `i` is the last one whose key folds to that of `k`. */
  predicate LastFor(ps: seq<Pair>, k: Str, i: nat) {
    i < |ps| && SameFold(ps[i].key, k) && forall j :: i < j < |ps| ==> !SameFold(ps[j].key, k)
  }

  /** A decoded map has `k` with value `v` exactly when `k` has no capital letter and `v` is the value
      of the last pair whose key differs from `k` in case only. */
  lemma {:induction false} DecodedEntry(ps: seq<Pair>, k: Str, v: Str)
    ensures k in ToMap(ps) && ToMap(ps)[k] == v <==> NoUpper(k) && exists i: nat :: LastFor(ps, k, i) && ps[i].val == v
  {
    hide Lower, SameFold, NoUpper;
    if ps != [] {
      var n := |ps| - 1;
      DecodedEntry(ps[..n], k, v);
      LowerClean(k);
      LowerClean(ps[n].key);
      LowerFolds(ps[n].key, k);
      if SameFold(ps[n].key, k) {
        assert LastFor(ps, k, n);
        assert forall i: nat :: LastFor(ps, k, i) ==> i == n;
      } else {
        assert forall i: nat :: LastFor(ps, k, i) <==> LastFor(ps[..n], k, i);
        assert forall i: nat :: LastFor(ps, k, i) ==> i < n && ps[i] == ps[..n][i];
      }
    }
  }

  lemma DecodedKeys(data: Str)
    ensures UnmarshalValues(data).Some? ==> forall k :: k in UnmarshalValues(data).value ==> NoUpper(k)
  {
    hide ParsePairs, ToMap, NoUpper, LastFor;
    if UnmarshalValues(data).Some? {
      var ps := ParsePairs(data).value;
      forall k | k in ToMap(ps) ensures NoUpper(k) {
        DecodedEntry(ps, k, ToMap(ps)[k]);
      }
    }
  }

  // --------------------------------------------------------------- marshalling

  /** `order` is one way the runtime may enumerate the keys of `m`. */
  ghost predicate IsOrder(order: seq<Str>, m: map<Str, Str>) {
    && (forall i :: 0 <= i < |order| ==> order[i] in m)
    && (forall k :: k in m ==> k in order)
    && (forall i, j :: 0 <= i < j < |order| ==> order[i] != order[j])
  }

  predicate Admissible(k: Str, v: Str) {
    k != [] && Fits(k) && Fits(v)
  }

  /** The entries that can be carried, in enumeration order. */
  function AllPairs(m: map<Str, Str>, order: seq<Str>): (ps: seq<Pair>)
    requires forall i :: 0 <= i < |order| ==> order[i] in m
    ensures Encodable(ps)
  {
    if order == [] then []
    else
      var k, v := order[0], m[order[0]];
      (if Admissible(k, v) then [Pair(k, v)] else []) + AllPairs(m, order[1..])
  }

  /** Entries written when the keys come in `order` and `used` bytes are already taken: entries
      that cannot be carried are skipped, the first one over the cap stops the enumeration. */
  function Taken(m: map<Str, Str>, order: seq<Str>, max: int, used: nat): (ps: seq<Pair>)
    requires forall i :: 0 <= i < |order| ==> order[i] in m
    ensures Encodable(ps)
  {
    if order == [] then []
    else
      var k, v := order[0], m[order[0]];
      if !Admissible(k, v) then Taken(m, order[1..], max, used)
      else
        var size := |EncodePair(Pair(k, v))|;
        if size + used > max then [] else [Pair(k, v)] + Taken(m, order[1..], max, used + size)
  }

  function MarshalValues(m: map<Str, Str>, order: seq<Str>, max: int): Str
    requires forall i :: 0 <= i < |order| ==> order[i] in m
  {
    EncodePairs(Taken(m, order, max, 0))
  }

  /** Encoded size of every entry that can be carried. */
  function TotalSize(m: map<Str, Str>, order: seq<Str>): nat
    requires forall i :: 0 <= i < |order| ==> order[i] in m
  {
    |EncodePairs(AllPairs(m, order))|
  }

  ghost function Carriable(m: map<Str, Str>): map<Str, Str> {
    map k | k in m && Admissible(k, m[k]) :: m[k]
  }

  ghost predicate LowerKeys(m: map<Str, Str>) {
    forall k :: k in m ==> Lower(k) == k
  }

  ghost predicate DistinctKeys(ps: seq<Pair>) {
    forall i, j :: 0 <= i < j < |ps| ==> ps[i].key != ps[j].key
  }

  lemma EncodeCons(p: Pair, ps: seq<Pair>)
    requires Fits(p.key) && Fits(p.val) && Encodable(ps)
    ensures Encodable([p] + ps)
    ensures EncodePairs([p] + ps) == EncodePair(p) + EncodePairs(ps)
  {
    hide Encode;
    assert ([p] + ps)[1..] == ps;
  }

  /** What is written is a prefix of what could be, within the cap, and is all of it exactly when
      all of it fits. */
  lemma {:induction false} TakenPrefix(m: map<Str, Str>, order: seq<Str>, max: int, used: nat)
    requires forall i :: 0 <= i < |order| ==> order[i] in m
    requires used <= max
    ensures Taken(m, order, max, used) <= AllPairs(m, order)
    ensures used + |EncodePairs(Taken(m, order, max, used))| <= max
    ensures Taken(m, order, max, used) == AllPairs(m, order) <==> used + TotalSize(m, order) <= max
  {
    hide EncodePair, EncodePairs;
    if order == [] {
      assert |EncodePairs([])| == 0 by { EncodeNothing(); }
    } else {
      var k, v := order[0], m[order[0]];
      var all := AllPairs(m, order[1..]);
      if !Admissible(k, v) {
        assert AllPairs(m, order) == all;
        TakenPrefix(m, order[1..], max, used);
      } else {
        var p := Pair(k, v);
        var size := |EncodePair(p)|;
        assert AllPairs(m, order) == [p] + all;
        EncodeCons(p, all);
        if size + used > max {
          EncodeNothing();
        } else {
          TakenPrefix(m, order[1..], max, used + size);
          EncodeCons(p, Taken(m, order[1..], max, used + size));
        }
      }
    }
  }

  /** The enumeration stops only at an entry that does not fit any more. */
  lemma {:induction false} TakenMaximal(m: map<Str, Str>, order: seq<Str>, max: int, used: nat)
    requires forall i :: 0 <= i < |order| ==> order[i] in m
    requires used <= max
    ensures var ps, all := Taken(m, order, max, used), AllPairs(m, order);
            |ps| < |all| ==> used + |EncodePairs(ps)| + |EncodePair(all[|ps|])| > max
  {
    hide EncodePair, EncodePairs;
    if order != [] {
      var k, v := order[0], m[order[0]];
      if !Admissible(k, v) {
        TakenMaximal(m, order[1..], max, used);
      } else {
        var p := Pair(k, v);
        assert AllPairs(m, order) == [p] + AllPairs(m, order[1..]);
        var size := |EncodePair(p)|;
        if size + used > max {
          EncodeNothing();
        } else {
          TakenMaximal(m, order[1..], max, used + size);
          EncodeCons(p, Taken(m, order[1..], max, used + size));
        }
      }
    }
  }

  lemma EncodeNothing()
    ensures EncodePairs([]) == []
  {
  }

  lemma {:induction false} AllPairsFilter(m: map<Str, Str>, order: seq<Str>)
    requires forall i :: 0 <= i < |order| ==> order[i] in m
    ensures forall p :: p in AllPairs(m, order)
              <==> p.key in order && Admissible(p.key, m[p.key]) && p.val == m[p.key]
    ensures (forall i, j :: 0 <= i < j < |order| ==> order[i] != order[j]) ==> DistinctKeys(AllPairs(m, order))
  {
    hide Admissible;
    if order != [] {
      var k, v := order[0], m[order[0]];
      AllPairsFilter(m, order[1..]);
      var head := if Admissible(k, v) then [Pair(k, v)] else [];
      assert AllPairs(m, order) == head + AllPairs(m, order[1..]);
      assert order == [k] + order[1..];
      if forall i, j :: 0 <= i < j < |order| ==> order[i] != order[j] {
        assert k !in order[1..];
        forall p | p in AllPairs(m, order[1..]) ensures p.key != k {
        }
      }
    }
  }

  /** With distinct lower-case keys no pair shadows another. */
  lemma {:induction false} ToMapOfDistinct(ps: seq<Pair>)
    requires DistinctKeys(ps)
    requires forall i :: 0 <= i < |ps| ==> Lower(ps[i].key) == ps[i].key
    ensures forall k, v :: k in ToMap(ps) && ToMap(ps)[k] == v <==> Pair(k, v) in ps
  {
    hide Lower;
    if ps != [] {
      var n := |ps| - 1;
      ToMapOfDistinct(ps[..n]);
      assert ps == ps[..n] + [ps[n]];
      assert forall i :: 0 <= i < n ==> ps[..n][i].key != ps[n].key;
    }
  }

  /** Whatever order the runtime picks, encoding then decoding a map with lower-case keys gives
      back part of it, and gives back everything that can be carried exactly when that fits. */
  lemma ValuesRoundTrip(m: map<Str, Str>, order: seq<Str>, max: nat)
    requires IsOrder(order, m) && LowerKeys(m)
    ensures |MarshalValues(m, order, max)| <= max
    ensures UnmarshalValues(MarshalValues(m, order, max)).Some?
    ensures var back := UnmarshalValues(MarshalValues(m, order, max)).value;
            && back.Keys <= Carriable(m).Keys
            && (forall k :: k in back ==> back[k] == m[k])
            && (back == Carriable(m) <==> TotalSize(m, order) <= max)
  {
    hide EncodePairs, Admissible, Taken, ToMap, AllPairs, ParsePairs, Lower;
    var ps, all := Taken(m, order, max, 0), AllPairs(m, order);
    Canonical(EncodePairs(ps), ps);
    TakenPrefix(m, order, max, 0);
    AllPairsFilter(m, order);
    forall p | p in all ensures p.key in m && Lower(p.key) == p.key {
    }
    assert forall i :: 0 <= i < |ps| ==> ps[i] == all[i] && all[i] in all;
    ToMapOfDistinct(ps);
    var back := ToMap(ps);
    forall k | k in back ensures k in Carriable(m) && back[k] == m[k] {
      assert Pair(k, back[k]) in ps;
    }
    if ps == all {
      forall k | k in Carriable(m) ensures k in back {
        assert Pair(k, m[k]) in all;
      }
      assert back == Carriable(m);
    } else {
      var p := all[|ps|];
      assert p in all;
      assert forall i :: 0 <= i < |ps| ==> ps[i].key != p.key;
      assert p.key !in back;
    }
  }

  // ------------------------------------------------------------- the object

  /** What Set does: it stores, refuses, or panics because there is no map to store into. */
  datatype Stored = Done | TooLong | NilMap

  /** The part of protocol.Metadata that these operations update. */
  class Values {
    var values: map<Str, Str>
    /** The map was made; a nil map reads as empty. */
    var made: bool

    constructor (m: map<Str, Str>)
      ensures values == m && made
    {
      values, made := m, true;
    }

    /** As a decoded header leaves it, until a metadata section is decoded. */
    constructor Nil()
      ensures values == map[] && !made
    {
      values, made := map[], false;
    }

    /** Decodes `data` into the map; a malformed section changes nothing. */
    method Unmarshal(data: Str) returns (ok: bool)
      modifies this
      ensures ok == UnmarshalValues(data).Some?
      ensures values == if ok then UnmarshalValues(data).value else old(values)
      ensures made == (ok || old(made))
      ensures ok ==> forall k :: k in values ==> NoUpper(k)
    {
      hide Encode;
      hide GetString;
      hide EncodePairs;
      var parsed: map<Str, Str> := map[];
      if |data| == 0 {
        values, made := parsed, true;
        return true;
      }
      DecodedKeys(data);
      if |data| < 2 {
        return false;
      }
      var rest := data;
      ghost var done: seq<Pair> := [];
      EncodeNothing();
      while rest != []
        invariant Encodable(done) && data == EncodePairs(done) + rest
        invariant parsed == ToMap(done)
        invariant values == old(values) && made == old(made)
        decreases |rest|
      {
        ParseAfterEncode(done, rest);
        var k := GetString(rest);
        if k.None? {
          return false;
        }
        var v := GetString(k.value.1);
        if v.None? {
          return false;
        }
        EncodeAfterGet(rest);
        EncodeAfterGet(k.value.1);
        ghost var p := Pair(k.value.0, v.value.0);
        EncodeSnoc(done, p);
        parsed := parsed[Lower(k.value.0) := v.value.0];
        done := done + [p];
        rest := v.value.1;
      }
      ParseAfterEncode(done, []);
      assert done + [] == done;
      values, made := parsed, true;
      return true;
    }

    /** Encodes the entries in the given enumeration order, up to `max` bytes. */
    method Marshal(order: seq<Str>, max: int) returns (data: Str)
      requires IsOrder(order, values)
      ensures data == MarshalValues(values, order, max)
    {
      hide EncodePairs;
      data := [];
      ghost var taken: seq<Pair> := [];
      EncodeNothing();
      var i := 0;
      assert order[0..] == order;
      while i < |order|
        invariant 0 <= i <= |order|
        invariant Encodable(taken) && data == EncodePairs(taken)
        invariant Taken(values, order, max, 0) == taken + Taken(values, order[i..], max, |data|)
      {
        var key, val := order[i], values[order[i]];
        assert order[i..][1..] == order[i + 1..];
        i := i + 1;
        if key == [] {
          continue;
        }
        var k := MarshalString(key);
        if k.None? {
          continue;
        }
        var v := MarshalString(val);
        if v.None? {
          continue;
        }
        if |k.value| + |v.value| + |data| > max {
          assert taken + [] == taken;
          break;
        }
        EncodeSnoc(taken, Pair(key, val));
        taken := taken + [Pair(key, val)];
        data := data + k.value + v.value;
      }
      assert i == |order| ==> order[i..] == [];
      assert taken + [] == taken;
    }

    /** Stores one entry under its lower-case key. Strings too long to carry are refused; a nil map,
        which every decoded version 1 packet has, is a panic. */
    method Set(k: Str, v: Str) returns (r: Stored)
      modifies this
      ensures r == if |k| > 32767 || |v| > 32767 then TooLong else if !old(made) then NilMap else Done
      ensures !r.Done? ==> values == old(values)
      ensures r.Done? ==>
                && Lower(k) in values
                && forall l :: l in values ==>
                     if SameFold(l, k) && NoUpper(l) then values[l] == v
                     else l in old(values) && values[l] == old(values)[l]
      ensures r.Done? ==> forall l :: l in old(values) ==> l in values
      ensures made == old(made)
      ensures old(LowerKeys(values)) ==> LowerKeys(values)
    {
      if |k| > MAX_15BIT || |v| > MAX_15BIT {
        return TooLong;
      }
      if !made {
        return NilMap;
      }
      LowerIdempotent(k);
      LowerClean(k);
      forall l | NoUpper(l) ensures SameFold(l, k) <==> l == Lower(k) {
        LowerClean(l);
        LowerFolds(l, k);
      }
      values := values[Lower(k) := v];
      return Done;
    }
  }

  lemma LowerIdempotent(s: Str)
    ensures Lower(Lower(s)) == Lower(s)
  {
  }

  lemma {:induction false} EncodeSnoc(ps: seq<Pair>, p: Pair)
    requires Encodable(ps) && Fits(p.key) && Fits(p.val)
    ensures Encodable(ps + [p])
    ensures EncodePairs(ps + [p]) == EncodePairs(ps) + Encode(p.key) + Encode(p.val)
  {
    hide Encode;
    if ps == [] {
      assert ps + [p] == [p] && [p][1..] == [];
    } else {
      EncodeSnoc(ps[1..], p);
      assert (ps + [p])[1..] == ps[1..] + [p];
      assert EncodePairs(ps + [p]) == EncodePair(ps[0]) + EncodePairs(ps[1..] + [p]);
    }
  }
}
