/** Octets, byte strings and big-endian integers. */
module Bytes {

  type byte = x: int | 0 <= x < 256

  type uint16 = x: int | 0 <= x < 0x1_0000
  type uint32 = x: int | 0 <= x < 0x1_0000_0000
  type uint64 = x: int | 0 <= x < 0x1_0000_0000_0000_0000

  type Str = seq<byte>

  datatype Option<+T> = None | Some(value: T)

  /** 256 to the power `n`: the number of values an `n`-byte field can hold. */
  function Capacity(n: nat): (r: nat)
    ensures r > 0
  {
    if n == 0 then 1 else 256 * Capacity(n - 1)
  }

  /** The low `n` bytes of `x`, most significant first. */
  function BigEndian(n: nat, x: nat): (r: Str)
    ensures |r| == n
  {
    if n == 0 then [] else BigEndian(n - 1, x / 256) + [x % 256]
  }

  function Value(s: Str): nat {
    if s == [] then 0 else Value(s[..|s| - 1]) * 256 + s[|s| - 1]
  }

  function Zeros(n: nat): (r: Str)
    ensures |r| == n
    ensures forall i :: 0 <= i < n ==> r[i] == 0
  {
    seq(n, i => 0)
  }

  function Flatten(chunks: seq<Str>): Str {
    if chunks == [] then [] else chunks[0] + Flatten(chunks[1..])
  }

  lemma {:induction false} ValueOfBigEndian(n: nat, x: nat)
    requires x < Capacity(n)
    ensures Value(BigEndian(n, x)) == x
  {
    if n > 0 {
      ValueOfBigEndian(n - 1, x / 256);
      assert BigEndian(n, x)[..n - 1] == BigEndian(n - 1, x / 256);
    }
  }

  lemma {:induction false} ValueInCapacity(s: Str)
    ensures Value(s) < Capacity(|s|)
  {
    if s != [] {
      ValueInCapacity(s[..|s| - 1]);
    }
  }

  lemma Capacities()
    ensures Capacity(1) == 0x100 && Capacity(2) == 0x1_0000 && Capacity(3) == 0x100_0000
    ensures Capacity(4) == 0x1_0000_0000 && Capacity(8) == 0x1_0000_0000_0000_0000
  {
    assert Capacity(2) == 256 * Capacity(1);
    assert Capacity(4) == 256 * Capacity(3) && Capacity(3) == 256 * Capacity(2);
    assert Capacity(6) == 256 * Capacity(5) && Capacity(5) == 256 * Capacity(4);
    assert Capacity(8) == 256 * Capacity(7) && Capacity(7) == 256 * Capacity(6);
  }

  function Uint16(s: Str): uint16
    requires |s| == 2
  {
    ValueInCapacity(s); Capacities(); Value(s)
  }

  function Uint24(s: Str): (r: uint32)
    requires |s| == 3
    ensures r < 0x100_0000
  {
    ValueInCapacity(s); Capacities(); Value(s)
  }

  function Uint32(s: Str): uint32
    requires |s| == 4
  {
    ValueInCapacity(s); Capacities(); Value(s)
  }

  function Uint64(s: Str): uint64
    requires |s| == 8
  {
    ValueInCapacity(s); Capacities(); Value(s)
  }

  /** A slice of a suffix is a slice of the whole. */
  lemma SubSlice(s: Str, k: nat, i: nat, j: nat)
    requires i <= j && k + j <= |s|
    ensures s[k..][i..j] == s[k + i..k + j]
    ensures s[k..][i..] == s[k + i..]
  {
    assert forall n :: 0 <= n < j - i ==> s[k..][i..j][n] == s[k + i + n];
  }

  lemma {:induction false} FlattenSnoc(chunks: seq<Str>, c: Str)
    ensures Flatten(chunks + [c]) == Flatten(chunks) + c
  {
    if chunks == [] {
      assert Flatten([c]) == c + Flatten([]);
    } else {
      FlattenSnoc(chunks[1..], c);
      assert (chunks + [c])[1..] == chunks[1..] + [c];
      assert chunks[0] + (Flatten(chunks[1..]) + c) == chunks[0] + Flatten(chunks[1..]) + c;
    }
  }
}
