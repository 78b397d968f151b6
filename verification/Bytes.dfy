/** Little-endian integers and byte ranges of a buffer. */
module Bytes {
  type Byte = x: int | 0 <= x < 0x100
  type U16 = x: int | 0 <= x < 0x1_0000
  type U32 = x: int | 0 <= x < 0x1_0000_0000
  type U64 = x: int | 0 <= x < 0x1_0000_0000_0000_0000

  function Pow256(n: nat): nat {
    if n == 0 then 1 else 256 * Pow256(n - 1)
  }

  /** `v` as `n` bytes, least significant first. */
  function LE(v: nat, n: nat): (s: seq<Byte>)
    ensures |s| == n
  {
    if n == 0 then [] else [v % 256] + LE(v / 256, n - 1)
  }

  function FromLE(s: seq<Byte>): nat {
    if s == [] then 0 else s[0] + 256 * FromLE(s[1..])
  }

  lemma Widths()
    ensures Pow256(2) == 0x1_0000 && Pow256(4) == 0x1_0000_0000 && Pow256(8) == 0x1_0000_0000_0000_0000
  {
    assert Pow256(4) == 256 * 256 * Pow256(2);
    assert Pow256(8) == 256 * 256 * 256 * 256 * Pow256(4);
  }

  lemma {:induction false} FromLEFits(s: seq<Byte>)
    ensures FromLE(s) < Pow256(|s|)
  {
    if s != [] {
      FromLEFits(s[1..]);
    }
  }

  lemma {:induction false} ReadBack(v: nat, n: nat)
    requires v < Pow256(n)
    ensures FromLE(LE(v, n)) == v
  {
    if n != 0 {
      ReadBack(v / 256, n - 1);
      assert LE(v, n)[1..] == LE(v / 256, n - 1);
    }
  }

  lemma {:induction false} WriteBack(s: seq<Byte>)
    ensures LE(FromLE(s), |s|) == s
  {
    if s != [] {
      WriteBack(s[1..]);
      assert (s[0] + 256 * FromLE(s[1..])) / 256 == FromLE(s[1..]);
    }
  }

  function Fix16(s: seq<Byte>): U16
    requires |s| == 2
  {
    FromLEFits(s); Widths();
    FromLE(s)
  }

  function Fix32(s: seq<Byte>): U32
    requires |s| == 4
  {
    FromLEFits(s); Widths();
    FromLE(s)
  }

  function Fix64(s: seq<Byte>): U64
    requires |s| == 8
  {
    FromLEFits(s); Widths();
    FromLE(s)
  }

  lemma ReadBacks()
    ensures forall v: U16 :: Fix16(LE(v, 2)) == v
    ensures forall v: U32 :: Fix32(LE(v, 4)) == v
    ensures forall v: U64 :: Fix64(LE(v, 8)) == v
  {
    Widths();
    forall v: U16 ensures Fix16(LE(v, 2)) == v { ReadBack(v, 2); }
    forall v: U32 ensures Fix32(LE(v, 4)) == v { ReadBack(v, 4); }
    forall v: U64 ensures Fix64(LE(v, 8)) == v { ReadBack(v, 8); }
  }

  function Zeros(n: nat): (z: seq<Byte>)
    ensures |z| == n && forall i :: 0 <= i < n ==> z[i] == 0
  {
    seq(n, _ => 0)
  }

  /** `s` with `d` written over the bytes from `at` on. */
  function Put(s: seq<Byte>, at: nat, d: seq<Byte>): (r: seq<Byte>)
    requires at + |d| <= |s|
    ensures |r| == |s| && r[at..at + |d|] == d
    ensures forall i :: 0 <= i < |s| && !(at <= i < at + |d|) ==> r[i] == s[i]
  {
    s[..at] + d + s[at + |d|..]
  }
}
