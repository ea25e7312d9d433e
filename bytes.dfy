/** Bytes and little-endian numbers, the arithmetic under every reader. */
module Bytes {

  type byte = b: nat | b < 256

  /** An unsigned 32-bit value. */
  type u32 = x: nat | x < 0x1_0000_0000

  /** An unsigned 128-bit value. */
  type u128 = x: nat | x < 0x1_0000_0000_0000_0000_0000_0000_0000_0000

  /** 256 to the power n: the number of distinct values of n bytes. */
  function Pow256(n: nat): (r: nat)
    ensures r >= 1
  {
    if n == 0 then 1 else 256 * Pow256(n - 1)
  }

  /** The reference reading of a byte run: least significant byte first. */
  function LittleEndian(s: seq<byte>): (r: nat)
    ensures r < Pow256(|s|)
    decreases |s|
  {
    if s == [] then 0 else s[0] + 256 * LittleEndian(s[1..])
  }

  /** The n-byte little-endian encoding of v (v taken modulo 256^n). */
  function LeBytes(v: nat, n: nat): (s: seq<byte>)
    ensures |s| == n
  {
    if n == 0 then [] else [v % 256] + LeBytes(v / 256, n - 1)
  }

  /** Encoding a value that fits and reading it back gives the value. */
  lemma {:induction false} LittleEndianOfLeBytes(v: nat, n: nat)
    requires v < Pow256(n)
    ensures LittleEndian(LeBytes(v, n)) == v
  {
    if n > 0 {
      var s := LeBytes(v, n);
      assert s[1..] == LeBytes(v / 256, n - 1);
      assert v / 256 < Pow256(n - 1);
      LittleEndianOfLeBytes(v / 256, n - 1);
    }
  }

  /** Reading a byte run and encoding the value again gives the same bytes. */
  lemma {:induction false} LeBytesOfLittleEndian(s: seq<byte>)
    ensures LeBytes(LittleEndian(s), |s|) == s
    decreases |s|
  {
    if s != [] {
      var v := LittleEndian(s);
      assert v % 256 == s[0] && v / 256 == LittleEndian(s[1..]);
      LeBytesOfLittleEndian(s[1..]);
    }
  }

  /** Little-endian numbers concatenate: the second run is shifted past the first. */
  lemma {:induction false} LittleEndianAppend(s: seq<byte>, t: seq<byte>)
    ensures LittleEndian(s + t) == LittleEndian(s) + Pow256(|s|) * LittleEndian(t)
    decreases |s|
  {
    if s == [] {
      assert s + t == t;
    } else {
      var head, rest, shift, high := s[0] as nat, LittleEndian(s[1..]), Pow256(|s| - 1), LittleEndian(t);
      assert (s + t)[1..] == s[1..] + t;
      LittleEndianAppend(s[1..], t);
      assert LittleEndian(s + t) == head + 256 * (rest + shift * high);
      ShiftDistributes(rest, shift, high);
    }
  }

  lemma ShiftDistributes(rest: nat, shift: nat, high: nat)
    ensures 256 * (rest + shift * high) == 256 * rest + (256 * shift) * high
  {
  }

  /** The four-byte case written out, as a byte-order library computes it. */
  lemma LittleEndian4(s: seq<byte>)
    requires |s| == 4
    ensures LittleEndian(s) == s[0] as nat + 0x100 * (s[1] as nat) + 0x1_0000 * (s[2] as nat) + 0x100_0000 * (s[3] as nat)
  {
    assert s[3..][1..] == [];
    assert LittleEndian(s[3..]) == s[3];
    assert s[2..][1..] == s[3..];
    assert LittleEndian(s[2..]) == s[2] as nat + 256 * (s[3] as nat);
    assert s[1..][1..] == s[2..];
    assert LittleEndian(s[1..]) == s[1] as nat + 256 * (s[2] as nat) + 0x1_0000 * (s[3] as nat);
  }
}
