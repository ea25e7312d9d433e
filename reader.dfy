/**
 * The byte readers of the database handle: fixed-width little-endian numbers and
 * length-prefixed strings at 1-based offsets into the immutable file buffer.
 * A read that reaches outside the buffer is an out-of-range slice in the source,
 * which panics; here it is the outcome Err(OutOfBounds).
 */
module ByteReader {
  import opened Results
  import opened Bytes
  import opened Utf8

  const Word1: nat := 0x1_0000_0000                                  // 2^32
  const Word2: nat := 0x1_0000_0000_0000_0000                        // 2^64
  const Word3: nat := 0x1_0000_0000_0000_0000_0000_0000              // 2^96
  const Word4: nat := 0x1_0000_0000_0000_0000_0000_0000_0000_0000    // 2^128

  /** A u32 stored little-endian in the four bytes that start at the 1-based `offset`. */
  function ReadU32(buf: seq<byte>, offset: nat): (r: Result<nat>)
    ensures r.Ok? <==> 1 <= offset && offset + 3 <= |buf|
    ensures r.Ok? ==> r.value == LittleEndian(buf[offset - 1..offset + 3]) && r.value < Word1
    ensures r.Err? ==> r.error == OutOfBounds
  {
    if offset == 0 || offset + 3 > |buf| then Err(OutOfBounds)
    else
      LittleEndian4(buf[offset - 1..offset + 3]);
      Ok(buf[offset - 1] as nat + 0x100 * (buf[offset] as nat)
         + 0x1_0000 * (buf[offset + 1] as nat) + 0x100_0000 * (buf[offset + 2] as nat))
  }

  /** An IPv4 address is a u32 range bound. */
  function ReadIpv4(buf: seq<byte>, offset: nat): Result<nat>
  {
    ReadU32(buf, offset)
  }

  /**
   * An f32 read little-endian from four bytes: the model keeps its IEEE-754 bit
   * pattern (the u32 read at the same place) rather than a floating-point value.
   */
  function ReadF32(buf: seq<byte>, offset: nat): Result<nat>
  {
    ReadU32(buf, offset)
  }

  /**
   * `(d << 96) | (c << 64) | (b << 32) | a` for four u32 words; the shifted words
   * do not overlap (WordsOfComposeWords), so the bitwise or is a sum.
   */
  function ComposeWords(a: nat, b: nat, c: nat, d: nat): nat
  {
    d * Word3 + c * Word2 + b * Word1 + a
  }

  /** The four words can be taken back out of the composed value, so no bits overlap. */
  lemma WordsOfComposeWords(a: nat, b: nat, c: nat, d: nat)
    requires a < Word1 && b < Word1 && c < Word1 && d < Word1
    ensures ComposeWords(a, b, c, d) < Word4
    ensures ComposeWords(a, b, c, d) % Word1 == a
    ensures ComposeWords(a, b, c, d) / Word1 % Word1 == b
    ensures ComposeWords(a, b, c, d) / Word2 % Word1 == c
    ensures ComposeWords(a, b, c, d) / Word3 == d
  {
    var r := ComposeWords(a, b, c, d);
    assert r == a + Word1 * (b + Word1 * (c + Word1 * d));
    assert r / Word1 == b + Word1 * (c + Word1 * d);
    assert r / Word2 == c + Word1 * d;
    assert r / Word3 == d;
  }

  /** An IPv6 address: four u32 words at ascending offsets, the lowest offset least significant. */
  function ReadIpv6(buf: seq<byte>, offset: nat): (r: Result<nat>)
    ensures r.Ok? <==> 1 <= offset && offset + 15 <= |buf|
    ensures r.Ok? ==> r.value == LittleEndian(buf[offset - 1..offset + 15]) && r.value < Word4
    ensures r.Err? ==> r.error == OutOfBounds
  {
    var a :- ReadU32(buf, offset);
    var b :- ReadU32(buf, offset + 4);
    var c :- ReadU32(buf, offset + 8);
    var d :- ReadU32(buf, offset + 12);
    var s := buf[offset - 1..offset + 15];
    assert s[..4] == buf[offset - 1..offset + 3] && s[4..8] == buf[offset + 3..offset + 7];
    assert s[8..12] == buf[offset + 7..offset + 11] && s[12..] == buf[offset + 11..offset + 15];
    Sixteen(s);
    Ok(ComposeWords(a, b, c, d))
  }

  /** Sixteen little-endian bytes are four little-endian words, lowest first. */
  lemma Sixteen(s: seq<byte>)
    requires |s| == 16
    ensures LittleEndian(s) == ComposeWords(LittleEndian(s[..4]), LittleEndian(s[4..8]),
                                            LittleEndian(s[8..12]), LittleEndian(s[12..]))
    ensures LittleEndian(s) < Word4
  {
    Pow256Words();
    LowWordSplit(s);
    WordSplitAt(s, 4);
    WordSplitAt(s, 8);
    NestedWords(LittleEndian(s[..4]), LittleEndian(s[4..8]), LittleEndian(s[8..12]), LittleEndian(s[12..]));
  }

  /** The first four bytes of a run are its low word; the rest is shifted past them. */
  lemma LowWordSplit(s: seq<byte>)
    requires |s| >= 4
    ensures LittleEndian(s) == LittleEndian(s[..4]) + Word1 * LittleEndian(s[4..])
  {
    assert s == s[..4] + s[4..];
    LittleEndianAppend(s[..4], s[4..]);
    Pow256Words();
  }

  /** The four bytes at `i` are the low word of the run from `i`; the rest is shifted past them. */
  lemma WordSplitAt(s: seq<byte>, i: nat)
    requires i + 4 <= |s|
    ensures LittleEndian(s[i..]) == LittleEndian(s[i..i + 4]) + Word1 * LittleEndian(s[i + 4..])
  {
    assert s[i..] == s[i..i + 4] + s[i + 4..];
    LittleEndianAppend(s[i..i + 4], s[i + 4..]);
    Pow256Words();
  }

  /** Horner's form of four words is their composition. */
  lemma NestedWords(a: nat, b: nat, c: nat, d: nat)
    ensures a + Word1 * (b + Word1 * (c + Word1 * d)) == ComposeWords(a, b, c, d)
  {
  }

  /** The powers of 256 that the readers meet, evaluated. */
  lemma Pow256Words()
    ensures Pow256(4) == Word1 && Pow256(16) == Word4
  {
    assert Pow256(1) == 0x100;
    assert Pow256(2) == 0x1_0000;
    assert Pow256(3) == 0x100_0000;
    assert Pow256(4) == 0x1_0000_0000;
    assert Pow256(8) == 0x1_0000_0000_0000_0000 by {
      assert Pow256(5) == 0x100 * 0x1_0000_0000;
      assert Pow256(6) == 0x1_0000 * 0x1_0000_0000;
      assert Pow256(7) == 0x100_0000 * 0x1_0000_0000;
    }
    assert Pow256(12) == 0x1_0000_0000_0000_0000_0000_0000 by {
      assert Pow256(9) == 0x100 * 0x1_0000_0000_0000_0000;
      assert Pow256(10) == 0x1_0000 * 0x1_0000_0000_0000_0000;
      assert Pow256(11) == 0x100_0000 * 0x1_0000_0000_0000_0000;
    }
    assert Pow256(16) == Word4 by {
      assert Pow256(13) == 0x100 * 0x1_0000_0000_0000_0000_0000_0000;
      assert Pow256(14) == 0x1_0000 * 0x1_0000_0000_0000_0000_0000_0000;
      assert Pow256(15) == 0x100_0000 * 0x1_0000_0000_0000_0000_0000_0000;
    }
  }

  /**
   * A length-prefixed string: the byte at `offset` is the length L and the L bytes
   * after it are the text, which must be well-formed UTF-8.
   */
  function ReadString(buf: seq<byte>, offset: nat): (r: Result<seq<byte>>)
    ensures r.Ok? <==> 1 <= offset <= |buf| && offset + buf[offset - 1] <= |buf|
                       && ValidUtf8(buf[offset..offset + buf[offset - 1]])
    ensures r.Ok? ==> |r.value| == buf[offset - 1] < 256 && r.value == buf[offset..offset + |r.value|]
    ensures r.Err? && r.error != OutOfBounds ==>
              r.error == InvalidUtf8 && 1 <= offset <= |buf| && offset + buf[offset - 1] <= |buf|
    ensures r == Err(OutOfBounds) ==> !(1 <= offset <= |buf| && offset + buf[offset - 1] <= |buf|)
  {
    if offset == 0 || offset > |buf| then Err(OutOfBounds)
    else
      var length := buf[offset - 1];
      if offset + length > |buf| then Err(OutOfBounds)
      else
        var bytes := buf[offset..offset + length];
        if ValidUtf8(bytes) then Ok(bytes) else Err(InvalidUtf8)
  }

  /** A u32 written little-endian into a buffer is read back by ReadU32 at its 1-based offset. */
  lemma ReadU32OfEncoded(prefix: seq<byte>, v: nat, suffix: seq<byte>)
    requires v < Word1
    ensures ReadU32(prefix + LeBytes(v, 4) + suffix, |prefix| + 1) == Ok(v)
  {
    var buf := prefix + LeBytes(v, 4) + suffix;
    assert buf[|prefix|..|prefix| + 4] == LeBytes(v, 4);
    Pow256Words();
    LittleEndianOfLeBytes(v, 4);
  }

  /** A 128-bit address written as sixteen little-endian bytes is read back by ReadIpv6. */
  lemma ReadIpv6OfEncoded(prefix: seq<byte>, v: nat, suffix: seq<byte>)
    requires v < Word4
    ensures ReadIpv6(prefix + LeBytes(v, 16) + suffix, |prefix| + 1) == Ok(v)
  {
    var buf := prefix + LeBytes(v, 16) + suffix;
    assert buf[|prefix|..|prefix| + 16] == LeBytes(v, 16);
    Pow256Words();
    LittleEndianOfLeBytes(v, 16);
  }

  /** A valid UTF-8 text of at most 255 bytes, stored behind its length byte, is read back by ReadString. */
  lemma ReadStringOfEncoded(prefix: seq<byte>, text: seq<byte>, suffix: seq<byte>)
    requires |text| < 256 && ValidUtf8(text)
    ensures ReadString(prefix + [|text|] + text + suffix, |prefix| + 1) == Ok(text)
  {
    var buf := prefix + [|text|] + text + suffix;
    assert buf[|prefix|] == |text|;
    assert buf[|prefix| + 1..|prefix| + 1 + |text|] == text;
  }

  /** The word order of ReadIpv6: a low word of 1 reads as 1, a high word of 1 as 2^96. */
  lemma Ipv6WordOrder()
    ensures ReadIpv6([1, 0, 0, 0, 0, 0, 0, 0, 0, 0, 0, 0, 0, 0, 0, 0], 1) == Ok(1)
    ensures ReadIpv6([0, 0, 0, 0, 0, 0, 0, 0, 0, 0, 0, 0, 1, 0, 0, 0], 1) == Ok(Word3)
  {
    var low: seq<byte> := [1, 0, 0, 0, 0, 0, 0, 0, 0, 0, 0, 0, 0, 0, 0, 0];
    var high: seq<byte> := [0, 0, 0, 0, 0, 0, 0, 0, 0, 0, 0, 0, 1, 0, 0, 0];
    assert ReadU32(low, 1) == Ok(1) && ReadU32(low, 5) == Ok(0);
    assert ReadU32(low, 9) == Ok(0) && ReadU32(low, 13) == Ok(0);
    assert ReadU32(high, 1) == Ok(0) && ReadU32(high, 5) == Ok(0);
    assert ReadU32(high, 9) == Ok(0) && ReadU32(high, 13) == Ok(1);
  }
}
