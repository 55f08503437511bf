/** Machine words and the big-endian byte loops every message goes through. */
module Bytes {
  type byte = n: int | 0 <= n < 256
  type uint32 = n: int | 0 <= n < TWO_32
  type int32 = n: int | -0x8000_0000 <= n < 0x8000_0000
  type uint64 = n: int | 0 <= n < TWO_64

  const TWO_32: int := 0x1_0000_0000
  const TWO_64: int := 0x1_0000_0000_0000_0000

  function Min(a: nat, b: nat): nat { if a < b then a else b }

  function Pow256(k: nat): (p: nat)
    ensures p > 0
  {
    if k == 0 then 1 else 256 * Pow256(k - 1)
  }

  /** The low `width` bytes of `v`, most significant first. */
  function BigEndian(v: nat, width: nat): (bs: seq<byte>)
    ensures |bs| == width
  {
    if width == 0 then [] else BigEndian(v / 256, width - 1) + [v % 256]
  }

  /** The number a byte string denotes, most significant byte first. */
  function Value(bs: seq<byte>): nat
  {
    if bs == [] then 0 else 256 * Value(bs[..|bs| - 1]) + bs[|bs| - 1]
  }

  /** Conversion of a signed word to unsigned (section 6.3.1.3 of ISO/IEC 9899:2011), at 32 and 64 bits. */
  function ToUint32(s: int32): uint32 { if s < 0 then s + TWO_32 else s }

  function ToUint64(s: int32): uint64 { if s < 0 then s + TWO_64 else s }

  function ToInt32(u: uint32): int32 { if u < 0x8000_0000 then u else u - TWO_32 }

  // ---------------------------------------------------------------- arithmetic

  lemma DivisionIsUnique(v: int, d: nat, q: int, r: nat)
    requires d > 0 && v == q * d + r && r < d
    ensures q == v / d && r == v % d
  {
    var q' := v / d;
    AtLeastOnce(q - q', d);
    AtLeastOnce(q' - q, d);
    assert (q - q') * d == v % d - r;
  }

  lemma AtLeastOnce(k: int, d: nat)
    ensures k >= 1 ==> k * d >= d
    ensures k <= 0 ==> k * d <= 0
  {
    if k >= 1 { assert (k - 1) * d >= 0; }
  }

  lemma Peel(v: nat, p: nat)
    requires p > 0
    ensures v / (256 * p) == v / 256 / p
    ensures v % (256 * p) == 256 * ((v / 256) % p) + v % 256
  {
    var h := v / 256;
    var q, r := h / p, h % p;
    assert 256 * (q * p) == q * (256 * p);
    DivisionIsUnique(v, 256 * p, q, 256 * r + v % 256);
  }

  lemma {:induction false} ModPowPow(v: nat, small: nat, large: nat)
    requires small <= large
    ensures v % Pow256(large) % Pow256(small) == v % Pow256(small)
  {
    if small > 0 {
      var l, s := Pow256(large - 1), Pow256(small - 1);
      var low := v % (256 * l);
      Peel(v, l);
      Peel(v, s);
      Peel(low, s);
      DivisionIsUnique(low, 256, (v / 256) % l, v % 256);
      ModPowPow(v / 256, small - 1, large - 1);
    }
  }

  /** One turn of the accumulating loop agrees with appending a digit, modulo the word size. */
  lemma AccumulateModulo(v: nat, acc: uint32, b: byte)
    requires acc == v % TWO_32
    ensures (acc * 256 % TWO_32 + b) % TWO_32 == (256 * v + b) % TWO_32
  {
    var shifted := acc * 256 % TWO_32;
    var q := 256 * (v / TWO_32) + acc * 256 / TWO_32 + (shifted + b) / TWO_32;
    DivisionIsUnique(256 * v + b, TWO_32, q, (shifted + b) % TWO_32);
  }

  lemma Pow256Values()
    ensures Pow256(1) == 0x100 && Pow256(4) == TWO_32 && Pow256(8) == TWO_64
  {
    assert Pow256(2) == 0x1_0000;
    assert Pow256(3) == 0x100_0000;
    assert Pow256(5) == 0x100_0000_0000;
    assert Pow256(6) == 0x1_0000_0000_0000;
    assert Pow256(7) == 0x100_0000_0000_0000;
  }

  // ---------------------------------------------------------------- encoding laws

  /** Byte `i` is the digit that the shift by 8 * (width - i - 1) selects. */
  lemma {:induction false} BigEndianAt(v: nat, width: nat, i: nat)
    requires i < width
    ensures BigEndian(v, width)[i] == v / Pow256(width - i - 1) % 256
  {
    if i < width - 1 {
      BigEndianAt(v / 256, width - 1, i);
      Peel(v, Pow256(width - i - 2));
    }
  }

  lemma {:induction false} ValueOfBigEndian(v: nat, width: nat)
    ensures Value(BigEndian(v, width)) == v % Pow256(width)
  {
    if width > 0 {
      var bs := BigEndian(v, width);
      assert bs[..width - 1] == BigEndian(v / 256, width - 1);
      ValueOfBigEndian(v / 256, width - 1);
      Peel(v, Pow256(width - 1));
    }
  }

  lemma {:induction false} BigEndianOfValue(bs: seq<byte>)
    ensures BigEndian(Value(bs), |bs|) == bs && Value(bs) < Pow256(|bs|)
  {
    if bs != [] {
      BigEndianOfValue(bs[..|bs| - 1]);
    }
  }

  /** Reading back `width` bytes keeps the value modulo 2^(8 * min(width, 4)): the reader
      accumulates in a 32-bit word whatever the width. */
  lemma GetAfterPut(v: nat, width: nat)
    ensures Value(BigEndian(v, width)) % TWO_32 == v % Pow256(Min(width, 4))
  {
    Pow256Values();
    ValueOfBigEndian(v, width);
    if width >= 4 {
      ModPowPow(v, 4, width);
    } else {
      Pow256Monotonic(width, 4);
      DivisionIsUnique(v % Pow256(width), TWO_32, 0, v % Pow256(width));
    }
  }

  lemma {:induction false} Pow256Monotonic(a: nat, b: nat)
    requires a <= b
    ensures Pow256(a) <= Pow256(b)
    decreases b - a
  {
    if a < b { Pow256Monotonic(a + 1, b); }
  }

  /** A status is stored from its 64-bit sign extension and read back as a 32-bit word: it survives. */
  lemma SignedRoundTrip(s: int32)
    ensures BigEndian(ToUint64(s), 4) == BigEndian(ToUint32(s), 4)
    ensures Value(BigEndian(ToUint64(s), 4)) == ToUint32(s)
    ensures ToInt32(ToUint32(s)) == s
  {
    Pow256Values();
    ValueOfBigEndian(ToUint64(s), 4);
    assert ToUint64(s) % TWO_32 == ToUint32(s) by {
      DivisionIsUnique(ToUint64(s), TWO_32, if s < 0 then TWO_32 - 1 else 0, ToUint32(s));
    }
    ValueOfBigEndian(ToUint32(s), 4);
    BigEndianOfValue(BigEndian(ToUint64(s), 4));
    BigEndianOfValue(BigEndian(ToUint32(s), 4));
  }

  // ---------------------------------------------------------------- the loops

  /** sysv_byte_put: refuses, without touching the buffer, a field that does not fit. */
  method BytePut(image: array<byte>, offset: nat, limit: nat, width: nat, value: uint64) returns (count: nat)
    requires offset <= limit <= image.Length && limit + width < TWO_32 && width <= 8
    modifies image
    ensures count == if offset + width > limit then 0 else width
    ensures offset + width > limit ==> image[..] == old(image[..])
    ensures offset + width <= limit ==>
      image[..] == old(image[..offset]) + BigEndian(value, width) + old(image[offset + width..])
  {
    if offset + width > limit {
      return 0;
    }
    for i := 0 to width
      invariant forall k :: 0 <= k < i ==> image[offset + k] == BigEndian(value, width)[k]
      invariant image[..offset] == old(image[..offset])
      invariant image[offset + width..] == old(image[offset + width..])
    {
      BigEndianAt(value, width, i);
      image[offset + i] := value / Pow256(width - i - 1) % 256;
    }
    assert image[offset..offset + width] == BigEndian(value, width);
    return width;
  }

  /** sysv_byte_get: the accumulator is a 32-bit word, so wider fields lose their top bytes. */
  method ByteGet(image: seq<byte>, width: nat) returns (value: uint64)
    requires width <= |image|
    ensures value == Value(image[..width]) % TWO_32
  {
    var acc: uint32 := 0;
    for i := 0 to width
      invariant acc == Value(image[..i]) % TWO_32
    {
      assert image[..i + 1][..i] == image[..i];
      AccumulateModulo(Value(image[..i]), acc, image[i]);
      acc := acc * 256 % TWO_32;
      acc := (acc + image[i]) % TWO_32;
    }
    return acc;
  }

  // ---------------------------------------------------------------- exclusive or

  /** Exclusive or of the low `bits` bits. */
  function XorBits(a: nat, b: nat, bits: nat): (r: nat)
  {
    if bits == 0 then 0
    else (if a % 2 == b % 2 then 0 else 1) + 2 * XorBits(a / 2, b / 2, bits - 1)
  }

  function Pow2(k: nat): nat { if k == 0 then 1 else 2 * Pow2(k - 1) }

  lemma {:induction false} XorBitsBound(a: nat, b: nat, bits: nat)
    ensures XorBits(a, b, bits) < Pow2(bits)
  {
    if bits > 0 { XorBitsBound(a / 2, b / 2, bits - 1); }
  }

  /** The lowest bit, and the others. */
  lemma XorHalves(a: nat, b: nat, bits: nat)
    requires bits > 0
    ensures XorBits(a, b, bits) / 2 == XorBits(a / 2, b / 2, bits - 1)
    ensures XorBits(a, b, bits) % 2 == if a % 2 == b % 2 then 0 else 1
  {
  }

  lemma {:induction false} XorBitsInvolutive(a: nat, b: nat, bits: nat)
    requires a < Pow2(bits)
    ensures XorBits(XorBits(a, b, bits), b, bits) == a
  {
    if bits > 0 {
      var r := XorBits(a, b, bits);
      XorBitsInvolutive(a / 2, b / 2, bits - 1);
      XorHalves(a, b, bits);
      XorHalves(r, b, bits);
      assert XorBits(r, b, bits) / 2 == a / 2 && XorBits(r, b, bits) % 2 == a % 2;
    }
  }

  /** Bit `i` of a number. */
  function Bit(n: nat, i: nat): (r: nat)
    ensures r < 2
  {
    if i == 0 then n % 2 else Bit(n / 2, i - 1)
  }

  /** Bit `i` of the result is set exactly where the operands' bits differ. */
  lemma {:induction false} XorBitsAt(a: nat, b: nat, bits: nat, i: nat)
    requires i < bits
    ensures Bit(XorBits(a, b, bits), i) != 0 <==> Bit(a, i) != Bit(b, i)
  {
    XorHalves(a, b, bits);
    if i > 0 { XorBitsAt(a / 2, b / 2, bits - 1, i - 1); }
  }

  function Xor(a: byte, b: byte): byte
  {
    XorBitsBound(a, b, 8);
    assert Pow2(4) == 16 && Pow2(6) == 64 && Pow2(8) == 256;
    XorBits(a, b, 8)
  }

  lemma XorInvolutive(a: byte, b: byte)
    ensures Xor(Xor(a, b), b) == a
  {
    assert Pow2(4) == 16 && Pow2(6) == 64 && Pow2(8) == 256;
    XorBitsInvolutive(a, b, 8);
  }

  lemma XorAt(a: byte, b: byte, i: nat)
    requires i < 8
    ensures Bit(Xor(a, b), i) != 0 <==> Bit(a, i) != Bit(b, i)
  {
    XorBitsAt(a, b, 8, i);
  }

  /** Byte-wise exclusive or of a string with a pad of the same length. */
  function XorSeq(a: seq<byte>, pad: seq<byte>): (r: seq<byte>)
    requires |a| == |pad|
    ensures |r| == |a|
  {
    seq(|a|, i requires 0 <= i < |a| => Xor(a[i], pad[i]))
  }

  lemma XorSeqInvolutive(a: seq<byte>, pad: seq<byte>)
    requires |a| == |pad|
    ensures XorSeq(XorSeq(a, pad), pad) == a
  {
    forall i | 0 <= i < |a|
      ensures XorSeq(XorSeq(a, pad), pad)[i] == a[i]
    {
      XorInvolutive(a[i], pad[i]);
    }
  }

  lemma {:induction false} XorBitsOfZero(b: nat, bits: nat)
    requires b < Pow2(bits)
    ensures XorBits(0, b, bits) == b
  {
    if bits > 0 { XorBitsOfZero(b / 2, bits - 1); }
  }

  /** Zeros take the pad as it is. */
  lemma XorSeqOfZeros(a: seq<byte>, pad: seq<byte>)
    requires |a| == |pad| && forall i :: 0 <= i < |a| ==> a[i] == 0
    ensures XorSeq(a, pad) == pad
  {
    forall i | 0 <= i < |a| ensures XorSeq(a, pad)[i] == pad[i] {
      assert Pow2(4) == 16 && Pow2(6) == 64 && Pow2(8) == 256;
      XorBitsOfZero(pad[i], 8);
    }
  }
}
