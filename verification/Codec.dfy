/** The byte level of the registry (kachat-names/src/lib.rs): state numbers, script numbers,
    push-only scripts and the fixed-layout contract states. */
module Codec {
  import opened Base

  // ------------------------------------------------------------------ little-endian numbers --

  function Pow256(k: nat): (r: nat)
    ensures r > 0
  {
    if k == 0 then 1 else 256 * Pow256(k - 1)
  }

  function LittleEndian(n: nat, width: nat): (b: Bytes)
    ensures |b| == width
  {
    if width == 0 then [] else [n % 256] + LittleEndian(n / 256, width - 1)
  }

  function FromLittleEndian(b: Bytes): (n: nat)
    ensures n < Pow256(|b|)
  {
    if b == [] then 0 else b[0] + 256 * FromLittleEndian(b[1..])
  }

  lemma {:induction false} LittleEndianRoundTrip(n: nat, width: nat)
    requires n < Pow256(width)
    ensures FromLittleEndian(LittleEndian(n, width)) == n
  {
    if width > 0 {
      LittleEndianRoundTrip(n / 256, width - 1);
      assert LittleEndian(n, width)[1..] == LittleEndian(n / 256, width - 1);
    }
  }

  lemma {:induction false} FromLittleEndianRoundTrip(b: Bytes)
    ensures LittleEndian(FromLittleEndian(b), |b|) == b
  {
    if b != [] {
      FromLittleEndianRoundTrip(b[1..]);
      var n := FromLittleEndian(b);
      assert n % 256 == b[0] && n / 256 == FromLittleEndian(b[1..]);
      assert b == [b[0]] + b[1..];
    }
  }

  /** Appending a byte adds it at the top position. */
  lemma {:induction false} FromLittleEndianAppend(b: Bytes, top: Byte)
    ensures FromLittleEndian(b + [top]) == FromLittleEndian(b) + top * Pow256(|b|)
  {
    if b == [] {
      assert [] + [top] == [top];
    } else {
      assert (b + [top])[1..] == b[1..] + [top];
      FromLittleEndianAppend(b[1..], top);
      calc {
        FromLittleEndian(b + [top]);
        b[0] + 256 * (FromLittleEndian(b[1..]) + top * Pow256(|b| - 1));
        b[0] + 256 * FromLittleEndian(b[1..]) + top * (256 * Pow256(|b| - 1));
      }
    }
  }

  lemma Pow256Values()
    ensures Pow256(1) == 0x100 && Pow256(2) == 0x1_0000 && Pow256(4) == 0x1_0000_0000
    ensures Pow256(7) == 0x100_0000_0000_0000 && Pow256(8) == TWO_64
  {
    assert Pow256(0) == 1 && Pow256(3) == 256 * Pow256(2) && Pow256(5) == 256 * Pow256(4);
    assert Pow256(6) == 256 * Pow256(5) && Pow256(7) == 256 * Pow256(6) && Pow256(8) == 256 * Pow256(7);
  }

  // ------------------------------------------------------------------ num8 --

  function Abs(x: int): nat { if x < 0 then -x else x }

  /** `byte | 0x80` and `byte & 0x7f`. */
  function SetTopBit(x: Byte): Byte { if x < 128 then x + 128 else x }
  function ClearTopBit(x: Byte): Byte { x % 128 }

  const ZERO8: Bytes := [0, 0, 0, 0, 0, 0, 0, 0]
  const NEGATIVE_ZERO: Bytes := [0, 0, 0, 0, 0, 0, 0, 128]

  /** The fixed 8-byte sign-magnitude number used inside contract states. */
  function Num8Encode(v: Int64): (b: Bytes)
    ensures |b| == 8
  {
    var m := LittleEndian(Abs(v), 8);
    if v < 0 then m[7 := SetTopBit(m[7])] else m
  }

  function Num8Decode(b: Bytes): (v: Int64)
    requires |b| == 8
    ensures v != INT64_MIN
  {
    var mag: int := FromLittleEndian(b[7 := ClearTopBit(b[7])]);
    MagnitudeFits(b);
    if b[7] >= 128 then -mag else mag
  }

  /** Splitting off the top byte of eight. */
  lemma TopByte(b: Bytes, top: Byte)
    requires |b| == 8
    ensures FromLittleEndian(b[7 := top]) == FromLittleEndian(b[..7]) + top * 0x100_0000_0000_0000
    ensures FromLittleEndian(b[..7]) < 0x100_0000_0000_0000
  {
    assert b[7 := top] == b[..7] + [top];
    FromLittleEndianAppend(b[..7], top);
    Pow256Values();
  }

  lemma MagnitudeFits(b: Bytes)
    requires |b| == 8
    ensures FromLittleEndian(b[7 := ClearTopBit(b[7])]) < TWO_63
  {
    TopByte(b, ClearTopBit(b[7]));
  }

  lemma {:induction false} ZerosValue(b: Bytes)
    requires forall c :: c in b ==> c == 0
    ensures FromLittleEndian(b) == 0
  {
    if b != [] {
      assert b[0] in b && forall c :: c in b[1..] ==> c in b;
      ZerosValue(b[1..]);
    }
  }

  lemma NegativeZeroValue()
    ensures FromLittleEndian(NEGATIVE_ZERO) == TWO_63
  {
    hide FromLittleEndian;
    ZerosValue(NEGATIVE_ZERO[..7]);
    TopByte(NEGATIVE_ZERO, 128);
    assert NEGATIVE_ZERO[7 := 128] == NEGATIVE_ZERO;
  }

  /** The magnitude's own bytes: the top bit is free exactly below 2^63. */
  lemma MagnitudeBytes(n: nat)
    requires n <= TWO_63
    ensures var m := LittleEndian(n, 8);
            FromLittleEndian(m) == n && (m[7] < 128 <==> n < TWO_63) && (n == TWO_63 ==> m == NEGATIVE_ZERO)
  {
    hide FromLittleEndian, LittleEndian;
    var m := LittleEndian(n, 8);
    assert n < Pow256(8) by { Pow256Values(); }
    LittleEndianRoundTrip(n, 8);
    TopByte(m, m[7]);
    assert m[7 := m[7]] == m;
    NegativeZeroValue();
    FromLittleEndianRoundTrip(NEGATIVE_ZERO);
  }

  /** A number survives its state encoding exactly when it is not the one i64 without a
      positive counterpart, which is written as negative zero. */
  lemma Num8RoundTrip(v: Int64)
    ensures Num8Decode(Num8Encode(v)) == v <==> v != INT64_MIN
    ensures v == INT64_MIN ==> Num8Encode(v) == NEGATIVE_ZERO
  {
    var m := LittleEndian(Abs(v), 8);
    MagnitudeBytes(Abs(v));
    var e := Num8Encode(v);
    assert v != INT64_MIN ==> e[7 := ClearTopBit(e[7])] == m;
  }

  function Weighed(b: seq<int>): int
    requires |b| == 8
  {
    b[0] + 0x100 * b[1] + 0x1_0000 * b[2] + 0x100_0000 * b[3] + 0x1_0000_0000 * b[4] + 0x100_0000_0000 * b[5]
    + 0x1_0000_0000_0000 * b[6] + 0x100_0000_0000_0000 * b[7]
  }

  /** What the eight bytes are: the magnitude, least byte first, under the sign in the top bit. */
  lemma Num8Bytes(v: Int64)
    requires v != INT64_MIN
    ensures var b := Num8Encode(v);
            (b[7] >= 128 <==> v < 0) && Weighed(b[7 := b[7] % 128]) == if v < 0 then -v else v
  {
    hide FromLittleEndian, LittleEndian;
    MagnitudeBytes(Abs(v));
    EightBytes(LittleEndian(Abs(v), 8));
    assert Num8Encode(v)[7 := Num8Encode(v)[7] % 128] == LittleEndian(Abs(v), 8);
  }

  lemma EightBytes(b: Bytes)
    requires |b| == 8
    ensures FromLittleEndian(b) == Weighed(b)
  {
    FourBytes(b);
    FourBytes(b[4..]);
    assert b[4..][4..] == [];
  }

  lemma FourBytes(b: Bytes)
    requires |b| >= 4
    ensures FromLittleEndian(b)
        == b[0] + 0x100 * b[1] + 0x1_0000 * b[2] + 0x100_0000 * b[3] + 0x1_0000_0000 * FromLittleEndian(b[4..])
  {
    assert b[1..][1..] == b[2..] && b[2..][1..] == b[3..] && b[3..][1..] == b[4..];
    assert FromLittleEndian(b[2..]) == b[2] + 256 * FromLittleEndian(b[3..]);
  }

  lemma ZeroMagnitude(c: Bytes)
    requires |c| == 8
    ensures FromLittleEndian(c) == 0 <==> c == ZERO8
  {
    hide FromLittleEndian, LittleEndian;
    ZerosValue(ZERO8);
    FromLittleEndianRoundTrip(c);
    FromLittleEndianRoundTrip(ZERO8);
  }

  /** Eight bytes survive decoding and re-encoding exactly when they are not negative zero. */
  lemma Num8BytesRoundTrip(b: Bytes)
    requires |b| == 8
    ensures Num8Encode(Num8Decode(b)) == b <==> b != NEGATIVE_ZERO
  {
    hide FromLittleEndian, LittleEndian, Num8Encode, Num8Decode;
    var c := b[7 := ClearTopBit(b[7])];
    ZeroMagnitude(c);
    assert b == c[7 := b[7]];
    if FromLittleEndian(c) == 0 {
      ZeroBytes(b);
    } else {
      NonZeroBytes(b);
    }
  }

  lemma ZeroBytes(b: Bytes)
    requires |b| == 8 && b[7 := ClearTopBit(b[7])] == ZERO8
    ensures Num8Encode(Num8Decode(b)) == ZERO8 && (b == ZERO8 || b == NEGATIVE_ZERO) && ZERO8 != NEGATIVE_ZERO
  {
    hide FromLittleEndian;
    ZerosValue(ZERO8);
    assert LittleEndian(0, 8) == ZERO8;
    assert b[7] == 0 || b[7] == 128 by {
      assert b[7] % 128 == ZERO8[7];
    }
    assert b == ZERO8[7 := b[7]];
  }

  lemma NonZeroBytes(b: Bytes)
    requires |b| == 8 && FromLittleEndian(b[7 := ClearTopBit(b[7])]) != 0
    ensures Num8Encode(Num8Decode(b)) == b && b != NEGATIVE_ZERO
  {
    hide FromLittleEndian, LittleEndian;
    var c := b[7 := ClearTopBit(b[7])];
    MagnitudeFits(b);
    FromLittleEndianRoundTrip(c);
    ZerosValue(ZERO8);
    assert b == c[7 := b[7]];
    assert NEGATIVE_ZERO[7 := ClearTopBit(NEGATIVE_ZERO[7])] == ZERO8;
  }

  lemma Num8Injective(v: Int64, w: Int64)
    requires Num8Encode(v) == Num8Encode(w)
    ensures v == w
  {
    Num8RoundTrip(v);
    Num8RoundTrip(w);
    if v == INT64_MIN || w == INT64_MIN {
      Num8BytesRoundTrip(NEGATIVE_ZERO);
    }
  }
}
