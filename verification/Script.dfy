/** Signature scripts (kachat-names/src/lib.rs): script numbers, push tokens, and the split of a
    contract's signature script into arguments, dispatch tag and redeem script. */
module Script {
  import opened Base
  import opened Codec

  // ------------------------------------------------------------------ script numbers --

  function Pow2(k: nat): (r: nat)
    ensures r > 0
  {
    if k == 0 then 1 else 2 * Pow2(k - 1)
  }

  /** The low `k` bits of `x` or-ed with those of `y`. */
  function OrBits(x: nat, y: nat, k: nat): (r: nat)
    ensures r < Pow2(k)
  {
    if k == 0 then 0 else (if x % 2 == 1 || y % 2 == 1 then 1 else 0) + 2 * OrBits(x / 2, y / 2, k - 1)
  }

  function Or(x: Byte, y: Byte): Byte {
    assert Pow2(4) == 16 && Pow2(8) == 16 * Pow2(4);
    OrBits(x, y, 8)
  }

  lemma {:induction false} OrBitsZero(y: nat, k: nat)
    requires y < Pow2(k)
    ensures OrBits(0, y, k) == y
  {
    if k > 0 {
      OrBitsZero(y / 2, k - 1);
    }
  }

  lemma OrZero(b: Byte)
    ensures Or(0, b) == b
  {
    assert Pow2(4) == 16 && Pow2(8) == 16 * Pow2(4);
    OrBitsZero(b, 8);
  }

  /** The eight bytes of the i64 accumulator after OR-ing in the bytes of `b`: a shift by `8 * i`
      wraps at 64 bits, so byte `i` lands in lane `i % 8`. */
  function Lanes(b: Bytes): (r: Bytes)
    ensures |r| == 8
  {
    if b == [] then ZERO8
    else
      var top := |b| - 1;
      var rest := Lanes(b[..top]);
      rest[top % 8 := Or(rest[top % 8], b[top])]
  }

  function FromLanes(lanes: Bytes): Int64
    requires |lanes| == 8
  {
    Wrap64(FromLittleEndian(lanes))
  }

  /** What `decode_script_number` computes, any length: clear the sign bit of the last byte's lane
      and negate, both in 64-bit arithmetic. */
  function ScriptNumber(b: Bytes): Int64 {
    if b == [] then 0
    else
      var top := |b| - 1;
      var lanes := Lanes(b);
      if b[top] >= 128 then Wrap64(0 - FromLanes(lanes[top % 8 := ClearTopBit(lanes[top % 8])]))
      else FromLanes(lanes)
  }

  method DecodeScriptNumber(b: Bytes) returns (v: Int64)
    ensures v == ScriptNumber(b)
  {
    if b == [] {
      return 0;
    }
    var lanes := ZERO8;
    for i := 0 to |b|
      invariant lanes == Lanes(b[..i]) && |lanes| == 8
    {
      assert b[..i + 1][..i] == b[..i];
      lanes := lanes[i % 8 := Or(lanes[i % 8], b[i])];
    }
    assert b[..|b|] == b;
    var top := |b| - 1;
    if b[top] >= 128 {
      v := Wrap64(0 - FromLanes(lanes[top % 8 := ClearTopBit(lanes[top % 8])]));
    } else {
      v := FromLanes(lanes);
    }
  }

  /** The value a script number denotes: little-endian magnitude, sign in the last byte's top bit. */
  function SignMagnitude(b: Bytes): int {
    if b == [] then 0
    else
      var top := |b| - 1;
      var mag := FromLittleEndian(b[..top] + [ClearTopBit(b[top])]);
      if b[top] >= 128 then 0 - mag else mag
  }

  /** The minimal script number of a value. */
  function ScriptNumberBytes(v: int): Bytes {
    if v == 0 then [] else WithSign(MinimalBytes(Abs(v)), v < 0)
  }

  function MinimalBytes(n: nat): (b: Bytes)
    ensures (n == 0 <==> b == []) && (b != [] ==> b[|b| - 1] > 0)
  {
    if n == 0 then [] else [n % 256] + MinimalBytes(n / 256)
  }

  function WithSign(m: Bytes, negative: bool): Bytes
    requires m != []
  {
    var top := m[|m| - 1];
    var sign := if negative then 128 else 0;
    if top >= 128 then m + [sign] else m[|m| - 1 := top + sign]
  }

  lemma {:induction false} MinimalBytesValue(n: nat)
    ensures FromLittleEndian(MinimalBytes(n)) == n
  {
    if n > 0 {
      MinimalBytesValue(n / 256);
      assert MinimalBytes(n)[1..] == MinimalBytes(n / 256);
    }
  }

  /** Every integer is denoted by its minimal script number. */
  lemma ScriptNumberBytesValue(v: int)
    ensures SignMagnitude(ScriptNumberBytes(v)) == v
  {
    hide FromLittleEndian, SignMagnitude, WithSign;
    if v == 0 {
      NothingDenotesZero();
    } else {
      MinimalBytesValue(Abs(v));
      WithSignValue(MinimalBytes(Abs(v)), v < 0);
    }
  }

  lemma NothingDenotesZero()
    ensures SignMagnitude([]) == 0
  {
  }

  lemma WithSignValue(m: Bytes, negative: bool)
    requires m != []
    ensures SignMagnitude(WithSign(m, negative)) == if negative then 0 - FromLittleEndian(m) else FromLittleEndian(m)
  {
    hide FromLittleEndian;
    var s, top := WithSign(m, negative), |m| - 1;
    if m[top] >= 128 {
      assert s[..|m|] == m;
      ZeroOnTop(m);
    } else {
      assert s[..top] == m[..top] && m == m[..top] + [m[top]];
    }
  }

  lemma ZeroOnTop(m: Bytes)
    ensures FromLittleEndian(m + [0]) == FromLittleEndian(m)
  {
    hide FromLittleEndian, Pow256;
    FromLittleEndianAppend(m, 0);
  }

  /** Up to eight bytes every byte has a lane of its own, so the lanes are the bytes, padded. */
  lemma {:induction false} LanesShort(b: Bytes)
    requires |b| <= 8
    ensures Lanes(b) == Pad8(b)
  {
    hide Or, Pad8;
    if b == [] {
      PadNothing();
    } else {
      var top := |b| - 1;
      LanesShort(b[..top]);
      OrZero(b[top]);
      PadOneMore(b);
    }
  }

  lemma PadNothing()
    ensures Pad8([]) == ZERO8
  {
  }

  lemma PadOneMore(b: Bytes)
    requires 0 < |b| <= 8
    ensures var top := |b| - 1;
            top % 8 == top && Pad8(b[..top])[top] == 0 && Pad8(b) == Pad8(b[..top])[top := b[top]]
  {
    var top := |b| - 1;
    SetAfter(b[..top], 0, ZERO8[top + 1..], b[top]);
    assert ZERO8[top..] == [0] + ZERO8[top + 1..] by { ZerosAre(top); }
    assert b == b[..top] + [b[top]];
  }

  lemma SetAfter(a: Bytes, was: Byte, rest: Bytes, x: Byte)
    ensures (a + ([was] + rest))[|a|] == was && (a + ([was] + rest))[|a| := x] == a + [x] + rest
  {
  }

  lemma ZerosAre(i: nat)
    requires i < 8
    ensures ZERO8[i] == 0
  {
  }

  lemma {:induction false} PaddingAddsNothing(b: Bytes)
    requires |b| <= 8
    ensures FromLittleEndian(Pad8(b)) == FromLittleEndian(b)
    decreases 8 - |b|
  {
    if |b| < 8 {
      assert Pad8(b) == Pad8(b + [0]);
      PaddingAddsNothing(b + [0]);
      FromLittleEndianAppend(b, 0);
    } else {
      assert Pad8(b) == b;
    }
  }

  function Pad8(b: Bytes): (r: Bytes)
    requires |b| <= 8
    ensures |r| == 8
  {
    b + ZERO8[|b|..]
  }

  /** Eight lanes below 2^63 are read as they stand. */
  lemma FromLanesSmall(lanes: Bytes)
    requires |lanes| == 8 && lanes[7] < 128
    ensures FromLanes(lanes) == FromLittleEndian(lanes) < TWO_63
  {
    assert lanes[7 := ClearTopBit(lanes[7])] == lanes;
    MagnitudeFits(lanes);
  }

  /** What the decoder reads at the sign byte of a short script number. */
  lemma SignByte(b: Bytes)
    requires 0 < |b| <= 8
    ensures var top := |b| - 1;
            var c := b[..top] + [ClearTopBit(b[top])];
            Lanes(b)[top := ClearTopBit(Lanes(b)[top])] == Pad8(c) && (b[top] < 128 ==> c == b && Lanes(b) == Pad8(b))
  {
    hide Or;
    LanesShort(b);
  }

  /** The decoder is exact on script numbers of at most eight bytes... */
  lemma ScriptNumberExact(b: Bytes)
    requires |b| <= 8
    ensures ScriptNumber(b) == SignMagnitude(b) && ScriptNumber(b) != INT64_MIN
  {
    hide Or;
    if b != [] {
      var top := |b| - 1;
      var c := b[..top] + [ClearTopBit(b[top])];
      assert top % 8 == top;
      SignByte(b);
      PaddingAddsNothing(c);
      assert Pad8(c)[7] < 128;
      FromLanesSmall(Pad8(c));
      WrapIdentity(0 - FromLanes(Pad8(c)));
    }
  }

  /** ...so every i64 travels through a minimal argument unchanged. Only the minimum needs nine
      bytes; the ninth wraps onto lane 0, where clearing its sign bit leaves 2^63 to negate. */
  lemma ScriptNumberRoundTrip(v: Int64)
    ensures ScriptNumber(ScriptNumberBytes(v)) == v
    ensures |ScriptNumberBytes(v)| <= 8 <==> v != INT64_MIN
  {
    hide ScriptNumber, MinimalBytes, FromLittleEndian;
    ScriptNumberBytesValue(v);
    if v != INT64_MIN {
      ScriptNumberLength(v);
      ScriptNumberExact(ScriptNumberBytes(v));
    } else {
      MinimumBytes();
      MinimumWraps();
    }
  }

  lemma MinimalLength(n: nat)
    requires n <= TWO_63
    ensures |MinimalBytes(n)| <= 8
    ensures |MinimalBytes(n)| == 8 ==> MinimalBytes(n) == LittleEndian(n, 8)
    ensures n == TWO_63 ==> |MinimalBytes(n)| == 8
  {
    hide FromLittleEndian, LittleEndian, Pow256;
    var m := MinimalBytes(n);
    Pow256Values();
    MinimalBytesValue(n);
    MinimalBytesBound(n, 8);
    FromLittleEndianRoundTrip(m);
    if |m| < 8 {
      Pow256Monotone(|m|, 7);
    }
  }

  lemma ScriptNumberLength(v: Int64)
    requires v != INT64_MIN
    ensures |ScriptNumberBytes(v)| <= 8
  {
    hide FromLittleEndian, LittleEndian, MinimalBytes;
    MinimalLength(Abs(v));
    MagnitudeBytes(Abs(v));
  }

  lemma MinimumBytes()
    ensures ScriptNumberBytes(INT64_MIN) == NEGATIVE_ZERO + [128]
  {
    hide FromLittleEndian, LittleEndian, MinimalBytes;
    MinimalLength(TWO_63);
    MagnitudeBytes(TWO_63);
  }

  lemma MinimumWraps()
    ensures ScriptNumber(NEGATIVE_ZERO + [128]) == INT64_MIN
  {
    hide Or;
    var b := NEGATIVE_ZERO + [128];
    assert b[..8] == NEGATIVE_ZERO;
    LanesShort(NEGATIVE_ZERO);
    assert Lanes(NEGATIVE_ZERO) == NEGATIVE_ZERO;
    OrZero(128);
    assert Lanes(b)[8 % 8 := ClearTopBit(Lanes(b)[8 % 8])] == NEGATIVE_ZERO;
    MagnitudeBytes(TWO_63);
  }

  lemma {:induction false} Pow256Monotone(j: nat, k: nat)
    requires j <= k
    ensures Pow256(j) <= Pow256(k)
  {
    if j < k {
      Pow256Monotone(j, k - 1);
    }
  }

  lemma {:induction false} MinimalBytesBound(n: nat, k: nat)
    requires n < Pow256(k)
    ensures |MinimalBytes(n)| <= k
  {
    if n > 0 {
      MinimalBytesBound(n / 256, k - 1);
    }
  }
}
