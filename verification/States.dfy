/** The registry's contract states and their fixed byte layouts (kachat-names/src/lib.rs). */
module States {
  import opened Base
  import opened Codec

  datatype GapState = GapState(lo: Bytes32, hi: Bytes32)

  datatype NameState = NameState(key: Bytes32, name: Bytes32, owner: Bytes32,
                                 price: Int64, periodStart: Int64, expiresAt: Int64)

  /** `seller` is None for a registry v2 offer. */
  datatype OfferState = OfferState(key: Bytes32, buyer: Bytes32, seller: Option<Bytes32>, refundAfter: Int64)

  type Prices = p: seq<Int64> | |p| == 5 witness [0, 0, 0, 0, 0]

  datatype PriceState = PriceState(shard: Int64, authority: Bytes32, prices: Prices)

  // ------------------------------------------------------------------ layout --

  /** Every state is a run of fixed-size fields, each behind a byte holding its length
      (0x20 for keys, names and owners, 0x08 for numbers). */
  type Field = f: Bytes | |f| < 256

  function Layout(fields: seq<Field>): Bytes {
    if fields == [] then [] else [|fields[0]|] + fields[0] + Layout(fields[1..])
  }

  /** The fields of a state whose total length and length bytes are exactly `widths`. */
  function Fields(b: Bytes, widths: seq<Byte>): (r: Option<seq<Field>>)
    ensures r.Some? ==> |r.value| == |widths| && forall i :: 0 <= i < |widths| ==> |r.value[i]| == widths[i]
  {
    if widths == [] then if b == [] then Some([]) else None
    else
      var w: nat := widths[0];
      if |b| < 1 + w || b[0] != w then None
      else match Fields(b[1 + w..], widths[1..])
        case None => None
        case Some(rest) => Some([b[1..1 + w]] + rest)
  }

  function Widths(fields: seq<Field>): (w: seq<Byte>)
    ensures |w| == |fields|
  {
    seq(|fields|, i requires 0 <= i < |fields| => |fields[i]|)
  }

  lemma {:induction false} FieldsOfLayout(fields: seq<Field>)
    ensures Fields(Layout(fields), Widths(fields)) == Some(fields)
  {
    if fields != [] {
      var f, rest := fields[0], fields[1..];
      FieldsOfLayout(rest);
      var b := [|f|] + f + Layout(rest);
      assert b[1..1 + |f|] == f && b[1 + |f|..] == Layout(rest);
      assert Widths(fields)[1..] == Widths(rest);
      assert [f] + rest == fields;
    }
  }

  lemma LayoutFirst(f: Field, rest: seq<Field>)
    ensures Layout([f] + rest) == [|f|] + f + Layout(rest)
    ensures Widths([f] + rest) == [|f|] + Widths(rest)
  {
    assert ([f] + rest)[1..] == rest;
  }

  lemma {:induction false} LayoutOfFields(b: Bytes, widths: seq<Byte>)
    requires Fields(b, widths).Some?
    ensures Layout(Fields(b, widths).value) == b
    ensures Widths(Fields(b, widths).value) == widths
  {
    hide Layout, Widths;
    if widths == [] {
      NoFields();
    } else {
      var w: nat := widths[0];
      LayoutOfFields(b[1 + w..], widths[1..]);
      LayoutFirst(b[1..1 + w], Fields(b[1 + w..], widths[1..]).value);
      assert b == [w] + b[1..1 + w] + b[1 + w..];
      assert widths == [w] + widths[1..];
    }
  }

  lemma NoFields()
    ensures Layout([]) == [] && Widths([]) == []
  {
  }

  // ------------------------------------------------------------------ gap --

  const GAP_WIDTHS: seq<Byte> := [0x20, 0x20]

  function GapEncode(g: GapState): Bytes {
    Layout([g.lo, g.hi])
  }

  function GapDecode(b: Bytes): Option<GapState> {
    match Fields(b, GAP_WIDTHS)
    case None => None
    case Some(f) => Some(GapState(f[0], f[1]))
  }

  /** A gap always survives, and every gap state is the encoding of what it decodes to. */
  lemma GapRoundTrip(g: GapState, b: Bytes)
    ensures GapDecode(GapEncode(g)) == Some(g)
    ensures GapDecode(b).Some? ==> GapEncode(GapDecode(b).value) == b
  {
    FieldsOfLayout([g.lo, g.hi]);
    assert Widths([g.lo, g.hi]) == GAP_WIDTHS;
    if GapDecode(b).Some? {
      var f := Fields(b, GAP_WIDTHS).value;
      LayoutOfFields(b, GAP_WIDTHS);
      assert f == [f[0], f[1]];
    }
  }

  // ------------------------------------------------------------------ name --

  const NAME_WIDTHS: seq<Byte> := [0x20, 0x20, 0x20, 0x08, 0x08, 0x08]

  function NameFields(n: NameState): (f: seq<Field>)
    ensures Widths(f) == NAME_WIDTHS
  {
    [n.key, n.name, n.owner, Num8Encode(n.price), Num8Encode(n.periodStart), Num8Encode(n.expiresAt)]
  }

  function NameEncode(n: NameState): Bytes {
    Layout(NameFields(n))
  }

  function NameDecode(b: Bytes): Option<NameState> {
    match Fields(b, NAME_WIDTHS)
    case None => None
    case Some(f) => Some(NameState(f[0], f[1], f[2], Num8Decode(f[3]), Num8Decode(f[4]), Num8Decode(f[5])))
  }

  predicate NameEncodable(n: NameState) {
    n.price != INT64_MIN && n.periodStart != INT64_MIN && n.expiresAt != INT64_MIN
  }

  /** A name state survives encoding exactly when none of its numbers is the i64 minimum. */
  lemma NameRoundTrip(n: NameState)
    ensures NameDecode(NameEncode(n)).Some?
    ensures NameDecode(NameEncode(n)) == Some(n) <==> NameEncodable(n)
  {
    FieldsOfLayout(NameFields(n));
    Num8RoundTrip(n.price);
    Num8RoundTrip(n.periodStart);
    Num8RoundTrip(n.expiresAt);
  }

  lemma NameInjective(n: NameState, m: NameState)
    requires NameEncode(n) == NameEncode(m)
    ensures n == m
  {
    FieldsOfLayout(NameFields(n));
    FieldsOfLayout(NameFields(m));
    assert NameFields(n)[3] == NameFields(m)[3] && NameFields(n)[4] == NameFields(m)[4]
        && NameFields(n)[5] == NameFields(m)[5];
    Num8Injective(n.price, m.price);
    Num8Injective(n.periodStart, m.periodStart);
    Num8Injective(n.expiresAt, m.expiresAt);
    assert n.key == NameFields(n)[0] && n.name == NameFields(n)[1] && n.owner == NameFields(n)[2];
  }

  /** Name bytes free of negative zeros are the encoding of what they decode to. */
  lemma NameBytesRoundTrip(b: Bytes)
    requires NameDecode(b).Some?
    requires NEGATIVE_ZERO !in Fields(b, NAME_WIDTHS).value
    ensures NameEncode(NameDecode(b).value) == b
  {
    hide Num8Encode, Num8Decode, Fields, Layout;
    var f := Fields(b, NAME_WIDTHS).value;
    LayoutOfFields(b, NAME_WIDTHS);
    assert f[3] in f && f[4] in f && f[5] in f;
    Num8BytesRoundTrip(f[3]);
    Num8BytesRoundTrip(f[4]);
    Num8BytesRoundTrip(f[5]);
    assert NameFields(NameDecode(b).value) == f;
  }

  // ------------------------------------------------------------------ offer --

  const OFFER_WIDTHS_V2: seq<Byte> := [0x20, 0x20, 0x08]
  const OFFER_WIDTHS_V3: seq<Byte> := [0x20, 0x20, 0x20, 0x08]

  function OfferFields(o: OfferState): (f: seq<Field>)
    ensures Widths(f) == if o.seller.None? then OFFER_WIDTHS_V2 else OFFER_WIDTHS_V3
  {
    match o.seller
    case None => [o.key, o.buyer, Num8Encode(o.refundAfter)]
    case Some(seller) => [o.key, o.buyer, seller, Num8Encode(o.refundAfter)]
  }

  function OfferEncode(o: OfferState): Bytes {
    Layout(OfferFields(o))
  }

  function OfferDecode(b: Bytes): Option<OfferState> {
    match Fields(b, OFFER_WIDTHS_V2)
    case Some(f) => Some(OfferState(f[0], f[1], None, Num8Decode(f[2])))
    case None =>
      match Fields(b, OFFER_WIDTHS_V3)
      case Some(f) => Some(OfferState(f[0], f[1], Some(f[2]), Num8Decode(f[3])))
      case None => None
  }

  lemma {:induction false} LayoutLength(b: Bytes, widths: seq<Byte>)
    requires Fields(b, widths).Some?
    ensures |b| == Total(widths)
  {
    if widths != [] {
      LayoutLength(b[1 + widths[0]..], widths[1..]);
    }
  }

  function Total(widths: seq<Byte>): nat {
    if widths == [] then 0 else 1 + widths[0] + Total(widths[1..])
  }

  /** The two layouts are told apart by their length (75 and 108 bytes). */
  lemma OfferLayoutsDiffer(b: Bytes)
    ensures Fields(b, OFFER_WIDTHS_V2).None? || Fields(b, OFFER_WIDTHS_V3).None?
  {
    assert OFFER_WIDTHS_V3[1..][1..] == [0x20, 0x08] && OFFER_WIDTHS_V2[1..][1..] == [0x08];
    if Fields(b, OFFER_WIDTHS_V2).Some? && Fields(b, OFFER_WIDTHS_V3).Some? {
      LayoutLength(b, OFFER_WIDTHS_V2);
      LayoutLength(b, OFFER_WIDTHS_V3);
    }
  }

  /** Either offer survives exactly when its refund score is not the i64 minimum. */
  lemma OfferRoundTrip(o: OfferState)
    ensures OfferDecode(OfferEncode(o)).Some?
    ensures OfferDecode(OfferEncode(o)) == Some(o) <==> o.refundAfter != INT64_MIN
  {
    FieldsOfLayout(OfferFields(o));
    OfferLayoutsDiffer(OfferEncode(o));
    Num8RoundTrip(o.refundAfter);
  }

  lemma OfferInjective(o: OfferState, p: OfferState)
    requires OfferEncode(o) == OfferEncode(p)
    ensures o == p
  {
    FieldsOfLayout(OfferFields(o));
    FieldsOfLayout(OfferFields(p));
    OfferLayoutsDiffer(OfferEncode(o));
    var f, g := OfferFields(o), OfferFields(p);
    assert f == g;
    assert f[|f| - 1] == g[|g| - 1] && f[0] == g[0] && f[1] == g[1] && f[2] == g[2];
    Num8Injective(o.refundAfter, p.refundAfter);
  }

  // ------------------------------------------------------------------ price shard --

  const PRICE_WIDTHS: seq<Byte> := [0x08, 0x20, 0x08, 0x08, 0x08, 0x08, 0x08]

  function PriceFields(p: PriceState): (f: seq<Field>)
    ensures Widths(f) == PRICE_WIDTHS
  {
    [Num8Encode(p.shard), p.authority, Num8Encode(p.prices[0]), Num8Encode(p.prices[1]), Num8Encode(p.prices[2]),
     Num8Encode(p.prices[3]), Num8Encode(p.prices[4])]
  }

  function PriceEncode(p: PriceState): Bytes {
    Layout(PriceFields(p))
  }

  function PriceDecode(b: Bytes): Option<PriceState> {
    match Fields(b, PRICE_WIDTHS)
    case None => None
    case Some(f) => Some(PriceState(Num8Decode(f[0]), f[1], PricesOf(f[2..])))
  }

  function PricesOf(numbers: seq<Field>): Prices
    requires |numbers| == 5 && forall i :: 0 <= i < 5 ==> |numbers[i]| == 8
  {
    [Num8Decode(numbers[0]), Num8Decode(numbers[1]), Num8Decode(numbers[2]), Num8Decode(numbers[3]),
     Num8Decode(numbers[4])]
  }

  predicate PriceEncodable(p: PriceState) {
    p.shard != INT64_MIN && forall i :: 0 <= i < 5 ==> p.prices[i] != INT64_MIN
  }

  /** A price shard survives encoding exactly when none of its numbers is the i64 minimum. */
  lemma PriceRoundTrip(p: PriceState)
    ensures PriceDecode(PriceEncode(p)).Some?
    ensures PriceDecode(PriceEncode(p)) == Some(p) <==> PriceEncodable(p)
  {
    hide Num8Encode, Num8Decode;
    FieldsOfLayout(PriceFields(p));
    Num8RoundTrip(p.shard);
    forall i | 0 <= i < 5 ensures Num8Decode(Num8Encode(p.prices[i])) == p.prices[i] <==> p.prices[i] != INT64_MIN {
      Num8RoundTrip(p.prices[i]);
    }
    var q := PriceDecode(PriceEncode(p)).value;
    assert q.prices == p.prices <==> forall i :: 0 <= i < 5 ==> q.prices[i] == p.prices[i];
  }

  /** The encoder's loop over the prices. */
  method EncodePrice(p: PriceState) returns (out: Bytes)
    ensures out == PriceEncode(p)
  {
    ghost var fields := PriceFields(p);
    out := [0x08] + Num8Encode(p.shard) + [0x20] + p.authority;
    LayoutPrefix(fields[..2]);
    for i := 0 to 5
      invariant out == Layout(fields[..i + 2])
    {
      assert fields[..i + 3] == fields[..i + 2] + [Num8Encode(p.prices[i])];
      LayoutAppend(fields[..i + 2], Num8Encode(p.prices[i]));
      out := out + [0x08] + Num8Encode(p.prices[i]);
    }
    assert fields[..7] == fields;
  }

  lemma LayoutPrefix(two: seq<Field>)
    requires |two| == 2
    ensures Layout(two) == [|two[0]|] + two[0] + [|two[1]|] + two[1]
  {
    assert two[1..] == [two[1]] && two[1..][1..] == [];
    assert Layout(two[1..]) == [|two[1]|] + two[1] + [];
  }

  lemma {:induction false} LayoutAppend(fields: seq<Field>, last: Field)
    ensures Layout(fields + [last]) == Layout(fields) + [|last|] + last
  {
    if fields == [] {
      assert [] + [last] == [last] && [last][1..] == [];
    } else {
      assert (fields + [last])[1..] == fields[1..] + [last];
      LayoutAppend(fields[1..], last);
    }
  }

  method DecodePrice(b: Bytes) returns (r: Option<PriceState>)
    ensures r == PriceDecode(b)
  {
    hide Num8Decode;
    var f := Fields(b, PRICE_WIDTHS);
    if f.None? {
      return None;
    }
    var prices: seq<Int64> := [];
    for t := 0 to 5
      invariant |prices| == t && forall k :: 0 <= k < t ==> prices[k] == Num8Decode(f.value[k + 2])
    {
      prices := prices + [Num8Decode(f.value[t + 2])];
    }
    assert prices == [prices[0], prices[1], prices[2], prices[3], prices[4]];
    return Some(PriceState(Num8Decode(f.value[0]), f.value[1], prices));
  }

  // ------------------------------------------------------------------ the layouts --

  /** The bytes of each state, field by field behind its width. */
  lemma StateBytes(g: GapState, n: NameState, o: OfferState, p: PriceState)
    ensures GapEncode(g) == [0x20] + g.lo + [0x20] + g.hi
    ensures NameEncode(n)
        == [0x20] + n.key + [0x20] + n.name + [0x20] + n.owner + [0x08] + Num8Encode(n.price)
           + [0x08] + Num8Encode(n.periodStart) + [0x08] + Num8Encode(n.expiresAt)
    ensures OfferEncode(o)
        == [0x20] + o.key + [0x20] + o.buyer + (if o.seller.Some? then [0x20] + o.seller.value else [])
           + [0x08] + Num8Encode(o.refundAfter)
    ensures PriceEncode(p)
        == [0x08] + Num8Encode(p.shard) + [0x20] + p.authority + [0x08] + Num8Encode(p.prices[0])
           + [0x08] + Num8Encode(p.prices[1]) + [0x08] + Num8Encode(p.prices[2]) + [0x08] + Num8Encode(p.prices[3])
           + [0x08] + Num8Encode(p.prices[4])
  {
    hide Layout, Num8Encode;
    TwoFields(g.lo, g.hi);
    NameBytes(n);
    OfferBytes(o);
    PriceBytes(p);
  }

  lemma NameBytes(n: NameState)
    ensures NameEncode(n)
        == [0x20] + n.key + [0x20] + n.name + [0x20] + n.owner + [0x08] + Num8Encode(n.price)
           + [0x08] + Num8Encode(n.periodStart) + [0x08] + Num8Encode(n.expiresAt)
  {
    hide Layout, Num8Encode;
    var f := NameFields(n);
    assert f == [f[0], f[1], f[2]] + f[3..] && f[3..] == [f[3], f[4], f[5]] + [];
    ThreeFields(f[0], f[1], f[2], f[3..]);
    ThreeFields(f[3], f[4], f[5], []);
    NoFields();
  }

  lemma OfferBytes(o: OfferState)
    ensures OfferEncode(o)
        == [0x20] + o.key + [0x20] + o.buyer + (if o.seller.Some? then [0x20] + o.seller.value else [])
           + [0x08] + Num8Encode(o.refundAfter)
  {
    hide Layout, Num8Encode;
    var last := Num8Encode(o.refundAfter);
    if o.seller.None? {
      ThreeFields(o.key, o.buyer, last, []);
      assert OfferFields(o) == [o.key, o.buyer, last] + [];
      NoFields();
    } else {
      ThreeFields(o.key, o.buyer, o.seller.value, [last]);
      OneField(last);
      assert OfferFields(o) == [o.key, o.buyer, o.seller.value] + [last];
    }
  }

  lemma PriceBytes(p: PriceState)
    ensures PriceEncode(p)
        == [0x08] + Num8Encode(p.shard) + [0x20] + p.authority + [0x08] + Num8Encode(p.prices[0])
           + [0x08] + Num8Encode(p.prices[1]) + [0x08] + Num8Encode(p.prices[2]) + [0x08] + Num8Encode(p.prices[3])
           + [0x08] + Num8Encode(p.prices[4])
  {
    hide Layout, Num8Encode;
    var f := PriceFields(p);
    assert f == [f[0], f[1], f[2]] + f[3..] && f[3..] == [f[3], f[4], f[5]] + f[6..] && f[6..] == [f[6]];
    ThreeFields(f[0], f[1], f[2], f[3..]);
    ThreeFields(f[3], f[4], f[5], f[6..]);
    OneField(f[6]);
  }

  lemma TwoFields(a: Field, b: Field)
    ensures Layout([a, b]) == [|a|] + a + [|b|] + b
  {
    hide Layout;
    assert [a, b] == [a] + [b];
    LayoutFirst(a, [b]);
    OneField(b);
  }

  lemma OneField(f: Field)
    ensures Layout([f]) == [|f|] + f
  {
    LayoutFirst(f, []);
    assert [f] + [] == [f];
    NoFields();
  }

  lemma ThreeFields(a: Field, b: Field, c: Field, rest: seq<Field>)
    ensures Layout([a, b, c] + rest) == [|a|] + a + [|b|] + b + [|c|] + c + Layout(rest)
  {
    hide Layout;
    assert [a, b, c] + rest == [a] + ([b] + ([c] + rest));
    LayoutFirst(a, [b] + ([c] + rest));
    LayoutFirst(b, [c] + rest);
    LayoutFirst(c, rest);
  }

  // ------------------------------------------------------------------ names --

  /** A name zero-padded (or cut) to 32 bytes. */
  function PadName(name: Bytes): Bytes32 {
    if |name| >= 32 then name[..32] else name + seq(32 - |name|, i => 0)
  }

  /** The bytes before the first zero (`name_str` up to its text decoding). */
  function TrimName(padded: Bytes): (name: Bytes)
    ensures name <= padded && 0 !in name
  {
    if padded == [] || padded[0] == 0 then [] else [padded[0]] + TrimName(padded[1..])
  }

  predicate NameByte(c: Byte) {
    'a' as int <= c <= 'z' as int || '0' as int <= c <= '9' as int || c == '-' as int
  }

  /** `a-z 0-9 -`, 1 to 32 bytes, no hyphen at either end. */
  predicate IsValidName(name: Bytes) {
    0 < |name| <= 32 && name[0] != '-' as int && name[|name| - 1] != '-' as int && forall c :: c in name ==> NameByte(c)
  }

  lemma {:induction false} TrimOfPadded(name: Bytes, zeros: Bytes)
    requires 0 !in name && forall c :: c in zeros ==> c == 0
    ensures TrimName(name + zeros) == name
  {
    if name == [] {
      assert name + zeros == zeros;
      assert zeros != [] ==> zeros[0] in zeros;
    } else {
      assert name[0] in name;
      assert (name + zeros)[1..] == name[1..] + zeros;
      TrimOfPadded(name[1..], zeros);
    }
  }

  /** Valid names are recovered from their padding, so distinct names have distinct paddings. */
  lemma PaddingRoundTrip(name: Bytes)
    requires IsValidName(name)
    ensures TrimName(PadName(name)) == name
  {
    var zeros: Bytes := seq(32 - |name|, i => 0);
    assert PadName(name) == name + zeros;
    TrimOfPadded(name, zeros);
  }
}
