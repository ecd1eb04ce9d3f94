/** Registry transitions (kachat-names/src/transition.rs): which entry a dispatch tag calls, and the
    new states a spend asks for. Arithmetic on times wraps as a release build's i64 does. */
module Transition {
  import opened Base
  import opened States

  datatype Contract = GapContract | NameContract | OfferContract | PriceContract

  datatype Entry =
    | GapRegister | GapImport | GapMerge | GapAbsorbed
    | NameTransfer | NameList | NameBuy | NameRenew | NameExtend | NameRelease | NameReclaim
    | OfferAccept | OfferWithdraw | OfferRefund | OfferDecline
    | PriceUse | PriceUpdate | PriceFollow
  {
    function Contract(): Contract {
      match this
      case GapRegister | GapImport | GapMerge | GapAbsorbed => GapContract
      case NameTransfer | NameList | NameBuy | NameRenew | NameExtend | NameRelease | NameReclaim => NameContract
      case OfferAccept | OfferWithdraw | OfferRefund | OfferDecline => OfferContract
      case PriceUse | PriceUpdate | PriceFollow => PriceContract
    }
  }

  /** The pinned registry v2 tags, for a manifest that lists none. */
  function EntryForTag(tag: Bytes): Option<Entry> {
    if tag == [0x86, 0x67, 0xaf, 0x5e] then Some(GapRegister)
    else if tag == [0x63, 0xd2, 0x5b, 0xc2] then Some(GapMerge)
    else if tag == [0xda, 0xb7, 0x63, 0x55] then Some(GapAbsorbed)
    else if tag == [0x79, 0x4d, 0xca, 0x54] then Some(NameTransfer)
    else if tag == [0x67, 0x4a, 0x8e, 0xa4] then Some(NameList)
    else if tag == [0x76, 0xa0, 0x2e, 0xb9] then Some(NameBuy)
    else if tag == [0xb7, 0x06, 0xac, 0x38] then Some(NameRenew)
    else if tag == [0x2c, 0xe7, 0xcc, 0xeb] then Some(NameExtend)
    else if tag == [0x38, 0x8a, 0xd0, 0xb4] then Some(NameRelease)
    else if tag == [0xf5, 0x6a, 0xf4, 0xdf] then Some(NameReclaim)
    else if tag == [0x9d, 0x40, 0x43, 0xb4] then Some(OfferAccept)
    else if tag == [0x80, 0x34, 0x4f, 0xf1] then Some(OfferWithdraw)
    else if tag == [0x77, 0x7f, 0x5b, 0x11] then Some(OfferRefund)
    else None
  }

  /** The two gaps a gap splits into around a key. */
  function SplitGap(gap: GapState, key: Bytes32): (GapState, GapState) {
    (GapState(gap.lo, key), GapState(key, gap.hi))
  }

  function RegisteredName(key: Bytes32, name: Bytes, owner: Bytes32, now: Int64, years: Int64,
                          period: Int64): NameState {
    NameState(key, PadName(name), owner, 0, now, Wrap64(now + years * period))
  }

  function ImportedName(key: Bytes32, name: Bytes, owner: Bytes32, periodStart: Int64, expiresAt: Int64): NameState {
    NameState(key, PadName(name), owner, 0, periodStart, expiresAt)
  }

  /** `transfer`, `buy` and an offer's `accept`: a new owner, no longer for sale. */
  function Transfer(n: NameState, owner: Bytes32): NameState {
    n.(owner := owner, price := 0)
  }

  function List(n: NameState, price: Int64): NameState {
    n.(price := price)
  }

  function Renew(n: NameState, years: Int64, period: Int64): NameState {
    n.(periodStart := n.expiresAt, expiresAt := Wrap64(n.expiresAt + years * period))
  }

  function Extend(n: NameState, years: Int64, period: Int64): NameState {
    n.(expiresAt := Wrap64(n.expiresAt + years * period))
  }

  function MergeGaps(lo: GapState, hi: GapState): GapState {
    GapState(lo.lo, hi.hi)
  }

  // ------------------------------------------------------------------ laws --

  lemma WrapAdd(x: int, y: int)
    ensures Wrap64(Wrap64(x) + y) == Wrap64(x + y)
  {
    var k := (Wrap64(x) - x) / TWO_64;
    assert Wrap64(x) == x + k * TWO_64 by {
      assert x == TWO_64 * (x / TWO_64) + x % TWO_64;
    }
    assert (x + y + k * TWO_64) % TWO_64 == (x + y) % TWO_64 by {
      SameRemainder(x + y, k);
    }
  }

  lemma SameRemainder(x: int, k: int)
    ensures (x + k * TWO_64) % TWO_64 == x % TWO_64
  {
    var q, r := x / TWO_64, x % TWO_64;
    assert x + k * TWO_64 == (q + k) * TWO_64 + r;
    RemainderOf(q + k, r, x + k * TWO_64);
  }

  lemma RemainderOf(q: int, r: int, x: int)
    requires x == q * TWO_64 + r && 0 <= r < TWO_64
    ensures x % TWO_64 == r
  {
    var d := x / TWO_64;
    assert x == d * TWO_64 + x % TWO_64;
    assert (d - q) * TWO_64 == r - x % TWO_64;
  }

  /** How the transitions act on one another: merging undoes a split at any key, a sale ends a listing and
      the last owner stands, a listing and a renewal do not touch each other, and renewing for some
      years and extending by more is renewing for the sum, whatever wraps around. */
  lemma TransitionLaws(g: GapState, key: Bytes32, n: NameState, owner: Bytes32, price: Int64, a: Int64, b: Int64,
                       period: Int64)
    requires -TWO_63 <= a + b < TWO_63
    ensures MergeGaps(SplitGap(g, key).0, SplitGap(g, key).1) == g
    ensures Transfer(List(n, price), owner) == Transfer(n, owner) && Transfer(n, owner).price == 0
    ensures Transfer(n, owner).owner == owner && Transfer(Transfer(n, key), owner) == Transfer(n, owner)
    ensures n.price == 0 ==> Transfer(Transfer(n, owner), n.owner) == n
    ensures Renew(List(n, price), a, period) == List(Renew(n, a, period), price)
    ensures Extend(Renew(n, a, period), b, period) == Renew(n, a + b, period)
    ensures Renew(n, a, period).periodStart == n.expiresAt && Extend(n, a, period).periodStart == n.periodStart
  {
    WrapAdd(n.expiresAt + a * period, b * period);
    assert n.expiresAt + a * period + b * period == n.expiresAt + (a + b) * period;
  }
}
