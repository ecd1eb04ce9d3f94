/** The two text forms the store uses: hexadecimal for bytes, decimal for numbers. */
module Text {
  import opened Base

  // ------------------------------------------------------------------ hexadecimal --

  const DIGITS: string := "0123456789abcdef"

  function HexValue(c: char): Option<nat> {
    if '0' <= c <= '9' then Some(c as nat - '0' as nat)
    else if 'a' <= c <= 'f' then Some(c as nat - 'a' as nat + 10)
    else if 'A' <= c <= 'F' then Some(c as nat - 'A' as nat + 10)
    else None
  }

  function HexEncode(b: Bytes): string {
    if b == [] then "" else [DIGITS[b[0] / 16], DIGITS[b[0] % 16]] + HexEncode(b[1..])
  }

  function HexDecode(s: string): Option<Bytes> {
    if s == "" then Some([])
    else if |s| == 1 then None
    else
      var (high, low, rest) := (HexValue(s[0]), HexValue(s[1]), HexDecode(s[2..]));
      if high.None? || low.None? || rest.None? || high.value >= 16 || low.value >= 16 then None
      else Some([16 * high.value + low.value] + rest.value)
  }

  lemma DigitValue(n: nat)
    requires n < 16
    ensures HexValue(DIGITS[n]) == Some(n)
  {
  }

  lemma {:induction false} HexRoundTrip(b: Bytes)
    ensures HexDecode(HexEncode(b)) == Some(b)
  {
    if b != [] {
      DigitValue(b[0] / 16);
      DigitValue(b[0] % 16);
      HexRoundTrip(b[1..]);
      assert HexEncode(b)[2..] == HexEncode(b[1..]);
      assert b == [b[0]] + b[1..];
    }
  }

  // ------------------------------------------------------------------ decimal --

  function DecimalDigits(n: nat): (s: string)
    ensures s != "" && forall c :: c in s ==> '0' <= c <= '9'
  {
    var last := ('0' as nat + n % 10) as char;
    if n < 10 then [last] else DecimalDigits(n / 10) + [last]
  }

  /** `i64::to_string`. */
  function Decimal(x: int): (s: string)
    ensures s != "" && forall c :: c in s ==> c != ','
  {
    if x < 0 then "-" + DecimalDigits(-x) else DecimalDigits(x)
  }

  function DigitsValue(s: string): Option<nat> {
    if s == "" then Some(0)
    else
      var (init, last) := (DigitsValue(s[..|s| - 1]), s[|s| - 1]);
      if init.None? || !('0' <= last <= '9') then None else Some(10 * init.value + (last as nat - '0' as nat))
  }

  /** `str::parse::<i64>`: an optional sign, at least one digit, in range. */
  function ParseInt64(s: string): Option<Int64> {
    var signed := s != "" && (s[0] == '-' || s[0] == '+');
    var digits := if signed then s[1..] else s;
    match DigitsValue(digits)
    case None => None
    case Some(n) =>
      var x: int := if signed && s[0] == '-' then -(n as int) else n;
      if digits == "" || x < -TWO_63 || x >= TWO_63 then None else Some(x)
  }

  lemma {:induction false} DigitsRoundTrip(n: nat)
    ensures DigitsValue(DecimalDigits(n)) == Some(n)
  {
    if n >= 10 {
      DigitsRoundTrip(n / 10);
      var s := DecimalDigits(n);
      assert s[..|s| - 1] == DecimalDigits(n / 10);
    }
  }

  lemma DecimalRoundTrip(x: Int64)
    ensures ParseInt64(Decimal(x)) == Some(x)
  {
    hide DecimalDigits, DigitsValue;
    var v: int := x;
    var n: nat := if v < 0 then -v else v;
    var digits := DecimalDigits(n);
    DigitsRoundTrip(n);
    assert digits[0] in digits;
    assert v < 0 ==> Decimal(x)[0] == '-' && Decimal(x)[1..] == digits;
  }

  // ------------------------------------------------------------------ lists of numbers --

  /** `join(",")` of the numbers' texts. */
  function JoinNumbers(xs: seq<Int64>): string {
    if xs == [] then ""
    else if |xs| == 1 then Decimal(xs[0])
    else Decimal(xs[0]) + "," + JoinNumbers(xs[1..])
  }

  /** `split(',')`: the part before the first comma and the rest, or the whole. */
  function FirstComma(s: string): (k: nat)
    ensures k <= |s| && (k < |s| ==> s[k] == ',') && ',' !in s[..k]
  {
    if s == "" || s[0] == ',' then 0 else 1 + FirstComma(s[1..])
  }

  /** The parts of a comma-separated text that are numbers. */
  function SplitNumbers(s: string): seq<Int64> {
    var k := FirstComma(s);
    var x := ParseInt64(s[..k]);
    (if x.Some? then [x.value] else []) + if k == |s| then [] else SplitNumbers(s[k + 1..])
  }

  lemma {:induction false} CommaAfter(a: string, b: string)
    requires ',' !in a
    ensures FirstComma(a) == |a| && FirstComma(a + "," + b) == |a|
  {
    if a == "" {
      assert a + "," + b == "," + b;
    } else {
      assert a[0] in a;
      assert (a + "," + b)[1..] == a[1..] + "," + b;
      CommaAfter(a[1..], b);
    }
  }

  lemma {:induction false} NumbersRoundTrip(xs: seq<Int64>)
    requires xs != []
    ensures SplitNumbers(JoinNumbers(xs)) == xs
  {
    DecimalRoundTrip(xs[0]);
    var first := Decimal(xs[0]);
    if |xs| == 1 {
      CommaAfter(first, "");
      assert first[..|first|] == first;
    } else {
      var rest := JoinNumbers(xs[1..]);
      CommaAfter(first, rest);
      NumbersRoundTrip(xs[1..]);
      var s := first + "," + rest;
      assert s[..|first|] == first && s[|first| + 1..] == rest;
    }
  }
}
