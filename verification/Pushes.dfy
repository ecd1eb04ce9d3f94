/** Push-only scripts (kachat-names/src/lib.rs): the parser, its printer, and the split of a
    contract's signature script into arguments, dispatch tag and redeem script. */
module Pushes {
  import opened Base
  import opened Codec
  import opened Script

  /** One token: a number op (OP_0, OP_1NEGATE, OP_1..OP_16) or a data push. */
  datatype Push = Num(n: Int64) | Data(d: Bytes) {
    function Bytes(): Option<Bytes> {
      if Data? then Some(d) else None
    }

    function Int(): Int64 {
      match this
      case Num(n) => n
      case Data(d) => ScriptNumber(d)
    }
  }

  // ------------------------------------------------------------------ one token --

  function Slice(s: Bytes, from: nat, n: nat): Option<(Push, nat)> {
    if |s| < from + n then None else Some((Data(s[from..from + n]), from + n))
  }

  /** A data push whose length is written in `width` little-endian bytes after the opcode. */
  function Sized(s: Bytes, width: nat): Option<(Push, nat)> {
    if |s| < 1 + width then None else Slice(s, 1 + width, FromLittleEndian(s[1..1 + width]))
  }

  /** The first token of a non-empty script and how many bytes it takes. */
  function FirstPush(s: Bytes): (r: Option<(Push, nat)>)
    requires s != []
    ensures r.Some? ==> 0 < r.value.1 <= |s|
  {
    var op := s[0];
    if op == 0x00 then Some((Num(0), 1))
    else if op == 0x4f then Some((Num(-1), 1))
    else if 0x51 <= op <= 0x60 then Some((Num(op - 0x50), 1))
    else if 0x01 <= op <= 0x4b then Slice(s, 1, op)
    else if op == 0x4c then Sized(s, 1)
    else if op == 0x4d then Sized(s, 2)
    else if op == 0x4e then Sized(s, 4)
    else None
  }

  /** All tokens of a script; None on a non-push opcode or a truncated push. */
  function Tokens(s: Bytes): Option<seq<Push>>
    decreases |s|
  {
    if s == [] then Some([])
    else match FirstPush(s)
      case None => None
      case Some((p, k)) =>
        match Tokens(s[k..])
        case None => None
        case Some(rest) => Some([p] + rest)
  }

  function Prepend(done: seq<Push>, rest: Option<seq<Push>>): Option<seq<Push>> {
    match rest
    case None => None
    case Some(ps) => Some(done + ps)
  }

  lemma PrependAssociative(a: seq<Push>, b: seq<Push>, rest: Option<seq<Push>>)
    ensures Prepend([], rest) == rest
    ensures Prepend(a, Prepend(b, rest)) == Prepend(a + b, rest)
  {
    if rest.Some? {
      assert [] + rest.value == rest.value;
      assert a + (b + rest.value) == (a + b) + rest.value;
    }
  }

  /** One step of the parser, in terms of the tokens already read. */
  lemma TokensStep(s: Bytes, p: Push, k: nat)
    requires s != [] && FirstPush(s) == Some((p, k))
    ensures Tokens(s) == Prepend([p], Tokens(s[k..]))
  {
  }

  /** Reads the push whose opcode is at `i`: the token and the cursor after it. */
  method ReadPush(script: Bytes, i: nat) returns (r: Option<(Push, nat)>)
    requires i < |script|
    ensures var first := FirstPush(script[i..]);
            r == if first.None? then None else Some((first.value.0, i + first.value.1))
  {
    ghost var s := script[i..];
    var op, at := script[i], i + 1;
    var n: nat;
    if op == 0x00 || op == 0x4f || 0x51 <= op <= 0x60 {
      return Some((Num(if op == 0x00 then 0 else if op == 0x4f then -1 else op - 0x50), at));
    } else if 0x01 <= op <= 0x4b {
      n := op;
    } else if op == 0x4c || op == 0x4d || op == 0x4e {
      var width := if op == 0x4c then 1 else if op == 0x4d then 2 else 4;
      if |script| < at + width {
        return None;
      }
      SliceOfDrop(script, i, 1, 1 + width);
      n := FromLittleEndian(script[at..at + width]);
      at := at + width;
    } else {
      return None;
    }
    if |script| < at + n {
      return None;
    }
    SliceOfDrop(script, i, at - i, at - i + n);
    return Some((Data(script[at..at + n]), at + n));
  }

  /** The parser's loop: a cursor over the script, one push at a time. */
  method ParsePushes(script: Bytes) returns (r: Option<seq<Push>>)
    ensures r == Tokens(script)
  {
    var out: seq<Push> := [];
    var i := 0;
    assert script[0..] == script;
    PrependAssociative([], [], Tokens(script));
    while i < |script|
      invariant 0 <= i <= |script|
      invariant Tokens(script) == Prepend(out, Tokens(script[i..]))
    {
      var read := ReadPush(script, i);
      if read.None? {
        return None;
      }
      var (p, next) := read.value;
      assert script[i..][next - i..] == script[next..];
      TokensStep(script[i..], p, next - i);
      PrependAssociative(out, [p], Tokens(script[next..]));
      out, i := out + [p], next;
    }
    assert script[i..] == [] && out + [] == out;
    return Some(out);
  }

  // ------------------------------------------------------------------ the printer --

  /** The tokens a printer can write: the number ops, and non-empty data below 2^32 bytes. */
  predicate Printable(p: Push) {
    match p
    case Num(n) => -1 <= n <= 16
    case Data(d) => 0 < |d| < 0x1_0000_0000
  }

  /** The minimal form of a token: the shortest opcode that carries it (BIP 62, "Push operators"). */
  function Print(p: Push): (s: Bytes)
    requires Printable(p)
    ensures s != []
  {
    match p
    case Num(n) => [if n == 0 then 0x00 else if n == -1 then 0x4f else 0x50 + n]
    case Data(d) => Header(|d|) + d
  }

  function Header(n: nat): (h: Bytes)
    requires 0 < n < 0x1_0000_0000
    ensures 0 < |h| <= 5
  {
    if n <= 75 then [n]
    else if n <= 0xff then [0x4c] + LittleEndian(n, 1)
    else if n <= 0xffff then [0x4d] + LittleEndian(n, 2)
    else [0x4e] + LittleEndian(n, 4)
  }

  function PrintAll(ps: seq<Push>): Bytes
    requires forall p :: p in ps ==> Printable(p)
  {
    if ps == [] then [] else Print(ps[0]) + PrintAll(ps[1..])
  }

  lemma SizedOf(op: Byte, n: nat, width: nat, rest: Bytes)
    requires n < Pow256(width)
    ensures Sized([op] + LittleEndian(n, width) + rest, width)
            == if |rest| < n then None else Some((Data(rest[..n]), 1 + width + n))
  {
    hide LittleEndian, FromLittleEndian, Pow256;
    var s := [op] + LittleEndian(n, width) + rest;
    LittleEndianRoundTrip(n, width);
    assert s[1..1 + width] == LittleEndian(n, width);
    if |rest| >= n {
      assert s[1 + width..1 + width + n] == rest[..n];
    }
  }

  /** A header in front of enough bytes is read back; in front of fewer, the push is refused. */
  lemma FirstPushOfHeader(n: nat, rest: Bytes)
    requires 0 < n < 0x1_0000_0000
    ensures FirstPush(Header(n) + rest) == if |rest| < n then None else Some((Data(rest[..n]), |Header(n)| + n))
  {
    hide Sized, LittleEndian, FromLittleEndian, Pow256;
    var s := Header(n) + rest;
    Pow256Values();
    if n <= 75 {
      assert |rest| >= n ==> s[1..1 + n] == rest[..n];
    } else {
      var width := if n <= 0xff then 1 else if n <= 0xffff then 2 else 4;
      SizedOf(s[0], n, width, rest);
      assert s == [s[0]] + LittleEndian(n, width) + rest;
    }
  }

  lemma FirstPushOfCutHeader(n: nat, k: nat)
    requires 0 < n < 0x1_0000_0000 && 0 < k < |Header(n)|
    ensures FirstPush(Header(n)[..k]).None?
  {
    hide FromLittleEndian, LittleEndian;
  }

  lemma FirstPushOfOp(n: Int64, rest: Bytes)
    requires -1 <= n <= 16
    ensures FirstPush(Print(Num(n)) + rest) == Some((Num(n), 1))
  {
    hide Sized, Slice;
    var s := Print(Num(n)) + rest;
    assert s[0] == Print(Num(n))[0];
  }

  lemma FirstPushOfPrint(p: Push, rest: Bytes)
    requires Printable(p)
    ensures FirstPush(Print(p) + rest) == Some((p, |Print(p)|))
  {
    hide FirstPush, Header;
    match p
    case Num(n) => FirstPushOfOp(n, rest);
    case Data(d) =>
      FirstPushOfHeader(|d|, d + rest);
      assert Print(p) + rest == Header(|d|) + (d + rest);
      assert (d + rest)[..|d|] == d;
  }

  /** The parser inverts the printer on every token list, whatever follows it. */
  lemma {:induction false} TokensOfPrint(ps: seq<Push>, rest: Bytes)
    requires forall p :: p in ps ==> Printable(p)
    ensures Tokens(PrintAll(ps) + rest) == Prepend(ps, Tokens(rest))
  {
    hide FirstPush, Print;
    if ps == [] {
      assert PrintAll(ps) + rest == rest;
      PrependAssociative([], [], Tokens(rest));
    } else {
      var head, tail := Print(ps[0]), PrintAll(ps[1..]) + rest;
      assert PrintAll(ps) + rest == head + tail;
      FirstPushOfPrint(ps[0], tail);
      assert (head + tail)[|head|..] == tail;
      TokensStep(head + tail, ps[0], |head|);
      TokensOfPrint(ps[1..], rest);
      PrependAssociative([ps[0]], ps[1..], Tokens(rest));
      assert [ps[0]] + ps[1..] == ps;
    }
  }

  /** More bytes after a complete first token do not change it. */
  lemma FirstPushLocal(a: Bytes, b: Bytes)
    requires a != [] && FirstPush(a).Some?
    ensures FirstPush(a + b) == FirstPush(a)
  {
    var s := a + b;
    assert forall i, j :: 0 <= i <= j <= |a| ==> s[i..j] == a[i..j];
  }

  /** Concatenating scripts concatenates their tokens. */
  lemma {:induction false} TokensOfConcat(a: Bytes, b: Bytes)
    requires Tokens(a).Some?
    ensures Tokens(a + b) == Prepend(Tokens(a).value, Tokens(b))
    decreases |a|
  {
    if a == [] {
      assert a + b == b;
      PrependAssociative([], [], Tokens(b));
    } else {
      FirstPushLocal(a, b);
      var (p, k) := FirstPush(a).value;
      assert (a + b)[k..] == a[k..] + b;
      TokensOfConcat(a[k..], b);
      TokensStep(a + b, p, k);
      PrependAssociative([p], Tokens(a[k..]).value, Tokens(b));
    }
  }

  /** A script cut inside its last token is refused. */
  lemma TruncationRefused(ps: seq<Push>, last: Push, k: nat)
    requires forall p :: p in ps ==> Printable(p)
    requires Printable(last) && 0 < k < |Print(last)|
    ensures Tokens(PrintAll(ps) + Print(last)[..k]) == None
  {
    hide FirstPush, Header, PrintAll;
    var cut := Print(last)[..k];
    TokensOfPrint(ps, cut);
    var h := Header(|last.d|);
    if k >= |h| {
      assert cut == h + last.d[..k - |h|];
      FirstPushOfHeader(|last.d|, last.d[..k - |h|]);
    } else {
      assert cut == h[..k];
      FirstPushOfCutHeader(|last.d|, k);
    }
  }

  // ------------------------------------------------------------------ signature scripts --

  datatype SigScript = SigScript(args: seq<Push>, tag: Bytes, redeem: Bytes)

  /** The last two pushes are the 4-byte dispatch tag and the redeem script; the rest are arguments. */
  function SplitSignature(ps: seq<Push>): Option<SigScript> {
    var n := |ps|;
    if n == 0 || ps[n - 1].Num? then None
    else if n == 1 || ps[n - 2].Num? || |ps[n - 2].d| != 4 then None
    else Some(SigScript(ps[..n - 2], ps[n - 2].d, ps[n - 1].d))
  }

  function SignatureOf(script: Bytes): Option<SigScript> {
    match Tokens(script)
    case None => None
    case Some(ps) => SplitSignature(ps)
  }

  method DecodeSigScript(script: Bytes) returns (r: Option<SigScript>)
    ensures r == SignatureOf(script)
  {
    var parsed := ParsePushes(script);
    if parsed.None? {
      return None;
    }
    return SplitSignature(parsed.value);
  }

  lemma NoTokens()
    ensures Tokens([]) == Some([])
  {
  }

  lemma PrintPair(p: Push, q: Push)
    requires Printable(p) && Printable(q)
    ensures PrintAll([p, q]) == Print(p) + Print(q)
  {
    assert [p, q][1..] == [q];
    assert PrintAll([q]) == Print(q) + [];
  }

  /** Exactly the printed arguments, tag and redeem script come back. */
  lemma SignatureRoundTrip(args: seq<Push>, tag: Bytes, redeem: Bytes)
    requires forall p :: p in args ==> Printable(p)
    requires |tag| == 4 && 0 < |redeem| < 0x1_0000_0000
    ensures SignatureOf(PrintAll(args) + Print(Data(tag)) + Print(Data(redeem))) == Some(SigScript(args, tag, redeem))
  {
    hide FirstPush, Print, PrintAll, Tokens;
    var tail := [Data(tag), Data(redeem)];
    var printed := Print(Data(tag)) + Print(Data(redeem));
    PrintPair(Data(tag), Data(redeem));
    assert PrintAll(args) + Print(Data(tag)) + Print(Data(redeem)) == PrintAll(args) + printed;
    TokensOfPrint(tail, []);
    NoTokens();
    assert printed + [] == printed && tail + [] == tail;
    TokensOfPrint(args, printed);
    assert (args + tail)[..|args|] == args;
  }
}
