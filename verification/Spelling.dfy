/** Every way of writing a JSON string (RFC 8259, section 7): each character as itself, by its letter or in
    hexadecimal with digits of either case, one or two escapes long; and what the reader makes of it. */
module Spelling {
  import opened Domain
  import opened Json
  import opened Framing

  // ---------------------------------------------------------------- the ways of writing

  /** Which of four hexadecimal digits are capital. */
  datatype Case = Case(a: bool, b: bool, c: bool, d: bool)

  /** One character as it is; by its letter; by its code of four digits, which may be half of a pair; or
      by a pair. */
  datatype Written =
    | Raw(u: Unit)
    | Letter(u: Unit)
    | Hex(code: nat, digits: Case)
    | Pair(u: Unit, high: Case, low: Case)

  function Digit(d: nat, capital: bool): Unit
    requires d < 16
  {
    (if capital then "0123456789ABCDEF"[d] else "0123456789abcdef"[d]) as int
  }

  function Digits(code: nat, k: Case): (t: Text)
    requires code < 0x1_0000
    ensures |t| == 4
  {
    [Digit(code / 0x1000, k.a), Digit(code / 0x100 % 16, k.b), Digit(code / 0x10 % 16, k.c), Digit(code % 16, k.d)]
  }

  /** The letter that stands for a character after a backslash. */
  function LetterFor(u: Unit): Option<Unit> {
    if u == '\"' as int || u == '\\' as int || u == '/' as int then Some(u)
    else if u == 0x08 then Some('b' as int)
    else if u == 0x09 then Some('t' as int)
    else if u == 0x0A then Some('n' as int)
    else if u == 0x0C then Some('f' as int)
    else if u == 0x0D then Some('r' as int)
    else None
  }

  predicate Surrogate(code: int) {
    0xD800 <= code < 0xE000
  }

  /** What may be written so. */
  predicate Fits(w: Written) {
    match w
    case Raw(u) => u >= 0x20 && u != '\"' as int && u != '\\' as int
    case Letter(u) => LetterFor(u).Some?
    case Hex(code, _) => code < 0x1_0000
    case Pair(u, _, _) => 0x1_0000 <= u < 0x11_0000
  }

  /** A pair is not written as two halves. */
  predicate FitAll(ws: seq<Written>) {
    && (forall i :: 0 <= i < |ws| ==> Fits(ws[i]))
    && (forall i :: 0 < i < |ws| && ws[i - 1].Hex? && ws[i].Hex? ==>
          !(0xD800 <= ws[i - 1].code < 0xDC00 <= ws[i].code < 0xE000))
  }

  /** The halves of a pair. */
  function HighHalf(u: int): (h: nat)
    requires 0x1_0000 <= u < 0x11_0000
    ensures 0xD800 <= h < 0xDC00
  {
    0xD800 + (u - 0x1_0000) / 0x400
  }

  function LowHalf(u: int): (l: nat)
    requires 0x1_0000 <= u < 0x11_0000
    ensures 0xDC00 <= l < 0xE000
  {
    0xDC00 + (u - 0x1_0000) % 0x400
  }

  function Text1(w: Written): Text
    requires Fits(w)
  {
    match w
    case Raw(u) => [u]
    case Letter(u) => ['\\' as int, LetterFor(u).value]
    case Hex(code, k) => ['\\' as int, 'u' as int] + Digits(code, k)
    case Pair(u, high, low) =>
      ['\\' as int, 'u' as int] + Digits(HighHalf(u), high)
      + ['\\' as int, 'u' as int] + Digits(LowHalf(u), low)
  }

  /** The body so written. */
  function TextOf(ws: seq<Written>): Text
    requires forall i :: 0 <= i < |ws| ==> Fits(ws[i])
  {
    if ws == [] then [] else Text1(ws[0]) + TextOf(ws[1..])
  }

  /** The character meant: half a pair and an invalid byte mean U+FFFD. */
  function Meant1(w: Written): Unit
    requires Fits(w)
  {
    match w
    case Raw(u) => if u >= 0x11_0000 then 0xFFFD else u
    case Letter(u) => u
    case Hex(code, _) => if Surrogate(code) then 0xFFFD else code
    case Pair(u, _, _) => u
  }

  function Meant(ws: seq<Written>): (t: Text)
    requires forall i :: 0 <= i < |ws| ==> Fits(ws[i])
    ensures |t| == |ws|
  {
    if ws == [] then [] else [Meant1(ws[0])] + Meant(ws[1..])
  }

  // ---------------------------------------------------------------- one way at a time

  lemma DigitReads(d: nat, capital: bool)
    requires d < 16
    ensures HexValue(Digit(d, capital)) == Some(d)
  {
    var lower, upper := "0123456789abcdef", "0123456789ABCDEF";
    assert d == 0 || d == 1 || d == 2 || d == 3 || d == 4 || d == 5 || d == 6 || d == 7
           || d == 8 || d == 9 || d == 10 || d == 11 || d == 12 || d == 13 || d == 14 || d == 15;
  }

  lemma FourDigits(code: nat)
    requires code < 0x1_0000
    ensures ((code / 0x1000 * 16 + code / 0x100 % 16) * 16 + code / 0x10 % 16) * 16 + code % 16 == code
  {
    var d := code / 16;
    var e := d / 16;
    assert code / 0x100 == e && code / 0x1000 == e / 16;
  }

  lemma DigitsRead(code: nat, k: Case)
    requires code < 0x1_0000
    ensures AllHex(Digits(code, k)) && Hex4(Digits(code, k)) == code
  {
    hide HexValue, Digit;
    DigitReads(code / 0x1000, k.a);
    DigitReads(code / 0x100 % 16, k.b);
    DigitReads(code / 0x10 % 16, k.c);
    DigitReads(code % 16, k.d);
    FourDigits(code);
  }

  lemma HexReads(code: nat, k: Case, rest: Text)
    requires code < 0x1_0000
    ensures var t := ['\\' as int, 'u' as int] + Digits(code, k) + rest;
            PieceLength(t) == 6 && t[6..] == rest && Code(t) == code && t[0] == BACKSLASH
  {
    DigitsRead(code, k);
    hide Digits, HexValue;
    var t := ['\\' as int, 'u' as int] + Digits(code, k) + rest;
    assert t[2..6] == Digits(code, k);
  }

  lemma Follows(t: Text, b: Text)
    requires t != [] && PieceLength(t) > 0 && IsBody(b) && t[PieceLength(t)..] == b
    ensures IsBody(t) && Codes(t) == [Code(t)] + Codes(b)
  {
    CodesStep(t);
  }

  function Codes1(w: Written): seq<int>
    requires Fits(w)
  {
    match w
    case Raw(u) => [u]
    case Letter(u) => [u]
    case Hex(code, _) => [code]
    case Pair(u, _, _) => [HighHalf(u), LowHalf(u)]
  }

  /** One escape before a body. */
  lemma EscapeBefore(code: nat, k: Case, b: Text)
    requires code < 0x1_0000 && IsBody(b)
    ensures var t := ['\\' as int, 'u' as int] + Digits(code, k) + b; IsBody(t) && Codes(t) == [code] + Codes(b)
  {
    HexReads(code, k, b);
    Follows(['\\' as int, 'u' as int] + Digits(code, k) + b, b);
  }

  lemma Halves(u: int)
    requires 0x1_0000 <= u < 0x11_0000
    ensures 0x1_0000 + (HighHalf(u) - 0xD800) * 0x400 + (LowHalf(u) - 0xDC00) == u
  {
  }

  lemma TwoEscapes(h: nat, high: Case, l: nat, low: Case, b: Text)
    requires h < 0x1_0000 && l < 0x1_0000 && IsBody(b)
    ensures var t := ['\\' as int, 'u' as int] + Digits(h, high) + ['\\' as int, 'u' as int] + Digits(l, low) + b;
            IsBody(t) && Codes(t) == [h, l] + Codes(b)
  {
    hide Digits, IsBody, Codes;
    EscapeBefore(l, low, b);
    var t2 := ['\\' as int, 'u' as int] + Digits(l, low) + b;
    EscapeBefore(h, high, t2);
    assert ['\\' as int, 'u' as int] + Digits(h, high) + ['\\' as int, 'u' as int] + Digits(l, low) + b
        == ['\\' as int, 'u' as int] + Digits(h, high) + t2;
    assert [h] + ([l] + Codes(b)) == [h, l] + Codes(b);
  }

  lemma PairReads(u: Unit, high: Case, low: Case, b: Text)
    requires 0x1_0000 <= u < 0x11_0000 && IsBody(b)
    ensures var t := Text1(Pair(u, high, low)) + b; IsBody(t) && Codes(t) == Codes1(Pair(u, high, low)) + Codes(b)
  {
    TwoEscapes(HighHalf(u), high, LowHalf(u), low, b);
    hide Digits, IsBody, Codes, HighHalf, LowHalf;
  }

  lemma PieceReads(w: Written, b: Text)
    requires Fits(w) && IsBody(b)
    ensures var t := Text1(w) + b; IsBody(t) && Codes(t) == Codes1(w) + Codes(b)
  {
    var t := Text1(w) + b;
    match w
    case Pair(u, high, low) => PairReads(u, high, low, b);
    case Hex(code, k) => EscapeBefore(code, k, b);
    case Letter(u) =>
      assert t[2..] == b;
      Follows(t, b);
    case Raw(u) =>
      assert t[1..] == b;
      Follows(t, b);
  }

  // ---------------------------------------------------------------- all together

  lemma TailFits(ws: seq<Written>)
    requires FitAll(ws) && ws != []
    ensures FitAll(ws[1..]) && Fits(ws[0])
  {
  }

  function CodesAll(ws: seq<Written>): seq<int>
    requires forall i :: 0 <= i < |ws| ==> Fits(ws[i])
  {
    if ws == [] then [] else Codes1(ws[0]) + CodesAll(ws[1..])
  }

  lemma {:induction false} AllRead(ws: seq<Written>)
    requires forall i :: 0 <= i < |ws| ==> Fits(ws[i])
    ensures IsBody(TextOf(ws)) && Codes(TextOf(ws)) == CodesAll(ws)
    decreases |ws|
  {
    if ws != [] {
      AllRead(ws[1..]);
      PieceReads(ws[0], TextOf(ws[1..]));
    }
  }

  predicate InRange(cs: seq<int>) {
    forall i :: 0 <= i < |cs| ==> 0 <= cs[i] < 0x11_0100
  }

  lemma {:induction false} CodesFit(ws: seq<Written>)
    requires forall i :: 0 <= i < |ws| ==> Fits(ws[i])
    ensures InRange(CodesAll(ws))
    decreases |ws|
  {
    if ws != [] {
      CodesFit(ws[1..]);
    }
  }

  lemma JoinOne(cs: seq<int>)
    requires cs != [] && InRange(cs)
    requires |cs| >= 2 ==> !(0xD800 <= cs[0] < 0xDC00 <= cs[1] < 0xE000)
    ensures InRange(cs[1..])
            && JoinUp(cs) == [if Surrogate(cs[0]) || cs[0] >= 0x11_0000 then 0xFFFD else cs[0]] + JoinUp(cs[1..])
  {
  }

  lemma JoinPair(cs: seq<int>)
    requires |cs| >= 2 && InRange(cs) && 0xD800 <= cs[0] < 0xDC00 <= cs[1] < 0xE000
    ensures InRange(cs[2..])
            && JoinUp(cs) == [0x1_0000 + (cs[0] - 0xD800) * 0x400 + (cs[1] - 0xDC00)] + JoinUp(cs[2..])
  {
  }

  lemma FirstCode(ws: seq<Written>)
    requires FitAll(ws) && |ws| > 1 && !ws[0].Pair?
    ensures CodesAll(ws[1..]) != []
    ensures !(0xD800 <= Codes1(ws[0])[0] < 0xDC00 <= CodesAll(ws[1..])[0] < 0xE000)
  {
    var w := ws[1];
    assert ws[1..][0] == w && Fits(w);
    assert CodesAll(ws[1..])[0] == Codes1(w)[0];
    assert ws[1 - 1].Hex? && ws[1].Hex? ==> !(0xD800 <= ws[1 - 1].code < 0xDC00 <= ws[1].code < 0xE000);
    hide CodesAll;
  }

  lemma NoCodes(ws: seq<Written>)
    requires forall i :: 0 <= i < |ws| ==> Fits(ws[i])
    ensures |ws| == 0 ==> CodesAll(ws) == []
  {
  }

  lemma PairFirst(u: Unit, cs: seq<int>, rest: seq<int>)
    requires 0x1_0000 <= u < 0x11_0000 && cs == [HighHalf(u), LowHalf(u)] + rest && InRange(cs)
    ensures InRange(rest) && JoinUp(cs) == [u] + JoinUp(rest)
  {
    Halves(u);
    JoinPair(cs);
    hide JoinUp, HighHalf, LowHalf;
    assert cs[2..] == rest;
  }

  lemma OtherFirst(w: Written, cs: seq<int>, rest: seq<int>)
    requires Fits(w) && !w.Pair? && cs == Codes1(w) + rest && InRange(cs)
    requires rest != [] ==> !(0xD800 <= Codes1(w)[0] < 0xDC00 <= rest[0] < 0xE000)
    ensures InRange(rest) && JoinUp(cs) == [Meant1(w)] + JoinUp(rest)
  {
    assert cs[1..] == rest && (rest != [] ==> cs[1] == rest[0]);
    JoinOne(cs);
    hide JoinUp;
  }

  lemma JoinFirst(ws: seq<Written>)
    requires FitAll(ws) && ws != [] && InRange(CodesAll(ws))
    ensures InRange(CodesAll(ws[1..])) && JoinUp(CodesAll(ws)) == [Meant1(ws[0])] + JoinUp(CodesAll(ws[1..]))
  {
    var w, cs, rest := ws[0], CodesAll(ws), CodesAll(ws[1..]);
    assert Fits(w) && cs == Codes1(w) + rest;
    NoCodes(ws[1..]);
    if w.Pair? {
      PairFirst(w.u, cs, rest);
    } else {
      if |ws| > 1 {
        FirstCode(ws);
      }
      OtherFirst(w, cs, rest);
    }
    hide JoinUp, CodesAll, FitAll, InRange, HighHalf, LowHalf, Fits;
  }

  lemma {:induction false} AllJoin(ws: seq<Written>)
    requires FitAll(ws)
    ensures InRange(CodesAll(ws)) && JoinUp(CodesAll(ws)) == Meant(ws)
    decreases |ws|
  {
    CodesFit(ws);
    if ws != [] {
      TailFits(ws);
      AllJoin(ws[1..]);
      JoinFirst(ws);
      hide JoinUp, CodesAll, FitAll, Fits;
    }
  }

  function Quoted(b: Text): Text {
    ['\"' as int] + b + ['\"' as int]
  }

  /** Whichever way each character of a string is written, the reader finds the string. */
  lemma WritingReads(ws: seq<Written>)
    requires FitAll(ws)
    ensures IsBody(TextOf(ws)) && AsString(Quoted(TextOf(ws))) == Some(Meant(ws))
  {
    var b := TextOf(ws);
    AllRead(ws);
    AllJoin(ws);
    ParsePrint(Str(b));
    hide JoinUp, Codes, CodesAll, Meant, TextOf, FitAll;
    assert Print(Str(b)) == Quoted(b);
  }

  // ---------------------------------------------------------------- and there is no other way

  lemma DigitOf(u: Unit) returns (d: nat, capital: bool)
    requires HexValue(u).Some?
    ensures d < 16 && Digit(d, capital) == u
  {
    d, capital := HexValue(u).value, 0x41 <= u <= 0x46;
    var lower, upper := "0123456789abcdef", "0123456789ABCDEF";
    assert d == 0 || d == 1 || d == 2 || d == 3 || d == 4 || d == 5 || d == 6 || d == 7
           || d == 8 || d == 9 || d == 10 || d == 11 || d == 12 || d == 13 || d == 14 || d == 15;
  }

  lemma Places(p: nat, q: nat, r: nat, s: nat)
    requires p < 16 && q < 16 && r < 16 && s < 16
    ensures var code := ((p * 16 + q) * 16 + r) * 16 + s;
            && code < 0x1_0000 && code / 0x1000 == p && code / 0x100 % 16 == q && code / 0x10 % 16 == r
            && code % 16 == s
  {
  }

  lemma DigitsOf(t: Text) returns (code: nat, k: Case)
    requires |t| == 4 && AllHex(t)
    ensures code < 0x1_0000 && Digits(code, k) == t
  {
    hide Digit, HexValue;
    var p, a := DigitOf(t[0]);
    var q, b := DigitOf(t[1]);
    var r, c := DigitOf(t[2]);
    var s, d := DigitOf(t[3]);
    code, k := ((p * 16 + q) * 16 + r) * 16 + s, Case(a, b, c, d);
    Places(p, q, r, s);
    assert Digits(code, k) == [Digit(p, a), Digit(q, b), Digit(r, c), Digit(s, d)];
  }

  lemma MoreText(w: Written, ws: seq<Written>)
    requires Fits(w) && forall i :: 0 <= i < |ws| ==> Fits(ws[i])
    ensures TextOf([w] + ws) == Text1(w) + TextOf(ws)
  {
    assert ([w] + ws)[1..] == ws;
    hide Text1, Fits;
  }

  /** A half and another half are better written as a pair. */
  predicate Halved(w: Written, ws: seq<Written>) {
    w.Hex? && ws != [] && ws[0].Hex? && 0xD800 <= w.code < 0xDC00 <= ws[0].code < 0xE000
  }

  lemma MoreFits(w: Written, ws: seq<Written>)
    requires Fits(w) && FitAll(ws) && !Halved(w, ws)
    ensures FitAll([w] + ws)
  {
    var all := [w] + ws;
    forall i | 0 <= i < |all| ensures Fits(all[i]) {
      assert i > 0 ==> all[i] == ws[i - 1];
    }
    forall i | 0 < i < |all| && all[i - 1].Hex? && all[i].Hex?
      ensures !(0xD800 <= all[i - 1].code < 0xDC00 <= all[i].code < 0xE000)
    {
      if i > 1 {
        assert all[i] == ws[i - 1] && all[i - 1] == ws[i - 1 - 1];
      }
    }
  }

  lemma PairOf(h: nat, l: nat) returns (u: Unit)
    requires 0xD800 <= h < 0xDC00 <= l < 0xE000
    ensures 0x1_0000 <= u < 0x11_0000 && HighHalf(u) == h && LowHalf(u) == l
  {
    u := 0x1_0000 + (h - 0xD800) * 0x400 + (l - 0xDC00);
  }

  lemma PairText(h: nat, high: Case, l: nat, low: Case, u: Unit)
    requires 0x1_0000 <= u < 0x11_0000 && HighHalf(u) == h && LowHalf(u) == l
    ensures Text1(Pair(u, high, low)) == Text1(Hex(h, high)) + Text1(Hex(l, low))
  {
    hide Digits, HighHalf, LowHalf;
    var slash := ['\\' as int, 'u' as int];
    var a, b := Digits(h, high), Digits(l, low);
    assert slash + a + slash + b == (slash + a) + (slash + b);
  }

  lemma FirstText(ws: seq<Written>)
    requires FitAll(ws) && ws != []
    ensures TextOf(ws) == Text1(ws[0]) + TextOf(ws[1..])
  {
  }

  lemma Three(a: Text, b: Text, c: Text)
    ensures (a + b) + c == a + (b + c)
  {
  }

  lemma JoinHalves(w: Written, ws: seq<Written>) returns (all: seq<Written>)
    requires Fits(w) && FitAll(ws) && Halved(w, ws)
    ensures FitAll(all) && TextOf(all) == Text1(w) + TextOf(ws)
  {
    TailFits(ws);
    var u := PairOf(w.code, ws[0].code);
    var pair, other, rest := Pair(u, w.digits, ws[0].digits), ws[0], ws[1..];
    assert w == Hex(w.code, w.digits) && other == Hex(other.code, other.digits) && Fits(pair);
    FirstText(ws);
    hide Text1, Digits, TextOf, FitAll, Fits, HighHalf, LowHalf;
    PairText(w.code, w.digits, other.code, other.digits, u);
    MoreFits(pair, rest);
    MoreText(pair, rest);
    all := [pair] + rest;
    Three(Text1(w), Text1(other), TextOf(rest));
  }

  lemma Prepend(w: Written, ws: seq<Written>) returns (all: seq<Written>)
    requires Fits(w) && FitAll(ws)
    ensures FitAll(all) && TextOf(all) == Text1(w) + TextOf(ws)
  {
    hide Text1, Fits;
    if Halved(w, ws) {
      all := JoinHalves(w, ws);
    } else {
      MoreFits(w, ws);
      MoreText(w, ws);
      all := [w] + ws;
    }
  }

  /** The first character or escape of a body. */
  lemma FirstWritten(b: Text) returns (w: Written)
    requires b != [] && PieceLength(b) > 0
    ensures Fits(w) && Text1(w) == b[..PieceLength(b)]
  {
    var n := PieceLength(b);
    if n == 1 {
      w := Raw(b[0]);
    } else if n == 2 {
      w := Letter(Simple(b[1]).value);
    } else {
      var code, k := DigitsOf(b[2..6]);
      w := Hex(code, k);
      hide Digits, AllHex, Simple;
      assert b[..6] == [b[0], b[1]] + b[2..6];
    }
  }

  lemma Cut(b: Text, n: nat)
    requires n <= |b|
    ensures b[..n] + b[n..] == b
  {
  }

  lemma {:induction false} BodyIsWritten(b: Text) returns (ws: seq<Written>)
    requires IsBody(b)
    ensures FitAll(ws) && TextOf(ws) == b
    decreases |b|
  {
    if b == [] {
      ws := [];
    } else {
      var n := PieceLength(b);
      assert n > 0 && IsBody(b[n..]);
      hide Text1, Fits, FitAll, PieceLength, TextOf, IsBody;
      var rest := BodyIsWritten(b[n..]);
      var w := FirstWritten(b);
      ws := Prepend(w, rest);
      Cut(b, n);
    }
  }

  /** A string literal is well formed exactly if it is written in one of these ways, and is then read as
      what that means. */
  lemma LiteralIff(b: Text)
    ensures IsBody(b) <==> exists ws :: FitAll(ws) && TextOf(ws) == b
    ensures forall ws :: FitAll(ws) && TextOf(ws) == b ==> AsString(Quoted(b)) == Some(Meant(ws))
  {
    if IsBody(b) {
      var ws := BodyIsWritten(b);
    }
    hide IsBody, AsString, Meant, FitAll, TextOf;
    forall ws | FitAll(ws) && TextOf(ws) == b ensures IsBody(b) && AsString(Quoted(b)) == Some(Meant(ws)) {
      WritingReads(ws);
    }
  }

  // ---------------------------------------------------------------- calls

  /** A call whose id and action are written in any way. */
  function Frame(id: seq<Written>, action: seq<Written>, payload: Text): Text
    requires FitAll(id) && FitAll(action)
  {
    ['[' as int, '2' as int, ',' as int] + Quoted(TextOf(id)) + [',' as int] + Quoted(TextOf(action)) + [',' as int]
    + payload + [']' as int]
  }

  lemma ItemPrints(v: Tree, rest: Items)
    ensures PrintItems(false, Cons([], v, rest))
         == if rest.Nil? then Print(v) else Print(v) + ([COMMA] + PrintItems(false, rest))
  {
    assert PrintItem(false, [], v) == Print(v);
  }

  lemma Flatten(q: Text, a: Text, p: Text)
    ensures ['[' as int] + (['2' as int] + ([COMMA] + (q + ([COMMA] + (a + ([COMMA] + p)))))) + [']' as int]
         == ['[' as int, '2' as int, ',' as int] + q + [',' as int] + a + [',' as int] + p + [']' as int]
  {
    var x := a + ([COMMA] + p);
    assert a + [COMMA] + p == x;
    var y := q + ([COMMA] + x);
    assert q + [COMMA] + a + [COMMA] + p == y;
  }

  lemma FramePrints(id: Text, action: Text, payload: Tree)
    ensures Print(Group(false, Cons([], Scalar([0x32]), Framing.Three(Str(id), Str(action), payload))))
         == ['[' as int, '2' as int, ',' as int] + Quoted(id) + [',' as int] + Quoted(action) + [',' as int]
            + Print(payload) + [']' as int]
  {
    var c := Cons([], payload, Nil);
    var b := Cons([], Str(action), c);
    var a := Cons([], Str(id), b);
    ItemPrints(payload, Nil);
    ItemPrints(Str(action), c);
    ItemPrints(Str(id), b);
    ItemPrints(Scalar([0x32]), a);
    assert Print(Str(id)) == Quoted(id) && Print(Str(action)) == Quoted(action);
    var all := Cons([], Scalar([0x32]), a);
    assert Print(Group(false, all)) == ['[' as int] + PrintItems(false, all) + [']' as int];
    hide PrintItems, Quoted, Print;
    Flatten(Quoted(id), Quoted(action), Print(payload));
  }

  /** However a client writes the id and the action of a call, the gateway reads that call. */
  lemma AnySpellingReads(id: seq<Written>, action: seq<Written>, payload: Tree)
    requires FitAll(id) && FitAll(action) && WellFormed(payload)
    ensures ParseMessage(Frame(id, action, Print(payload)))
         == Parsed(Message(2, Meant(id), Meant(action), Print(payload)))
  {
    WritingReads(id);
    WritingReads(action);
    FramePrints(TextOf(id), TextOf(action), payload);
    hide TextOf, Meant, FitAll, AsString, IsBody;
    assert Print(Str(TextOf(id))) == Quoted(TextOf(id)) && Print(Str(TextOf(action))) == Quoted(TextOf(action));
    SplitsAsCall(Str(TextOf(id)), Str(TextOf(action)), payload);
    ReadsAsCall(Frame(id, action, Print(payload)), Quoted(TextOf(id)), Quoted(TextOf(action)), Print(payload),
                Meant(id), Meant(action));
  }
}
