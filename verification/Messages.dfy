/** What ParseMessage makes of any bytes: which frames it takes for which message, and what is wrong with
    every other. */
module Messages {
  import opened Domain
  import opened Json
  import opened Framing
  import opened Grammar
  import Spelling
  import Splitter

  // ---------------------------------------------------------------- the reference

  /** The number that digits denote. */
  function NumberValue(digits: Text): int
    requires AllDigits(digits)
  {
    if digits == [] then 0 else 10 * NumberValue(digits[..|digits| - 1]) + (digits[|digits| - 1] - '0' as int)
  }

  predicate IsNull(v: Tree) {
    v == Scalar(['n' as int, 'u' as int, 'l' as int, 'l' as int])
  }

  predicate IsInteger(n: Number) {
    IsProper(n) && n.fraction.None? && n.exponent.None?
  }

  function IntegerValue(n: Number): int
    requires IsProper(n)
  {
    if n.minus then -NumberValue(n.whole) else NumberValue(n.whole)
  }

  /** The value is an integer of 64 bits: a number without fraction and exponent, or null for 0. */
  ghost predicate IsInt(v: Tree, i: int) {
    || (IsNull(v) && i == 0)
    || exists n :: IsInteger(n) && v == Scalar(NumberText(n)) && i == IntegerValue(n)
                   && -0x8000_0000_0000_0000 <= i < 0x8000_0000_0000_0000
  }

  /** The value is a string, written in any way, or null for the empty one. */
  ghost predicate IsText(v: Tree, t: Text) {
    || (IsNull(v) && t == [])
    || exists ws :: Spelling.FitAll(ws) && v == Str(Spelling.TextOf(ws)) && t == Spelling.Meant(ws)
  }

  // ---------------------------------------------------------------- integers

  lemma {:induction false} DigitsSnoc(t: Text, u: Unit, n: nat)
    ensures Framing.Digits(t + [u], n)
            == match Framing.Digits(t, n)
               case None => None
               case Some(m) => if IsDigit(u) then Some(m * 10 + (u - 0x30)) else None
    decreases |t|
  {
    if t == [] {
      assert t + [u] == [u];
      if IsDigit(u) {
        assert Framing.Digits([u][1..], n * 10 + (u - 0x30)) == Some(n * 10 + (u - 0x30));
      }
    } else {
      assert (t + [u])[1..] == t[1..] + [u];
      if IsDigit(t[0]) {
        DigitsSnoc(t[1..], u, n * 10 + (t[0] - 0x30));
      }
    }
  }

  lemma {:induction false} DigitsValue(t: Text)
    ensures Framing.Digits(t, 0).Some? <==> AllDigits(t)
    ensures AllDigits(t) ==> Framing.Digits(t, 0) == Some(NumberValue(t))
    decreases |t|
  {
    if t != [] {
      var front, u := t[..|t| - 1], t[|t| - 1];
      DigitsValue(front);
      DigitsSnoc(front, u, 0);
      assert t == front + [u];
    }
  }

  /** What the reader takes for an integer, on the spelling of a scalar. */
  function Reads(s: Text): Option<int> {
    var negative := s != [] && s[0] == 0x2D;
    match Framing.Digits(if negative then s[1..] else s, 0)
    case None => None
    case Some(n) =>
      var i := if negative then 0 - n as int else n as int;
      if -0x8000_0000_0000_0000 <= i < 0x8000_0000_0000_0000 then Some(i) else None
  }

  lemma NumberSplits(n: Number)
    requires IsProper(n)
    ensures var s := NumberText(n); var minus := s != [] && s[0] == 0x2D;
            && n.minus == minus && (if minus then s[1..] else s) == n.whole + TailText(n)
            && (AllDigits(n.whole + TailText(n)) <==> n.fraction.None? && n.exponent.None?)
            && (n.fraction.None? && n.exponent.None? ==> n.whole + TailText(n) == n.whole)
  {
    var t, tail := n.whole + TailText(n), TailText(n);
    assert n.minus ==> NumberText(n)[1..] == t;
    assert !n.minus ==> NumberText(n) == t && t[0] == n.whole[0];
    if n.fraction.Some? || n.exponent.Some? {
      assert tail != [] && !IsDigit(tail[0]) by {
        FractionReads(n);
      }
      assert t[|n.whole|] == tail[0];
    }
  }

  lemma NumeralReads(n: Number)
    requires IsProper(n)
    ensures Reads(NumberText(n))
            == if IsInteger(n) && -0x8000_0000_0000_0000 <= IntegerValue(n) < 0x8000_0000_0000_0000
               then Some(IntegerValue(n)) else None
  {
    NumberSplits(n);
    DigitsValue(n.whole + TailText(n));
    hide NumberText, TailText;
  }

  lemma NotDigits(s: Text)
    requires IsWord(s) && !IsNumeral(s)
    ensures Reads(s) == None && s != []
  {
    hide IsNumeral;
    DigitsValue(s);
    assert !IsDigit(s[0]) && s[0] != 0x2D;
  }

  lemma {:induction false} AsIntReads(t: Text, s: Text)
    requires Parse(t) == Some(Scalar(s))
    ensures AsInt(t) == if s == ['n' as int, 'u' as int, 'l' as int, 'l' as int] then Some(0) else Reads(s)
  {
    assert Ascii("null") == ['n' as int, 'u' as int, 'l' as int, 'l' as int];
    hide Framing.Digits, Parse, Ascii;
  }

  lemma NullIsNoNumber(n: Number)
    requires IsProper(n)
    ensures NumberText(n) != ['n' as int, 'u' as int, 'l' as int, 'l' as int]
  {
    NumberSplits(n);
    assert !n.minus ==> NumberText(n)[0] == n.whole[0];
  }

  lemma ScalarIntIff(s: Text, i: int)
    requires IsWord(s)
    ensures (if s == ['n' as int, 'u' as int, 'l' as int, 'l' as int] then i == 0 else Reads(s) == Some(i))
            <==> IsInt(Scalar(s), i)
  {
    hide Reads, NumberText, IsProper;
    forall n | IsProper(n) && NumberText(n) == s
      ensures s != ['n' as int, 'u' as int, 'l' as int, 'l' as int]
      ensures Reads(s) == if IsInteger(n) && -0x8000_0000_0000_0000 <= IntegerValue(n) < 0x8000_0000_0000_0000
                          then Some(IntegerValue(n)) else None
    {
      NumeralReads(n);
      NullIsNoNumber(n);
    }
    if IsNumeral(s) {
      var n :| IsProper(n) && NumberText(n) == s;
    } else {
      NotDigits(s);
    }
  }

  /** The reader takes for an integer exactly an integer of 64 bits. */
  lemma AsIntIff(t: Text, v: Tree, i: int)
    requires Parse(t) == Some(v)
    ensures AsInt(t) == Some(i) <==> IsInt(v, i)
  {
    if v.Scalar? {
      ParseWellFormed(t);
      WordIff(v.spelling);
      AsIntReads(t, v.spelling);
      hide IsScalar, IsWord, AsInt, Parse, Reads, IsInt;
      ScalarIntIff(v.spelling, i);
    }
  }

  lemma StringReads(t: Text, b: Text)
    requires Parse(t) == Some(Str(b))
    ensures IsBody(b) && AsString(t) == AsString(Spelling.Quoted(b))
  {
    ParseWellFormed(t);
    ParsePrint(Str(b));
    assert Print(Str(b)) == Spelling.Quoted(b);
  }

  /** And for a string exactly a string. */
  lemma AsStringIff(t: Text, v: Tree, s: Text)
    requires Parse(t) == Some(v)
    ensures AsString(t) == Some(s) <==> IsText(v, s)
  {
    assert Ascii("null") == ['n' as int, 'u' as int, 'l' as int, 'l' as int];
    ParseWellFormed(t);
    if v.Str? {
      StringReads(t, v.body);
      hide IsBody, AsString, Spelling.FitAll, Spelling.TextOf, Spelling.Meant, Parse;
      var ws := Spelling.BodyIsWritten(v.body);
      Spelling.LiteralIff(v.body);
    }
  }

  // ---------------------------------------------------------------- the items of a frame

  /** The texts of the items of an array, without the blanks around them. */
  function Raws(items: LaidItems): seq<Text> {
    if items.End? then [] else [Write(items.value)] + Raws(items.rest)
  }

  function Values(items: LaidItems): seq<Tree> {
    if items.End? then [] else [Plain(items.value)] + Values(items.rest)
  }

  lemma LaidParses(l: Laid)
    requires WellLaid(l)
    ensures Parse(Write(l)) == Some(Plain(l))
  {
    LaidReads([], l, []);
    assert [] + (Write(l) + []) == Write(l);
    hide Write, WellLaid, Plain, Value;
  }

  lemma {:induction false} RawsRead(items: LaidItems)
    requires items.Item? ==> WellLaidItems(false, items)
    ensures |Raws(items)| == |Values(items)|
    ensures forall i :: 0 <= i < |Raws(items)| ==> Parse(Raws(items)[i]) == Some(Values(items)[i])
    decreases items
  {
    if items.Item? {
      RawsRead(items.rest);
      LaidParses(items.value);
    }
  }

  lemma FirstSlice(t: Text, piece: Text, tail: Text, w: Text)
    requires Trim(t) == piece + tail && Value(piece + tail).Some? && Value(piece + tail).value.1 == tail
    requires Trim(tail) == w && w != []
    ensures w[0] == Closing(false) ==> Slices(t) == if Trim(w[1..]) == [] then Some([piece]) else None
    ensures w[0] == COMMA ==>
              Slices(t) == if Slices(w[1..]).Some? then Some([piece] + Slices(w[1..]).value) else None
  {
    assert (piece + tail)[..|piece + tail| - |tail|] == piece;
    hide Value, Trim;
  }

  /** In an array an item is its first blank, its value and its last blank. */
  lemma ItemText(items: LaidItems, z: Text)
    requires items.Item? && WellLaidItems(false, items)
    ensures WriteItems(false, items) + ([Close(false)] + z)
            == items.before + (Write(items.value) + (items.after + Rest(false, items.rest, z)))
  {
    ItemSplits(false, items, z);
    assert WriteName(false, items.before, items.name, items.colon, items.between) == items.before;
    hide WriteItems, Write, Rest, WellLaid, WriteName;
  }

  lemma {:induction false} SlicesOfLaid(items: LaidItems, z: Text)
    requires items.Item? && WellLaidItems(false, items) && Blank(z)
    ensures Slices(WriteItems(false, items) + ([Close(false)] + z)) == Some(Raws(items))
    decreases items
  {
    var t := WriteItems(false, items) + ([Close(false)] + z);
    var piece, w := Write(items.value), Rest(false, items.rest, z);
    var tail := items.after + w;
    ItemText(items, z);
    RestStops(false, items.after, items.rest, z);
    LaidReads([], items.value, tail);
    assert [] + (piece + tail) == piece + tail;
    TrimBlank(items.before, piece + tail);
    Starts(items.value);
    Solid(piece + tail);
    BlankIff(z);
    assert Raws(items) == [piece] + Raws(items.rest);
    if items.rest.Item? {
      SlicesOfLaid(items.rest, z);
      assert w[1..] == WriteItems(false, items.rest) + ([Close(false)] + z);
    } else {
      assert w == [Close(false)] + z && w[1..] == z;
      assert Raws(items.rest) == [];
    }
    hide Write, WriteItems, WellLaid, WellLaidItems, Plain, Value, Slices, Raws, Trim, Rest;
    FirstSlice(t, piece, tail, w);
    if items.rest.End? {
      assert [piece] + [] == [piece];
    }
  }

  /** A frame: an array, laid out, and blanks around it. */
  function FrameText(w: Text, blank: Text, items: LaidItems, z: Text): Text {
    w + (Write(Block(false, blank, items)) + z)
  }

  ghost predicate IsFrame(w: Text, blank: Text, items: LaidItems, z: Text) {
    Blank(w) && Blank(z) && WellLaid(Block(false, blank, items))
  }

  lemma ElementsOfFrame(w: Text, blank: Text, items: LaidItems, z: Text)
    requires IsFrame(w, blank, items, z)
    ensures Elements(FrameText(w, blank, items, z)) == Some(Raws(items))
  {
    var body := if items.End? then blank + ([Close(false)] + z) else WriteItems(false, items) + ([Close(false)] + z);
    var u := [Open(false)] + body;
    BlockSplits(false, blank, items, z);
    TrimBlank(w, u);
    Solid(u);
    assert u[1..] == body;
    if items.End? {
      TrimBlank(blank, [Close(false)] + z);
      Solid([Close(false)] + z);
      BlankIff(z);
      assert ([Close(false)] + z)[1..] == z;
    } else {
      SlicesOfLaid(items, z);
      Grammar.ItemsStart(false, items, z);
    }
    hide Write, WriteItems, WellLaidItems, Slices, Raws, Blank;
  }

  // ---------------------------------------------------------------- the verdict

  /** What a frame of type i and message id `id` is. */
  ghost predicate Identified(raws: seq<Text>, vs: seq<Tree>, i: int, id: Text, p: Parsed)
    requires |raws| == |vs| >= 3
  {
    if i == 2 then
      if |vs| == 3 then p == Failed(ShortCall)
      else if exists action :: IsText(vs[2], action) then
        exists action :: IsText(vs[2], action) && p == Parsed(Message(2, id, action, raws[3]))
      else p == Failed(BadAction)
    else if i == 3 || i == 4 then p == Parsed(Message(i, id, [], raws[2]))
    else p == Failed(UnknownType)
  }

  /** What a frame with these items is. */
  ghost predicate Verdict(raws: seq<Text>, vs: seq<Tree>, p: Parsed)
    requires |raws| == |vs|
  {
    if |vs| < 3 then p == Failed(TooShort)
    else if !exists i :: IsInt(vs[0], i) then p == Failed(BadTypeId)
    else if !exists id :: IsText(vs[1], id) then p == Failed(BadMessageId)
    else exists i, id :: IsInt(vs[0], i) && IsText(vs[1], id) && Identified(raws, vs, i, id, p)
  }

  lemma IdentifiedHolds(data: Text, raws: seq<Text>, vs: seq<Tree>, i: int, id: Text)
    requires Elements(data) == Some(raws) && |raws| == |vs| >= 3
    requires AsInt(raws[0]) == Some(i) && AsString(raws[1]) == Some(id) && Parse(raws[2]) == Some(vs[2])
    ensures Identified(raws, vs, i, id, ParseMessage(data))
  {
    hide Elements, AsInt, AsString, Parse, IsText;
    forall t ensures AsString(raws[2]) == Some(t) <==> IsText(vs[2], t) {
      AsStringIff(raws[2], vs[2], t);
    }
    if AsString(raws[2]).Some? {
      assert IsText(vs[2], AsString(raws[2]).value);
    }
  }

  lemma VerdictHolds(data: Text, raws: seq<Text>, vs: seq<Tree>)
    requires Elements(data) == Some(raws) && |raws| == |vs|
    requires forall i :: 0 <= i < |raws| ==> Parse(raws[i]) == Some(vs[i])
    ensures Verdict(raws, vs, ParseMessage(data))
  {
    hide Elements, AsInt, AsString, Parse, IsInt, IsText, Identified;
    if |vs| >= 3 {
      forall i ensures AsInt(raws[0]) == Some(i) <==> IsInt(vs[0], i) {
        AsIntIff(raws[0], vs[0], i);
      }
      forall t ensures AsString(raws[1]) == Some(t) <==> IsText(vs[1], t) {
        AsStringIff(raws[1], vs[1], t);
      }
      assert AsInt(raws[0]).Some? ==> IsInt(vs[0], AsInt(raws[0]).value);
      assert AsString(raws[1]).Some? ==> IsText(vs[1], AsString(raws[1]).value);
      if AsInt(raws[0]).Some? && AsString(raws[1]).Some? {
        IdentifiedHolds(data, raws, vs, AsInt(raws[0]).value, AsString(raws[1]).value);
      }
    }
  }

  lemma ArrayIsFrame(data: Text, v: Tree) returns (w: Text, blank: Text, items: LaidItems, z: Text)
    requires Parse(data) == Some(v) && v.Group? && !v.isObject
    ensures IsFrame(w, blank, items, z) && data == FrameText(w, blank, items, z)
  {
    ParseIff(data, v);
    hide Parse, WellLaidItems, Write, Blank;
    var l;
    w, l, z :| Blank(w) && WellLaid(l) && Blank(z) && data == w + (Write(l) + z) && Plain(l) == v;
    blank, items := l.blank, l.items;
  }

  lemma NullIs(v: Tree)
    ensures IsNull(v) <==> v == Scalar(Ascii("null"))
  {
    assert Ascii("null") == ['n' as int, 'u' as int, 'l' as int, 'l' as int];
  }

  lemma NullIff(data: Text)
    ensures (exists v :: IsNull(v) && IsDocument(data, v)) <==> Parse(data).Some? && IsNull(Parse(data).value)
  {
    hide Parse, IsDocument;
    forall v ensures Parse(data) == Some(v) <==> IsDocument(data, v) {
      ParseIff(data, v);
    }
  }

  lemma NoFrame(data: Text)
    requires forall w, blank, items, z :: IsFrame(w, blank, items, z) ==> data != FrameText(w, blank, items, z)
    ensures ParseMessage(data) == Failed(if exists v :: IsNull(v) && IsDocument(data, v) then TooShort else NotAnArray)
  {
    NullIff(data);
    Splitter.ElementsAgree(data);
    if Parse(data).Some? {
      NullIs(Parse(data).value);
      if Parse(data).value.Group? && !Parse(data).value.isObject {
        var w, blank, items, z := ArrayIsFrame(data, Parse(data).value);
      }
    }
    hide Parse, Elements, IsFrame, FrameText, IsDocument, AsInt, AsString, Ascii;
  }

  /** ParseMessage on any bytes: on an array, in any layout, the verdict on its items, those after the
      fourth of a call and the third of a response being of no account; on null, too short; on everything
      else, not an array. */
  lemma ParseMessageIs(data: Text)
    ensures forall w, blank, items, z :: IsFrame(w, blank, items, z) && data == FrameText(w, blank, items, z) ==>
              |Raws(items)| == |Values(items)| && Verdict(Raws(items), Values(items), ParseMessage(data))
    ensures (forall w, blank, items, z :: IsFrame(w, blank, items, z) ==> data != FrameText(w, blank, items, z)) ==>
              ParseMessage(data)
              == Failed(if exists v :: IsNull(v) && IsDocument(data, v) then TooShort else NotAnArray)
  {
    forall w, blank, items, z | IsFrame(w, blank, items, z) && data == FrameText(w, blank, items, z)
      ensures |Raws(items)| == |Values(items)| && Verdict(Raws(items), Values(items), ParseMessage(data))
    {
      ElementsOfFrame(w, blank, items, z);
      RawsRead(items);
      VerdictHolds(data, Raws(items), Values(items));
    }
    if forall w, blank, items, z :: IsFrame(w, blank, items, z) ==> data != FrameText(w, blank, items, z) {
      NoFrame(data);
    }
  }
}
