/** The texts the JSON reader accepts are exactly those of RFC 8259: values with any layout around their
    tokens. The grammar is said here by its derivations, without the reader. */
module Grammar {
  import opened Domain
  import opened Json
  import Spelling

  // ---------------------------------------------------------------- tokens

  /** Spaces, tabs, line feeds and carriage returns. */
  predicate Blank(t: Text) {
    forall i :: 0 <= i < |t| ==> t[i] == 0x20 || t[i] == 0x09 || t[i] == 0x0A || t[i] == 0x0D
  }

  predicate AllDigits(t: Text) {
    forall i :: 0 <= i < |t| ==> '0' as int <= t[i] <= '9' as int
  }

  /** `e` or `E`, then a plus, a minus or nothing. */
  datatype Exponent = Exponent(letter: Unit, sign: Text, digits: Text)

  /** -? (0 | [1-9][0-9]*) (. [0-9]+)? ([eE] [+-]? [0-9]+)? */
  datatype Number = Number(minus: bool, whole: Text, fraction: Option<Text>, exponent: Option<Exponent>)

  predicate IsProper(n: Number) {
    && n.whole != [] && AllDigits(n.whole) && (n.whole[0] == '0' as int ==> |n.whole| == 1)
    && (n.fraction.Some? ==> n.fraction.value != [] && AllDigits(n.fraction.value))
    && (n.exponent.Some? ==>
          var x := n.exponent.value;
          && (x.letter == 'e' as int || x.letter == 'E' as int)
          && (x.sign == [] || x.sign == ['+' as int] || x.sign == ['-' as int])
          && x.digits != [] && AllDigits(x.digits))
  }

  function ExponentText(x: Option<Exponent>): Text {
    if x.None? then [] else [x.value.letter] + x.value.sign + x.value.digits
  }

  function TailText(n: Number): Text {
    (if n.fraction.None? then [] else ['.' as int] + n.fraction.value) + ExponentText(n.exponent)
  }

  function NumberText(n: Number): Text {
    (if n.minus then ['-' as int] else []) + (n.whole + TailText(n))
  }

  ghost predicate IsNumeral(t: Text) {
    exists n :: IsProper(n) && NumberText(n) == t
  }

  ghost predicate IsWord(t: Text) {
    || t == ['n' as int, 'u' as int, 'l' as int, 'l' as int]
    || t == ['t' as int, 'r' as int, 'u' as int, 'e' as int]
    || t == ['f' as int, 'a' as int, 'l' as int, 's' as int, 'e' as int]
    || IsNumeral(t)
  }

  ghost predicate IsStringBody(t: Text) {
    exists ws :: Spelling.FitAll(ws) && Spelling.TextOf(ws) == t
  }

  // ---------------------------------------------------------------- numbers

  lemma {:induction false} DigitsFirst(a: Text, b: Text)
    requires AllDigits(a) && (b == [] || !IsDigit(b[0]))
    ensures DigitsLength(a + b) == |a|
    decreases |a|
  {
    if a == [] {
      assert a + b == b;
    } else {
      assert (a + b)[1..] == a[1..] + b;
      DigitsFirst(a[1..], b);
    }
  }

  lemma {:induction false} DigitsTaken(t: Text)
    ensures AllDigits(t[..DigitsLength(t)])
    ensures var n := DigitsLength(t); n < |t| ==> !IsDigit(t[n])
    decreases |t|
  {
    if t != [] && IsDigit(t[0]) {
      DigitsTaken(t[1..]);
      var n := DigitsLength(t[1..]);
      assert t[..n + 1] == [t[0]] + t[1..][..n];
      assert n + 1 < |t| ==> t[n + 1] == t[1..][n];
    }
  }

  lemma WholeDigits(t: Text)
    ensures AllDigits(t) <==> DigitsLength(t) == |t|
  {
    if AllDigits(t) {
      DigitsFirst(t, []);
      assert t + [] == t;
    }
    if DigitsLength(t) == |t| {
      DigitsTaken(t);
      assert t[..|t|] == t;
    }
  }

  lemma ExponentReads(n: Number)
    requires IsProper(n)
    ensures IsExponent(ExponentText(n.exponent))
    ensures ExponentText(n.exponent) == [] || !IsDigit(ExponentText(n.exponent)[0])
  {
    if n.exponent.Some? {
      var x := n.exponent.value;
      var t := ExponentText(n.exponent);
      WholeDigits(x.digits);
      assert t == [x.letter] + (x.sign + x.digits);
      if x.sign == [] {
        assert t[1..] == x.digits;
      } else {
        assert t[2..] == x.digits;
      }
    }
  }

  lemma FractionReads(n: Number)
    requires IsProper(n)
    ensures IsFraction(TailText(n))
    ensures TailText(n) == [] || !IsDigit(TailText(n)[0])
  {
    ExponentReads(n);
    var e := ExponentText(n.exponent);
    hide IsExponent, ExponentText;
    if n.fraction.Some? {
      var f := n.fraction.value;
      var t := TailText(n);
      assert t[1..] == f + e;
      DigitsFirst(f, e);
      assert t[1 + |f|..] == e;
    } else {
      assert TailText(n) == e;
    }
  }

  lemma NumberReads(n: Number)
    requires IsProper(n)
    ensures IsNumber(NumberText(n))
  {
    FractionReads(n);
    var tail, t := TailText(n), NumberText(n);
    hide IsFraction, TailText;
    DigitsFirst(n.whole, tail);
    var u := n.whole + tail;
    assert u[|n.whole|..] == tail;
    if n.minus {
      assert t[1..] == u;
    } else {
      assert t == u && t[0] != 0x2D;
    }
  }

  lemma ExponentOf(t: Text) returns (x: Option<Exponent>)
    requires IsExponent(t)
    ensures ExponentText(x) == t
    ensures x.Some? ==>
              && (x.value.letter == 'e' as int || x.value.letter == 'E' as int)
              && (x.value.sign == [] || x.value.sign == ['+' as int] || x.value.sign == ['-' as int])
              && x.value.digits != [] && AllDigits(x.value.digits)
  {
    if t == [] {
      x := None;
    } else {
      var signed := |t| > 1 && (t[1] == 0x2B || t[1] == 0x2D);
      var sign, digits := if signed then [t[1]] else [], if signed then t[2..] else t[1..];
      WholeDigits(digits);
      x := Some(Exponent(t[0], sign, digits));
      assert [t[0]] + sign + digits == t;
    }
  }

  predicate IsWhole(whole: Text) {
    whole != [] && AllDigits(whole) && (whole[0] == '0' as int ==> |whole| == 1)
  }

  lemma FractionOf(t: Text, minus: bool, whole: Text) returns (n: Number)
    requires t != [] && t[0] == 0x2E && IsFraction(t) && IsWhole(whole)
    ensures IsProper(n) && TailText(n) == t && n.minus == minus && n.whole == whole
  {
    var k := DigitsLength(t[1..]);
    DigitsTaken(t[1..]);
    assert t[1..][k..] == t[1 + k..];
    var rest, digits := t[1 + k..], t[1..][..k];
    assert t == ['.' as int] + digits + rest;
    var x := ExponentOf(rest);
    hide IsExponent, ExponentText, DigitsLength, AllDigits, IsFraction;
    n := Number(minus, whole, Some(digits), x);
  }

  lemma TailOf(t: Text, minus: bool, whole: Text) returns (n: Number)
    requires IsFraction(t) && IsWhole(whole)
    ensures IsProper(n) && TailText(n) == t && n.minus == minus && n.whole == whole
  {
    if t != [] && t[0] == 0x2E {
      n := FractionOf(t, minus, whole);
    } else {
      var x := ExponentOf(t);
      n := Number(minus, whole, None, x);
      hide IsExponent, ExponentText, AllDigits;
      assert TailText(n) == [] + t;
    }
  }

  lemma Unsigned(u: Text) returns (whole: Text, tail: Text)
    requires DigitsLength(u) > 0 && (DigitsLength(u) == 1 || u[0] != 0x30) && IsFraction(u[DigitsLength(u)..])
    ensures IsWhole(whole) && IsFraction(tail) && u == whole + tail
  {
    var k := DigitsLength(u);
    DigitsTaken(u);
    whole, tail := u[..k], u[k..];
    assert whole[0] == u[0];
    hide IsFraction, DigitsLength, AllDigits;
  }

  lemma NumberOf(t: Text) returns (n: Number)
    requires IsNumber(t)
    ensures IsProper(n) && NumberText(n) == t
  {
    var minus := t != [] && t[0] == 0x2D;
    var u := if minus then t[1..] else t;
    assert t == (if minus then ['-' as int] else []) + u;
    var whole, tail := Unsigned(u);
    hide IsFraction, IsProper, TailText, IsWhole, IsNumber;
    n := TailOf(tail, minus, whole);
  }

  /** The reader's numbers are those of the grammar. */
  lemma NumberIff(t: Text)
    ensures IsNumber(t) <==> IsNumeral(t)
  {
    if IsNumber(t) {
      var n := NumberOf(t);
    }
    hide IsNumber, IsProper, NumberText;
    forall n | IsProper(n) && NumberText(n) == t ensures IsNumber(t) {
      NumberReads(n);
    }
  }

  lemma WordIff(t: Text)
    ensures IsScalar(t) <==> IsWord(t)
  {
    NumberIff(t);
    assert Ascii("null") == ['n' as int, 'u' as int, 'l' as int, 'l' as int];
    assert Ascii("true") == ['t' as int, 'r' as int, 'u' as int, 'e' as int];
    assert Ascii("false") == ['f' as int, 'a' as int, 'l' as int, 's' as int, 'e' as int];
    hide IsNumber, IsNumeral, Ascii;
  }

  // ---------------------------------------------------------------- documents

  /** A value as it is laid out: every blank between two of its tokens is noted. In an array an item has
      no name, and its first two blanks are one. */
  datatype Laid = Word(spelling: Text) | Quote(body: Text) | Block(isObject: bool, blank: Text, items: LaidItems)
  datatype LaidItems =
    | End
    | Item(before: Text, name: Text, colon: Text, between: Text, value: Laid, after: Text, rest: LaidItems)

  function Open(isObject: bool): Unit {
    (if isObject then '{' else '[') as int
  }

  function Close(isObject: bool): Unit {
    (if isObject then '}' else ']') as int
  }

  function Quotes(t: Text): Text {
    ['\"' as int] + t + ['\"' as int]
  }

  /** The name of an item, with its quotes, its colon and the blanks around it. */
  function WriteName(isObject: bool, before: Text, name: Text, colon: Text, between: Text): Text {
    before + if isObject then Quotes(name) + (colon + ([':' as int] + between)) else []
  }

  function Write(l: Laid): Text
    decreases l, 0
  {
    match l
    case Word(t) => t
    case Quote(b) => Quotes(b)
    case Block(o, w, items) => [Open(o)] + ((if items.End? then w else WriteItems(o, items)) + [Close(o)])
  }

  function WriteItems(isObject: bool, items: LaidItems): Text
    requires items.Item?
    decreases items, 1
  {
    WriteName(isObject, items.before, items.name, items.colon, items.between)
    + (Write(items.value)
       + (items.after + if items.rest.End? then [] else [',' as int] + WriteItems(isObject, items.rest)))
  }

  /** The tokens are tokens and the blanks are blank. */
  ghost predicate WellLaid(l: Laid)
    decreases l, 0
  {
    match l
    case Word(t) => IsWord(t)
    case Quote(b) => IsStringBody(b)
    case Block(o, w, items) => Blank(w) && (items.Item? ==> w == [] && WellLaidItems(o, items))
  }

  ghost predicate WellLaidItems(isObject: bool, items: LaidItems)
    requires items.Item?
    decreases items, 1
  {
    && Blank(items.before) && Blank(items.colon) && Blank(items.between) && Blank(items.after)
    && (if isObject then IsStringBody(items.name)
        else items.name == [] && items.colon == [] && items.between == [])
    && WellLaid(items.value) && (items.rest.Item? ==> WellLaidItems(isObject, items.rest))
  }

  /** The value with its layout forgotten. */
  function Plain(l: Laid): Tree
    decreases l, 0
  {
    match l
    case Word(t) => Scalar(t)
    case Quote(b) => Str(b)
    case Block(o, _, items) => Group(o, PlainItems(items))
  }

  function PlainItems(items: LaidItems): Items
    decreases items, 0
  {
    match items
    case End => Nil
    case Item(_, n, _, _, v, _, rest) => Cons(n, Plain(v), PlainItems(rest))
  }

  // ---------------------------------------------------------------- blanks

  lemma {:induction false} TrimBlank(w: Text, t: Text)
    requires Blank(w)
    ensures Trim(w + t) == Trim(t)
    decreases |w|
  {
    if w == [] {
      assert w + t == t;
    } else {
      assert (w + t)[1..] == w[1..] + t;
      TrimBlank(w[1..], t);
    }
  }

  lemma {:induction false} TrimSplits(t: Text) returns (w: Text)
    ensures Blank(w) && t == w + Trim(t)
    decreases |t|
  {
    if t != [] && Space(t[0]) {
      var w' := TrimSplits(t[1..]);
      w := [t[0]] + w';
      assert w + Trim(t) == [t[0]] + (w' + Trim(t[1..]));
    } else {
      w := [];
    }
  }

  lemma Solid(t: Text)
    requires t != [] && !Space(t[0])
    ensures Trim(t) == t
  {
  }

  // ---------------------------------------------------------------- tokens

  lemma {:induction false} AllWordy(t: Text)
    requires forall i :: 0 <= i < |t| ==> Wordy(t[i])
    ensures WordLength(t) == |t|
    decreases |t|
  {
    if t != [] {
      AllWordy(t[1..]);
    }
  }

  lemma DigitsWordy(t: Text)
    requires AllDigits(t)
    ensures forall i :: 0 <= i < |t| ==> Wordy(t[i])
  {
  }

  lemma ExponentWordy(x: Option<Exponent>, i: nat)
    requires x.Some? ==> (x.value.letter == 'e' as int || x.value.letter == 'E' as int) && AllDigits(x.value.digits)
                         && (x.value.sign == [] || x.value.sign == ['+' as int] || x.value.sign == ['-' as int])
    requires i < |ExponentText(x)|
    ensures Wordy(ExponentText(x)[i])
  {
  }

  lemma NumberWordy(n: Number)
    requires IsProper(n)
    ensures NumberText(n) != [] && forall i :: 0 <= i < |NumberText(n)| ==> Wordy(NumberText(n)[i])
  {
    var x := ExponentText(n.exponent);
    forall i | 0 <= i < |x| ensures Wordy(x[i]) {
      ExponentWordy(n.exponent, i);
    }
    hide ExponentText;
  }

  lemma NumeralWordy(t: Text)
    requires IsNumeral(t)
    ensures t != [] && forall i :: 0 <= i < |t| ==> Wordy(t[i])
  {
    var n :| IsProper(n) && NumberText(n) == t;
    NumberWordy(n);
  }

  lemma WordFits(t: Text)
    requires IsWord(t)
    ensures WellFormed(Scalar(t))
  {
    WordIff(t);
    hide IsNumeral, IsScalar;
    if IsNumeral(t) {
      NumeralWordy(t);
    }
    AllWordy(t);
  }

  lemma BodyIff(b: Text)
    ensures IsBody(b) <==> IsStringBody(b)
  {
    Spelling.LiteralIff(b);
  }

  // ---------------------------------------------------------------- whatever is laid out is read

  /** What may follow a laid out value. */
  predicate Stops(t: Text) {
    t == [] || !Wordy(t[0])
  }

  lemma Starts(l: Laid)
    requires WellLaid(l)
    ensures Write(l) != [] && !Space(Write(l)[0]) && Write(l)[0] != Close(true) && Write(l)[0] != Close(false)
  {
    if l.Word? {
      WordFits(l.spelling);
      assert Wordy(l.spelling[0]);
      hide IsWord;
    }
  }

  /** Only what follows the blanks matters. */
  lemma SameValue(a: Text, b: Text)
    requires Trim(a) == Trim(b)
    ensures Value(a) == Value(b)
  {
  }

  lemma WordReads(w: Text, t: Text, rest: Text)
    requires Blank(w) && IsWord(t) && Stops(rest)
    ensures Value(w + (t + rest)) == Some((Scalar(t), rest))
  {
    WordFits(t);
    TrimBlank(w, t + rest);
    ScalarOfPrint(t, rest);
    assert Wordy(t[0]);
    Solid(t + rest);
    SameValue(w + (t + rest), t + rest);
  }

  lemma QuoteReads(w: Text, b: Text, rest: Text)
    requires Blank(w) && IsStringBody(b)
    ensures Value(w + (Quotes(b) + rest)) == Some((Str(b), rest))
  {
    BodyIff(b);
    TrimBlank(w, Quotes(b) + rest);
    assert Quotes(b) + rest == [QUOTE] + b + [QUOTE] + rest;
    StrOfPrint(b, rest);
    SameValue(w + (Quotes(b) + rest), Quotes(b) + rest);
  }

  lemma EmptyReads(w: Text, o: bool, blank: Text, rest: Text)
    requires Blank(w) && Blank(blank)
    ensures Value(w + ([Open(o)] + (blank + ([Close(o)] + rest)))) == Some((Group(o, Nil), rest))
  {
    var u := blank + ([Close(o)] + rest);
    var t := [Open(o)] + u;
    TrimBlank(w, t);
    TrimBlank(blank, [Close(o)] + rest);
    Solid([Close(o)] + rest);
    assert t[1..] == u && Trim(t) == t;
    assert ([Close(o)] + rest)[1..] == rest;
    SameValue(w + t, t);
  }

  lemma BlockReads(w: Text, o: bool, u: Text, items: Items, rest: Text)
    requires Blank(w) && Trim(u) != [] && Trim(u)[0] != Close(o) && Members(o, u) == Some((items, rest))
    ensures Value(w + ([Open(o)] + u)) == Some((Group(o, items), rest))
  {
    var t := [Open(o)] + u;
    TrimBlank(w, t);
    assert t[1..] == u && Trim(t) == t;
    SameValue(w + t, t);
  }

  lemma NameIsRead(o: bool, before: Text, name: Text, colon: Text, between: Text, rest: Text)
    requires Blank(before) && Blank(colon) && Blank(between)
    requires if o then IsStringBody(name) else name == [] && colon == [] && between == []
    ensures Name(o, WriteName(o, before, name, colon, between) + rest)
            == Some((name, if o then between + rest else before + rest))
  {
    var t := WriteName(o, before, name, colon, between) + rest;
    if o {
      var w := [':' as int] + (between + rest);
      var v := colon + w;
      var u := name + [QUOTE] + v;
      assert t == before + ([QUOTE] + u);
      TrimBlank(before, [QUOTE] + u);
      Solid([QUOTE] + u);
      assert ([QUOTE] + u)[1..] == u;
      BodyIff(name);
      LiteralOfBody(name, v);
      TrimBlank(colon, w);
      Solid(w);
      assert w[1..] == between + rest;
      hide IsStringBody, Blank;
    } else {
      assert t == before + rest;
    }
  }

  /** What follows the value of an item: blanks, and a comma and the other items or the closing bracket. */
  function Rest(o: bool, items: LaidItems, rest: Text): Text {
    if items.End? then [Close(o)] + rest else [',' as int] + (WriteItems(o, items) + ([Close(o)] + rest))
  }

  lemma RestStops(o: bool, after: Text, items: LaidItems, rest: Text)
    requires Blank(after)
    ensures Stops(after + Rest(o, items, rest)) && Trim(after + Rest(o, items, rest)) == Rest(o, items, rest)
  {
    hide WriteItems;
    TrimBlank(after, Rest(o, items, rest));
    Solid(Rest(o, items, rest));
  }

  lemma MoreTail(o: bool, items: LaidItems, rest: Text)
    ensures (if items.End? then [] else [',' as int] + WriteItems(o, items)) + ([Close(o)] + rest)
         == Rest(o, items, rest)
  {
    hide WriteItems;
    if items.Item? {
      assert ([',' as int] + WriteItems(o, items)) + ([Close(o)] + rest)
          == [',' as int] + (WriteItems(o, items) + ([Close(o)] + rest));
    }
  }

  lemma Reassociate(a: Text, b: Text, c: Text, d: Text, e: Text)
    ensures a + (b + (c + d)) + e == a + (b + (c + (d + e)))
  {
  }

  lemma ItemSplits(o: bool, items: LaidItems, rest: Text)
    requires items.Item?
    ensures WriteItems(o, items) + ([Close(o)] + rest)
         == WriteName(o, items.before, items.name, items.colon, items.between)
            + (Write(items.value) + (items.after + Rest(o, items.rest, rest)))
  {
    var name, value := WriteName(o, items.before, items.name, items.colon, items.between), Write(items.value);
    var more := if items.rest.End? then [] else [',' as int] + WriteItems(o, items.rest);
    var tail := [Close(o)] + rest;
    assert WriteItems(o, items) == name + (value + (items.after + more));
    hide WriteItems, WriteName, Write;
    Reassociate(name, value, items.after, more, tail);
    assert more + tail == Rest(o, items.rest, rest) by {
      hide *;
      MoreTail(o, items.rest, rest);
    }
  }

  lemma NameStarts(before: Text, name: Text, colon: Text, between: Text, more: Text)
    requires Blank(before)
    ensures var u := WriteName(true, before, name, colon, between) + more; Trim(u) != [] && Trim(u)[0] == QUOTE
  {
    var v := name + ([QUOTE] + (colon + ([':' as int] + between)) + more);
    assert WriteName(true, before, name, colon, between) + more == before + ([QUOTE] + v);
    TrimBlank(before, [QUOTE] + v);
    Solid([QUOTE] + v);
  }

  lemma ValueStarts(before: Text, l: Laid, more: Text)
    requires Blank(before) && WellLaid(l)
    ensures var u := before + (Write(l) + more); Trim(u) != [] && Trim(u)[0] != Close(false)
  {
    Starts(l);
    hide Write, WellLaid;
    TrimBlank(before, Write(l) + more);
    Solid(Write(l) + more);
  }

  lemma ItemsStart(o: bool, items: LaidItems, rest: Text)
    requires items.Item? && WellLaidItems(o, items)
    ensures var u := WriteItems(o, items) + ([Close(o)] + rest); Trim(u) != [] && Trim(u)[0] != Close(o)
  {
    ItemSplits(o, items, rest);
    var more := Write(items.value) + (items.after + Rest(o, items.rest, rest));
    if o {
      NameStarts(items.before, items.name, items.colon, items.between, more);
    } else {
      ValueStarts(items.before, items.value, items.after + Rest(o, items.rest, rest));
      assert WriteName(o, items.before, items.name, items.colon, items.between) == items.before;
    }
    hide WriteItems, WriteName, Write, Rest, WellLaid, WellLaidItems;
  }

  lemma MembersStep(o: bool, t: Text, name: Text, u: Text, value: Tree, tail: Text, w: Text, items: Items, rest: Text)
    requires Name(o, t) == Some((name, u)) && Value(u) == Some((value, tail)) && Trim(tail) == w && w != []
    requires if items.Nil? then w == [Close(o)] + rest else w[0] == COMMA && Members(o, w[1..]) == Some((items, rest))
    ensures Members(o, t) == Some((Cons(name, value, items), rest))
  {
    assert items.Nil? ==> w[1..] == rest;
  }

  lemma BlockSplits(o: bool, blank: Text, items: LaidItems, rest: Text)
    ensures Write(Block(o, blank, items)) + rest
         == [Open(o)] + (if items.End? then blank + ([Close(o)] + rest)
                         else WriteItems(o, items) + ([Close(o)] + rest))
  {
    var body := if items.End? then blank else WriteItems(o, items);
    assert Write(Block(o, blank, items)) == [Open(o)] + (body + [Close(o)]);
    hide Write, WriteItems;
    assert [Open(o)] + (body + [Close(o)]) + rest == [Open(o)] + (body + ([Close(o)] + rest));
  }

  lemma {:induction false} LaidReads(w: Text, l: Laid, rest: Text)
    requires Blank(w) && WellLaid(l) && Stops(rest)
    ensures Value(w + (Write(l) + rest)) == Some((Plain(l), rest))
    decreases l, 0
  {
    match l
    case Word(t) => WordReads(w, t, rest);
    case Quote(b) => QuoteReads(w, b, rest);
    case Block(o, blank, items) =>
      BlockSplits(o, blank, items, rest);
      if items.End? {
        EmptyReads(w, o, blank, rest);
      } else {
        ItemsRead(o, items, rest);
        ItemsStart(o, items, rest);
        BlockReads(w, o, WriteItems(o, items) + ([Close(o)] + rest), PlainItems(items), rest);
      }
  }

  lemma {:induction false} ItemsRead(o: bool, items: LaidItems, rest: Text)
    requires items.Item? && WellLaidItems(o, items)
    ensures Members(o, WriteItems(o, items) + ([Close(o)] + rest)) == Some((PlainItems(items), rest))
    decreases items, 1
  {
    var tail := items.after + Rest(o, items.rest, rest);
    var between := if o then items.between else items.before;
    var u := between + (Write(items.value) + tail);
    var t := WriteItems(o, items) + ([Close(o)] + rest);
    RestStops(o, items.after, items.rest, rest);
    ItemSplits(o, items, rest);
    NameIsRead(o, items.before, items.name, items.colon, items.between, Write(items.value) + tail);
    LaidReads(between, items.value, tail);
    assert PlainItems(items) == Cons(items.name, Plain(items.value), PlainItems(items.rest));
    if items.rest.Item? {
      ItemsRead(o, items.rest, rest);
      assert Rest(o, items.rest, rest)[1..] == WriteItems(o, items.rest) + ([Close(o)] + rest);
    }
    hide Write, WriteItems, WriteName, Plain, WellLaid, WellLaidItems, Members, Value;
    MembersStep(o, t, items.name, u, Plain(items.value), tail, Rest(o, items.rest, rest), PlainItems(items.rest), rest);
  }

  // ---------------------------------------------------------------- whatever is read is laid out

  lemma Assoc(a: Text, b: Text, c: Text)
    ensures (a + b) + c == a + (b + c)
  {
  }

  lemma LiteralStep(t: Text)
    requires Literal(t).Some? && t[0] != QUOTE
    ensures var n := PieceLength(t);
            0 < n <= |t| && Literal(t[n..]).Some?
            && Literal(t).value == (t[..n] + Literal(t[n..]).value.0, Literal(t[n..]).value.1)
  {
  }

  lemma LiteralEnds(t: Text)
    requires Literal(t).Some?
    ensures t != [] && (t[0] == QUOTE ==> Literal(t).value == ([], t[1..]))
  {
  }

  lemma {:induction false} LiteralSplits(t: Text)
    requires Literal(t).Some?
    ensures var (b, rest) := Literal(t).value; IsBody(b) && t == b + ([QUOTE] + rest)
    decreases |t|
  {
    LiteralIsBody(t);
    LiteralEnds(t);
    hide Literal, IsBody, PieceLength;
    if t[0] == QUOTE {
      assert t == [] + ([QUOTE] + t[1..]);
    } else {
      LiteralStep(t);
      var n := PieceLength(t);
      LiteralSplits(t[n..]);
      var (b, rest) := Literal(t[n..]).value;
      assert t == t[..n] + t[n..];
      Assoc(t[..n], b, [QUOTE] + rest);
    }
  }

  lemma QuotesText(b: Text, rest: Text)
    ensures [QUOTE] + (b + ([QUOTE] + rest)) == Quotes(b) + rest
  {
  }

  lemma QuoteIsLaid(u: Text) returns (l: Laid)
    requires u != [] && u[0] == QUOTE && Literal(u[1..]).Some?
    ensures var (b, rest) := Literal(u[1..]).value; WellLaid(l) && Plain(l) == Str(b) && u == Write(l) + rest
  {
    var (b, rest) := Literal(u[1..]).value;
    LiteralSplits(u[1..]);
    BodyIff(b);
    QuotesText(b, rest);
    l := Quote(b);
    assert u == [QUOTE] + u[1..];
    hide Literal, IsBody, IsStringBody, Quotes;
  }

  lemma WordIsLaid(u: Text) returns (l: Laid)
    requires IsScalar(u[..WordLength(u)])
    ensures var n := WordLength(u); WellLaid(l) && Plain(l) == Scalar(u[..n]) && u == Write(l) + u[n..]
  {
    var n := WordLength(u);
    WordIff(u[..n]);
    hide IsScalar, IsWord, WordLength;
    l := Word(u[..n]);
  }

  lemma Headed(t: Text)
    requires t != []
    ensures t == [t[0]] + t[1..]
  {
  }

  lemma EmptyIsLaid(o: bool, u: Text) returns (l: Laid)
    requires u != [] && u[0] == Opening(o) && Trim(u[1..]) != [] && Trim(u[1..])[0] == Closing(o)
    ensures WellLaid(l) && Plain(l) == Group(o, Nil) && u == Write(l) + Trim(u[1..])[1..]
  {
    var blank := TrimSplits(u[1..]);
    var w := Trim(u[1..]);
    l := Block(o, blank, End);
    hide Trim, Write, Blank;
    Headed(w);
    Headed(u);
    BlockSplits(o, blank, End, w[1..]);
  }

  lemma BlockIsLaid(o: bool, u: Text, items: LaidItems, rest: Text) returns (l: Laid)
    requires u != [] && u[0] == Opening(o) && items.Item? && WellLaidItems(o, items)
    requires u[1..] == WriteItems(o, items) + ([Close(o)] + rest)
    ensures WellLaid(l) && Plain(l) == Group(o, PlainItems(items)) && u == Write(l) + rest
  {
    l := Block(o, [], items);
    BlockSplits(o, [], items, rest);
    hide Write, WriteItems, WellLaidItems;
    assert u == [Open(o)] + u[1..];
  }

  /** The name of a member up to its colon; nothing in an array. */
  lemma NameIsLaid(o: bool, t: Text) returns (before: Text, colon: Text)
    requires Name(o, t).Some?
    ensures var (name, u) := Name(o, t).value;
            && Blank(before) && Blank(colon)
            && (if o then IsStringBody(name) && t == before + (Quotes(name) + (colon + ([':' as int] + u)))
                else name == [] && before == [] && colon == [] && t == u)
  {
    before, colon := [], [];
    if o {
      before := TrimSplits(t);
      var u := Trim(t);
      var (name, rest) := Literal(u[1..]).value;
      colon := TrimSplits(rest);
      var w := Trim(rest);
      hide Trim, Literal, IsBody, IsStringBody, Blank, Quotes;
      LiteralSplits(u[1..]);
      BodyIff(name);
      Headed(w);
      Headed(u);
      QuotesText(name, rest);
    }
  }

  lemma NameText(before: Text, name: Text, colon: Text, w: Text, more: Text)
    ensures before + (Quotes(name) + (colon + ([':' as int] + (w + more))))
         == WriteName(true, before, name, colon, w) + more
  {
    hide Quotes;
    var q := Quotes(name);
    assert [':' as int] + (w + more) == ([':' as int] + w) + more;
    assert colon + (([':' as int] + w) + more) == (colon + ([':' as int] + w)) + more;
    assert q + ((colon + ([':' as int] + w)) + more) == (q + (colon + ([':' as int] + w))) + more;
  }

  lemma ItemIsLaid(o: bool, t: Text, u: Text, before: Text, name: Text, colon: Text, w: Text, v: Laid, tail: Text,
                   after: Text, more: LaidItems, rest: Text)
    returns (items: LaidItems)
    requires Blank(before) && Blank(colon) && Blank(w) && Blank(after) && WellLaid(v)
    requires if o then IsStringBody(name) && t == before + (Quotes(name) + (colon + ([':' as int] + u)))
             else name == [] && before == [] && colon == [] && t == u
    requires u == w + (Write(v) + tail) && tail == after + Rest(o, more, rest)
    requires more.Item? ==> WellLaidItems(o, more)
    ensures items.Item? && WellLaidItems(o, items) && PlainItems(items) == Cons(name, Plain(v), PlainItems(more))
    ensures t == WriteItems(o, items) + ([Close(o)] + rest)
  {
    items := if o then Item(before, name, colon, w, v, after, more) else Item(w, [], [], [], v, after, more);
    ItemSplits(o, items, rest);
    hide Write, WriteItems, WellLaid, IsStringBody, Blank, Rest, Plain;
    if o {
      NameText(before, name, colon, w, Write(v) + tail);
    } else {
      assert WriteName(o, w, [], [], []) == w;
    }
  }

  /** What the reader finds of a first member. */
  lemma MembersShape(o: bool, t: Text)
    requires Members(o, t).Some?
    ensures Name(o, t).Some?
    ensures var (name, u) := Name(o, t).value;
            Value(u).Some? && |u| <= |t|
            && (var (v, tail) := Value(u).value; var next := Trim(tail);
                next != [] && |next| < |t|
                && if next[0] == Closing(o) then Members(o, t).value == (Cons(name, v, Nil), next[1..])
                   else next[0] == COMMA && Members(o, next[1..]).Some?
                        && Members(o, t).value == (Cons(name, v, Members(o, next[1..]).value.0), Members(o,
                            next[1..]).value.1))
  {
  }

  lemma RestIs(o: bool, next: Text, items: LaidItems, rest: Text)
    requires next != []
    requires if items.End? then next[0] == Closing(o) && next[1..] == rest
             else next[0] == COMMA && next[1..] == WriteItems(o, items) + ([Close(o)] + rest)
    ensures next == Rest(o, items, rest)
  {
    hide WriteItems;
    Headed(next);
  }

  lemma {:induction false} ValueIsLaid(t: Text) returns (w: Text, l: Laid)
    requires Value(t).Some?
    ensures var (v, rest) := Value(t).value; Blank(w) && WellLaid(l) && Plain(l) == v && t == w + (Write(l) + rest)
    decreases |t|, 1
  {
    var u := Trim(t);
    w := TrimSplits(t);
    if u[0] == QUOTE {
      l := QuoteIsLaid(u);
    } else if u[0] == Opening(false) || u[0] == Opening(true) {
      var o := u[0] == Opening(true);
      if Trim(u[1..]) != [] && Trim(u[1..])[0] == Closing(o) {
        l := EmptyIsLaid(o, u);
      } else {
        var items := MembersAreLaid(o, u[1..]);
        l := BlockIsLaid(o, u, items, Members(o, u[1..]).value.1);
      }
    } else {
      l := WordIsLaid(u);
    }
  }

  lemma {:induction false} MembersAreLaid(o: bool, t: Text) returns (items: LaidItems)
    requires Members(o, t).Some?
    ensures items.Item? && WellLaidItems(o, items)
    ensures var (plain, rest) := Members(o, t).value;
            PlainItems(items) == plain && t == WriteItems(o, items) + ([Close(o)] + rest)
    decreases |t|, 2
  {
    MembersShape(o, t);
    assert PlainItems(End) == Nil;
    hide Members, Value, Name, Write, WriteItems, WellLaid, WellLaidItems, Plain, PlainItems, Trim, IsStringBody, Rest,
        Blank;
    var (name, u) := Name(o, t).value;
    var before, colon := NameIsLaid(o, t);
    var w, v := ValueIsLaid(u);
    var tail := Value(u).value.1;
    var after := TrimSplits(tail);
    var next := Trim(tail);
    var rest := Members(o, t).value.1;
    var more := End;
    if next[0] != Closing(o) {
      more := MembersAreLaid(o, next[1..]);
    }
    RestIs(o, next, more, rest);
    items := ItemIsLaid(o, t, u, before, name, colon, w, v, tail, after, more, rest);
  }

  // ---------------------------------------------------------------- the reader is the grammar

  /** The text is a document of this value: the value, laid out, and blanks around it. */
  ghost predicate IsDocument(t: Text, v: Tree) {
    exists w, l, z :: Blank(w) && WellLaid(l) && Blank(z) && t == w + (Write(l) + z) && Plain(l) == v
  }

  lemma BlankIff(t: Text)
    ensures Blank(t) <==> Trim(t) == []
  {
    if Blank(t) {
      TrimBlank(t, []);
      assert t + [] == t;
    }
    var w := TrimSplits(t);
    assert Trim(t) == [] ==> t == w;
  }

  /** The JSON reader accepts exactly the documents of the grammar, and reads their value. */
  lemma ParseIff(t: Text, v: Tree)
    ensures Parse(t) == Some(v) <==> IsDocument(t, v)
  {
    if Parse(t) == Some(v) {
      var w, l := ValueIsLaid(t);
      var z := Value(t).value.1;
      BlankIff(z);
      hide Value, Trim, Blank, WellLaid, Write, Plain;
      assert t == w + (Write(l) + z);
    }
    if IsDocument(t, v) {
      var w, l, z :| Blank(w) && WellLaid(l) && Blank(z) && t == w + (Write(l) + z) && Plain(l) == v;
      assert Stops(z);
      LaidReads(w, l, z);
      BlankIff(z);
      hide Value, Trim, Blank, WellLaid, Write, Plain, IsDocument;
    }
  }

  // ---------------------------------------------------------------- compact texts

  predicate BareItems(items: LaidItems)
    requires items.Item?
    decreases items, 1
  {
    && items.before == [] && items.colon == [] && items.between == [] && items.after == []
    && Bare(items.value) && (items.rest.Item? ==> BareItems(items.rest))
  }

  /** Nothing but tokens. */
  predicate Bare(l: Laid)
    decreases l, 0
  {
    l.Block? ==> l.blank == [] && (l.items.Item? ==> BareItems(l.items))
  }

  lemma ItemText(o: bool, name: Text, value: Text, more: Text)
    ensures WriteName(o, [], name, [], []) + (value + ([] + more))
         == (if o then [QUOTE] + name + [QUOTE] + [COLON] else []) + value + more
  {
  }

  lemma {:induction false} ItemsPrintBare(o: bool, items: Items) returns (laid: LaidItems)
    requires items.Cons? && WellFormedItems(o, items)
    ensures laid.Item? && BareItems(laid) && WellLaidItems(o, laid) && PlainItems(laid) == items
    ensures WriteItems(o, laid) == PrintItems(o, items)
    decreases items, 0
  {
    var value := PrintsBare(items.value);
    BodyIff(items.name);
    var rest := End;
    if items.rest.Cons? {
      rest := ItemsPrintBare(o, items.rest);
    }
    laid := Item([], items.name, [], [], value, [], rest);
    ItemText(o, items.name, Print(items.value), if items.rest.Nil? then [] else [COMMA] + PrintItems(o, items.rest));
  }

  lemma {:induction false} PrintsBare(v: Tree) returns (l: Laid)
    requires WellFormed(v)
    ensures Bare(l) && WellLaid(l) && Plain(l) == v && Write(l) == Print(v)
    decreases v, 0
  {
    match v
    case Scalar(t) =>
      WordIff(t);
      l := Word(t);
    case Str(b) =>
      BodyIff(b);
      l := Quote(b);
    case Group(o, items) =>
      if items.Nil? {
        l := Block(o, [], End);
      } else {
        var laid := ItemsPrintBare(o, items);
        l := Block(o, [], laid);
      }
  }

  /** What compaction writes is a document without a blank. */
  lemma CompactIsBare(t: Text) returns (l: Laid)
    requires Parse(t).Some?
    ensures Bare(l) && WellLaid(l) && Compact(t) == Some(Write(l))
  {
    CompactKeepsMeaning(t);
    l := PrintsBare(Safe(Parse(t).value));
  }
}
