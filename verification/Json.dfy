/** JSON texts as Go's encoding/json reads and compacts them (RFC 8259): a recursive-descent reader,
    the compact printer, and the meaning of string literals. */
module Json {
  import opened Domain

  /** One unit of a Go string: a code point, or BAD + b for a byte b that is not valid UTF-8. Code
      points in the surrogate range cannot occur. */
  type Unit = u: int | 0 <= u < 0xD800 || 0xE000 <= u < 0x11_0100

  type Text = seq<Unit>

  const BAD: int := 0x11_0000
  const REPLACEMENT: Unit := 0xFFFD
  const QUOTE: Unit := 0x22
  const BACKSLASH: Unit := 0x5C
  const COMMA: Unit := 0x2C
  const COLON: Unit := 0x3A
  const LOWER_U: Unit := 0x75

  function Ascii(s: string): (t: Text)
    requires forall i :: 0 <= i < |s| ==> s[i] as int < 0x80
    ensures |t| == |s|
  {
    seq(|s|, i requires 0 <= i < |s| => s[i] as int)
  }

  /** A JSON text with its layout removed. Scalars and string bodies keep their spelling. An item of
      an array has no name. */
  datatype Tree = Scalar(spelling: Text) | Str(body: Text) | Group(isObject: bool, items: Items)
  datatype Items = Nil | Cons(name: Text, value: Tree, rest: Items)

  function Opening(isObject: bool): Unit {
    if isObject then 0x7B else 0x5B
  }

  function Closing(isObject: bool): Unit {
    if isObject then 0x7D else 0x5D
  }

  // ---------------------------------------------------------------- lexical grammar

  predicate Space(u: Unit) {
    u == 0x20 || u == 0x09 || u == 0x0A || u == 0x0D
  }

  function Trim(t: Text): (r: Text)
    ensures |r| <= |t|
    ensures r != [] ==> !Space(r[0])
  {
    if t != [] && Space(t[0]) then Trim(t[1..]) else t
  }

  predicate IsDigit(u: Unit) {
    0x30 <= u <= 0x39
  }

  function HexValue(u: Unit): Option<nat> {
    if IsDigit(u) then Some(u - 0x30)
    else if 0x61 <= u <= 0x66 then Some(u - 0x61 + 10)
    else if 0x41 <= u <= 0x46 then Some(u - 0x41 + 10)
    else None
  }

  predicate AllHex(t: Text) {
    forall i :: 0 <= i < |t| ==> HexValue(t[i]).Some?
  }

  /** The letter after a backslash that stands for one character. */
  function Simple(u: Unit): Option<Unit> {
    if u == QUOTE || u == BACKSLASH || u == 0x2F then Some(u)
    else if u == 0x62 then Some(0x08)
    else if u == 0x66 then Some(0x0C)
    else if u == 0x6E then Some(0x0A)
    else if u == 0x72 then Some(0x0D)
    else if u == 0x74 then Some(0x09)
    else None
  }

  /** The length of the first character or escape of a string body, 0 if it is malformed. */
  function PieceLength(t: Text): (n: nat)
    requires t != []
    ensures n <= |t|
  {
    if t[0] == QUOTE || t[0] < 0x20 then 0
    else if t[0] != BACKSLASH then 1
    else if |t| >= 2 && Simple(t[1]).Some? then 2
    else if |t| >= 6 && t[1] == LOWER_U && AllHex(t[2..6]) then 6
    else 0
  }

  /** A well-formed string body. */
  predicate IsBody(t: Text)
    decreases |t|
  {
    t == [] || (PieceLength(t) > 0 && IsBody(t[PieceLength(t)..]))
  }

  /** Everything up to the closing quote, and what follows it. */
  function Literal(t: Text): (r: Option<(Text, Text)>)
    ensures r.Some? ==> |r.value.1| < |t|
    decreases |t|
  {
    if t == [] then None
    else if t[0] == QUOTE then Some(([], t[1..]))
    else
      var n := PieceLength(t);
      if n == 0 then None
      else
        match Literal(t[n..])
        case None => None
        case Some((body, rest)) => Some((t[..n] + body, rest))
  }

  /** The characters numbers and the three names are made of. */
  predicate Wordy(u: Unit) {
    IsDigit(u) || 0x61 <= u <= 0x7A || 0x41 <= u <= 0x5A || u == 0x2B || u == 0x2D || u == 0x2E
  }

  function WordLength(t: Text): (n: nat)
    ensures n <= |t|
  {
    if t != [] && Wordy(t[0]) then 1 + WordLength(t[1..]) else 0
  }

  function DigitsLength(t: Text): (n: nat)
    ensures n <= |t|
  {
    if t != [] && IsDigit(t[0]) then 1 + DigitsLength(t[1..]) else 0
  }

  predicate IsExponent(t: Text) {
    t == [] || (
      (t[0] == 0x65 || t[0] == 0x45)
      && var u := if |t| > 1 && (t[1] == 0x2B || t[1] == 0x2D) then t[2..] else t[1..];
         u != [] && DigitsLength(u) == |u|)
  }

  predicate IsFraction(t: Text) {
    if t != [] && t[0] == 0x2E then DigitsLength(t[1..]) > 0 && IsExponent(t[1 + DigitsLength(t[1..])..])
    else IsExponent(t)
  }

  predicate IsNumber(t: Text) {
    var u := if t != [] && t[0] == 0x2D then t[1..] else t;
    var n := DigitsLength(u);
    n > 0 && (n == 1 || u[0] != 0x30) && IsFraction(u[n..])
  }

  predicate IsScalar(t: Text) {
    t == Ascii("null") || t == Ascii("true") || t == Ascii("false") || IsNumber(t)
  }

  // ---------------------------------------------------------------- reader

  /** The name of the next member of an object; nothing for an array. */
  function Name(isObject: bool, t: Text): (r: Option<(Text, Text)>)
    ensures r.Some? ==> |r.value.1| <= |t|
  {
    if !isObject then Some(([], t))
    else
      var u := Trim(t);
      if u == [] || u[0] != QUOTE then None
      else
        match Literal(u[1..])
        case None => None
        case Some((name, rest)) =>
          var w := Trim(rest);
          if w == [] || w[0] != COLON then None else Some((name, w[1..]))
  }

  /** One item or more, up to the closing bracket. */
  function Members(isObject: bool, t: Text): (r: Option<(Items, Text)>)
    ensures r.Some? ==> |r.value.1| < |t|
    decreases |t|, 2
  {
    match Name(isObject, t)
    case None => None
    case Some((name, u)) =>
      match Value(u)
      case None => None
      case Some((value, rest)) =>
        var w := Trim(rest);
        if w == [] then None
        else if w[0] == Closing(isObject) then Some((Cons(name, value, Nil), w[1..]))
        else if w[0] == COMMA then
          match Members(isObject, w[1..])
          case None => None
          case Some((items, after)) => Some((Cons(name, value, items), after))
        else None
  }

  /** The first value of the text and what follows it. */
  function Value(t: Text): (r: Option<(Tree, Text)>)
    ensures r.Some? ==> |r.value.1| < |t|
    decreases |t|, 1
  {
    var u := Trim(t);
    if u == [] then None
    else if u[0] == QUOTE then
      match Literal(u[1..])
      case None => None
      case Some((body, rest)) => Some((Str(body), rest))
    else if u[0] == Opening(false) || u[0] == Opening(true) then
      var isObject := u[0] == Opening(true);
      var w := Trim(u[1..]);
      if w != [] && w[0] == Closing(isObject) then Some((Group(isObject, Nil), w[1..]))
      else
        match Members(isObject, u[1..])
        case None => None
        case Some((items, rest)) => Some((Group(isObject, items), rest))
    else
      var n := WordLength(u);
      if n > 0 && IsScalar(u[..n]) then Some((Scalar(u[..n]), u[n..])) else None
  }

  /** A whole document: one value and nothing else but space. */
  function Parse(t: Text): Option<Tree> {
    match Value(t)
    case None => None
    case Some((v, rest)) => if Trim(rest) == [] then Some(v) else None
  }

  // ---------------------------------------------------------------- printer

  function Print(v: Tree): (t: Text)
    ensures t != [] || v == Scalar([])
    decreases v, 0
  {
    match v
    case Scalar(t) => t
    case Str(b) => [QUOTE] + b + [QUOTE]
    case Group(o, items) => [Opening(o)] + PrintItems(o, items) + [Closing(o)]
  }

  function PrintItem(isObject: bool, name: Text, value: Tree): Text
    decreases value, 1
  {
    (if isObject then [QUOTE] + name + [QUOTE] + [COLON] else []) + Print(value)
  }

  function PrintItems(isObject: bool, items: Items): Text
    decreases items, 0
  {
    match items
    case Nil => []
    case Cons(n, v, rest) =>
      PrintItem(isObject, n, v) + (if rest.Nil? then [] else [COMMA] + PrintItems(isObject, rest))
  }

  predicate WellFormedItems(isObject: bool, items: Items)
    decreases items, 0
  {
    match items
    case Nil => true
    case Cons(n, v, rest) =>
      IsBody(n) && (!isObject ==> n == []) && WellFormed(v) && WellFormedItems(isObject, rest)
  }

  /** Trees the reader can produce. */
  predicate WellFormed(v: Tree)
    decreases v, 0
  {
    match v
    case Scalar(t) => IsScalar(t) && WordLength(t) == |t| && t != []
    case Str(b) => IsBody(b)
    case Group(o, items) => WellFormedItems(o, items)
  }

  /** What may follow a value: the end, or a character no number or name goes on with. */
  predicate Ends(t: Text) {
    t == [] || !Wordy(t[0])
  }

  lemma {:induction false} WordEnds(t: Text, rest: Text)
    requires Ends(rest) && WordLength(t) == |t|
    ensures WordLength(t + rest) == |t|
  {
    if t == [] {
      assert t + rest == rest;
    } else {
      assert (t + rest)[1..] == t[1..] + rest;
      WordEnds(t[1..], rest);
    }
  }

  lemma PieceFits(t: Text, more: Text)
    requires t != [] && PieceLength(t) > 0
    ensures PieceLength(t + more) == PieceLength(t) && t[0] != QUOTE
  {
    if t[0] == BACKSLASH && |t| >= 6 {
      assert (t + more)[2..6] == t[2..6];
    }
  }

  lemma {:induction false} LiteralOfBody(b: Text, rest: Text)
    requires IsBody(b)
    ensures Literal(b + [QUOTE] + rest) == Some((b, rest))
    decreases |b|
  {
    hide PieceLength;
    var t := b + [QUOTE] + rest;
    if b == [] {
      assert t[1..] == rest;
    } else {
      var n := PieceLength(b);
      PieceFits(b, [QUOTE] + rest);
      assert t == b + ([QUOTE] + rest);
      assert t[n..] == b[n..] + [QUOTE] + rest;
      LiteralOfBody(b[n..], rest);
      assert t[..n] + b[n..] == b;
    }
  }

  lemma StartsSolid(v: Tree, rest: Text)
    requires WellFormed(v)
    ensures Print(v) != [] && !Space(Print(v)[0]) && Print(v)[0] != Closing(false) && Print(v)[0] != Closing(true)
    ensures Trim(Print(v) + rest) == Print(v) + rest
  {
    if v.Scalar? {
      assert Wordy(v.spelling[0]);
    }
  }

  lemma ScalarOfPrint(s: Text, rest: Text)
    requires WellFormed(Scalar(s)) && Ends(rest)
    ensures Value(s + rest) == Some((Scalar(s), rest))
  {
    var t := s + rest;
    assert t[0] == s[0] && Wordy(s[0]);
    assert Trim(t) == t;
    WordEnds(s, rest);
    assert t[..|s|] == s && t[|s|..] == rest;
  }

  lemma StrOfPrint(b: Text, rest: Text)
    requires IsBody(b)
    ensures Value([QUOTE] + b + [QUOTE] + rest) == Some((Str(b), rest))
  {
    var t := [QUOTE] + b + [QUOTE] + rest;
    assert Trim(t) == t;
    assert t[1..] == b + [QUOTE] + rest;
    LiteralOfBody(b, rest);
  }

  lemma GroupReads(o: bool, u: Text, items: Items, rest: Text)
    requires if items.Nil? then u == [Closing(o)] + rest
             else Trim(u) == u && u != [] && u[0] != Closing(o) && Members(o, u) == Some((items, rest))
    ensures Value([Opening(o)] + u) == Some((Group(o, items), rest))
  {
    var t := [Opening(o)] + u;
    assert t[1..] == u && Trim(t) == t && t[0] == Opening(o);
    assert Trim(u) == u;
    assert items.Nil? ==> u[1..] == rest;
  }

  lemma Regroup(a: Text, b: Text, c: Text, rest: Text)
    ensures a + b + c + rest == a + (b + c + rest)
    ensures b + c + rest == b + (c + rest)
  {
  }

  lemma ItemsStart(o: bool, items: Items, rest: Text)
    requires WellFormedItems(o, items) && items.Cons?
    ensures var u := PrintItems(o, items) + rest; Trim(u) == u && u != [] && u[0] != Closing(o)
  {
    StartsSolid(items.value, rest);
    var item := PrintItem(o, items.name, items.value);
    assert item != [] && !Space(item[0]) && item[0] != Closing(o);
    assert PrintItems(o, items)[..|item|] == item;
    var u := PrintItems(o, items) + rest;
    assert u[0] == item[0];
  }

  lemma GroupOfPrint(o: bool, items: Items, rest: Text)
    requires WellFormedItems(o, items)
    requires items.Cons? ==> Members(o, PrintItems(o, items) + [Closing(o)] + rest) == Some((items, rest))
    ensures Value(Print(Group(o, items)) + rest) == Some((Group(o, items), rest))
  {
    var body := PrintItems(o, items);
    Regroup([Opening(o)], body, [Closing(o)], rest);
    if items.Nil? {
      assert [] + [Closing(o)] + rest == [Closing(o)] + rest;
    } else {
      ItemsStart(o, items, [Closing(o)] + rest);
    }
    GroupReads(o, body + [Closing(o)] + rest, items, rest);
  }

  lemma NameReads(name: Text, rest: Text)
    requires IsBody(name)
    ensures Name(true, [QUOTE] + (name + [QUOTE] + ([COLON] + rest))) == Some((name, rest))
  {
    var u := name + [QUOTE] + ([COLON] + rest);
    var t := [QUOTE] + u;
    LiteralOfBody(name, [COLON] + rest);
    assert Trim(t) == t && t[0] == QUOTE && t[1..] == u;
    var w := [COLON] + rest;
    assert Trim(w) == w && w[1..] == rest;
  }

  function Head(isObject: bool, name: Text): Text {
    if isObject then [QUOTE] + name + [QUOTE] + [COLON] else []
  }

  lemma NameOfPrint(o: bool, name: Text, rest: Text)
    requires IsBody(name) && (!o ==> name == [])
    ensures Name(o, Head(o, name) + rest) == Some((name, rest))
  {
    if o {
      NameReads(name, rest);
      assert Head(o, name) + rest == [QUOTE] + (name + [QUOTE] + ([COLON] + rest));
    } else {
      assert Head(o, name) + rest == rest;
    }
  }

  lemma MembersReads(o: bool, t: Text, name: Text, u: Text, value: Tree, tail: Text, more: Items, rest: Text)
    requires Name(o, t) == Some((name, u)) && Value(u) == Some((value, tail)) && Trim(tail) == tail && tail != []
    requires if more.Nil? then tail == [Closing(o)] + rest
             else tail[0] == COMMA && Members(o, tail[1..]) == Some((more, rest))
    ensures Members(o, t) == Some((Cons(name, value, more), rest))
  {
    assert more.Nil? ==> tail[1..] == rest;
  }

  function Tail(isObject: bool, items: Items, rest: Text): (t: Text)
    ensures t != [] && !Wordy(t[0]) && !Space(t[0])
  {
    (if items.Nil? then [] else [COMMA] + PrintItems(isObject, items)) + [Closing(isObject)] + rest
  }

  lemma ItemsSplit(o: bool, items: Items, rest: Text)
    requires items.Cons?
    ensures PrintItems(o, items) + [Closing(o)] + rest
         == Head(o, items.name) + (Print(items.value) + Tail(o, items.rest, rest))
  {
    var head, value := Head(o, items.name), Print(items.value);
    var more := if items.rest.Nil? then [] else [COMMA] + PrintItems(o, items.rest);
    assert PrintItems(o, items) == head + value + more;
    Regroup(head + value, more, [Closing(o)], rest);
    Regroup(head, value, more + [Closing(o)] + rest, []);
    assert head + value + (more + [Closing(o)] + rest) == head + (value + (more + [Closing(o)] + rest));
  }

  lemma TailRest(o: bool, items: Items, rest: Text)
    ensures items.Nil? ==> Tail(o, items, rest) == [Closing(o)] + rest
    ensures items.Cons? ==> Tail(o, items, rest)[0] == COMMA
    ensures items.Cons? ==> Tail(o, items, rest)[1..] == PrintItems(o, items) + [Closing(o)] + rest
  {
  }

  lemma {:induction false} MembersOfPrint(o: bool, items: Items, rest: Text)
    requires WellFormedItems(o, items) && items.Cons?
    ensures Members(o, PrintItems(o, items) + [Closing(o)] + rest) == Some((items, rest))
    decreases items, 0
  {
    ItemsSplit(o, items, rest);
    TailRest(o, items.rest, rest);
    var tail := Tail(o, items.rest, rest);
    var u := Print(items.value) + tail;
    NameOfPrint(o, items.name, u);
    ValueOfPrint(items.value, tail);
    if items.rest.Cons? {
      MembersOfPrint(o, items.rest, rest);
    }
    MembersReads(o, Head(o, items.name) + u, items.name, u, items.value, tail, items.rest, rest);
  }

  /** Reading back what was printed, whatever follows. */
  lemma {:induction false} ValueOfPrint(v: Tree, rest: Text)
    requires WellFormed(v) && Ends(rest)
    ensures Value(Print(v) + rest) == Some((v, rest))
    decreases v, 0
  {
    match v
    case Scalar(s) => ScalarOfPrint(s, rest);
    case Str(b) => StrOfPrint(b, rest);
    case Group(o, items) =>
      if items.Cons? {
        MembersOfPrint(o, items, rest);
      }
      GroupOfPrint(o, items, rest);
  }

  // ---------------------------------------------------------------- what the reader accepts

  lemma {:induction false} LiteralIsBody(t: Text)
    ensures Literal(t).Some? ==> IsBody(Literal(t).value.0)
    decreases |t|
  {
    if t != [] && t[0] != QUOTE && PieceLength(t) > 0 && Literal(t[PieceLength(t)..]).Some? {
      var n := PieceLength(t);
      LiteralIsBody(t[n..]);
      var body := Literal(t[n..]).value.0;
      PieceFits(t[..n], body) by {
        if t[0] == BACKSLASH && n == 6 {
          assert t[..n][2..6] == t[2..6];
        }
      }
      assert PieceLength(t[..n]) == n by {
        if t[0] == BACKSLASH && n == 6 {
          assert t[..n][2..6] == t[2..6];
        }
      }
      assert (t[..n] + body)[n..] == body;
    }
  }

  lemma {:induction false} WordTaken(t: Text)
    ensures WordLength(t[..WordLength(t)]) == WordLength(t)
    ensures Ends(t[WordLength(t)..])
  {
    if t != [] && Wordy(t[0]) {
      var n := WordLength(t);
      WordTaken(t[1..]);
      assert t[..n][1..] == t[1..][..n - 1];
      assert t[n..] == t[1..][n - 1..];
    }
  }

  lemma {:induction false} MembersWellFormed(o: bool, t: Text)
    ensures Members(o, t).Some? ==> WellFormedItems(o, Members(o, t).value.0)
    decreases |t|, 2
  {
    if Members(o, t).Some? {
      var (name, u) := Name(o, t).value;
      if o {
        LiteralIsBody(Trim(t)[1..]);
      }
      ValueWellFormed(u);
      var w := Trim(Value(u).value.1);
      if w[0] == COMMA {
        MembersWellFormed(o, w[1..]);
      }
    }
  }

  lemma {:induction false} ValueWellFormed(t: Text)
    ensures Value(t).Some? ==> WellFormed(Value(t).value.0)
    decreases |t|, 1
  {
    var u := Trim(t);
    if u != [] {
      if u[0] == QUOTE {
        LiteralIsBody(u[1..]);
      } else if u[0] == Opening(false) || u[0] == Opening(true) {
        MembersWellFormed(u[0] == Opening(true), u[1..]);
      } else {
        WordTaken(u);
      }
    }
  }

  /** Printing is a section of reading: a printed tree reads back as itself, and every tree that was
      read can be printed. */
  lemma ParsePrint(v: Tree)
    requires WellFormed(v)
    ensures Parse(Print(v)) == Some(v)
  {
    ValueOfPrint(v, []);
    assert Print(v) + [] == Print(v);
  }

  lemma ParseWellFormed(t: Text)
    ensures Parse(t).Some? ==> WellFormed(Parse(t).value)
  {
    ValueWellFormed(t);
  }

  // ---------------------------------------------------------------- what a string body means

  function Hex4(t: Text): (n: nat)
    requires |t| == 4 && AllHex(t)
    ensures n < 0x1_0000
  {
    ((HexValue(t[0]).value * 16 + HexValue(t[1]).value) * 16 + HexValue(t[2]).value) * 16 + HexValue(t[3]).value
  }

  /** The characters and UTF-16 escapes of a body, one code each. */
  function Codes(b: Text): seq<int>
    requires IsBody(b)
    decreases |b|
  {
    if b == [] then []
    else
      var n := PieceLength(b);
      [if n == 1 then b[0] else if n == 2 then Simple(b[1]).value else Hex4(b[2..6])] + Codes(b[n..])
  }

  predicate HighSurrogate(c: int) {
    0xD800 <= c < 0xDC00
  }

  predicate LowSurrogate(c: int) {
    0xDC00 <= c < 0xE000
  }

  /** Surrogate pairs joined; a lone surrogate or an invalid byte becomes U+FFFD. */
  function JoinUp(cs: seq<int>): Text
    requires forall i :: 0 <= i < |cs| ==> 0 <= cs[i] < 0x11_0100
    decreases |cs|
  {
    if cs == [] then []
    else if |cs| >= 2 && HighSurrogate(cs[0]) && LowSurrogate(cs[1]) then
      [0x1_0000 + (cs[0] - 0xD800) * 0x400 + (cs[1] - 0xDC00)] + JoinUp(cs[2..])
    else
      var u: Unit := if HighSurrogate(cs[0]) || LowSurrogate(cs[0]) || cs[0] >= BAD then REPLACEMENT else cs[0];
      [u] + JoinUp(cs[1..])
  }

  lemma {:induction false} CodesInRange(b: Text)
    requires IsBody(b)
    ensures forall i :: 0 <= i < |Codes(b)| ==> 0 <= Codes(b)[i] < 0x11_0100
    decreases |b|
  {
    if b != [] {
      CodesInRange(b[PieceLength(b)..]);
    }
  }

  /** The string a body denotes. */
  function Unescape(b: Text): Text
    requires IsBody(b)
  {
    CodesInRange(b);
    JoinUp(Codes(b))
  }

  function MeaningItems(o: bool, items: Items): Items
    requires WellFormedItems(o, items)
    decreases items, 0
  {
    match items
    case Nil => Nil
    case Cons(n, v, rest) => Cons(Unescape(n), Meaning(v), MeaningItems(o, rest))
  }

  /** The value a tree denotes: its strings decoded. */
  function Meaning(v: Tree): Tree
    requires WellFormed(v)
    decreases v, 0
  {
    match v
    case Scalar(t) => v
    case Str(b) => Str(Unescape(b))
    case Group(o, items) => Group(o, MeaningItems(o, items))
  }

  // ---------------------------------------------------------------- compaction

  function LowerHex(d: nat): Unit
    requires d < 16
  {
    if d < 10 then 0x30 + d else 0x61 + d - 10
  }

  function EscapeU(c: nat): Text
    requires c < 0x1_0000
  {
    [BACKSLASH, LOWER_U, LowerHex(c / 0x1000), LowerHex(c / 0x100 % 16), LowerHex(c / 0x10 % 16), LowerHex(c % 16)]
  }

  lemma EscapeUReads(c: nat, rest: Text)
    requires c < 0x1_0000
    ensures var t := EscapeU(c) + rest;
            PieceLength(t) == 6 && t[6..] == rest && AllHex(t[2..6]) && Hex4(t[2..6]) == c
  {
    var t := EscapeU(c) + rest;
    assert t[2..6] == [LowerHex(c / 0x1000), LowerHex(c / 0x100 % 16), LowerHex(c / 0x10 % 16), LowerHex(c % 16)];
    var d := c / 16;
    var e := d / 16;
    assert c / 0x100 == e && c / 0x1000 == e / 16;
    assert c == d * 16 + c % 16 && d == e * 16 + d % 16 && e == (e / 16) * 16 + e % 16;
  }

  /** The characters json.Marshal does not leave as they are inside raw JSON. */
  predicate HtmlUnsafe(u: Unit) {
    u == 0x3C || u == 0x3E || u == 0x26 || u == 0x2028 || u == 0x2029
  }

  function HtmlSafe(b: Text): Text {
    if b == [] then []
    else (if HtmlUnsafe(b[0]) then EscapeU(b[0]) else [b[0]]) + HtmlSafe(b[1..])
  }

  lemma {:induction false} HtmlSafePrefix(b: Text, n: nat)
    requires n <= |b| && forall i :: 0 <= i < n ==> !HtmlUnsafe(b[i])
    ensures HtmlSafe(b) == b[..n] + HtmlSafe(b[n..])
    decreases n
  {
    if n > 0 {
      HtmlSafePrefix(b[1..], n - 1);
      assert b[1..][n - 1..] == b[n..];
      assert b[..n] == [b[0]] + b[1..][..n - 1];
    }
  }

  lemma HexIsSafe(t: Text)
    requires AllHex(t)
    ensures forall i :: 0 <= i < |t| ==> !HtmlUnsafe(t[i])
  {
    forall i | 0 <= i < |t| ensures !HtmlUnsafe(t[i]) {
      assert HexValue(t[i]).Some?;
    }
  }

  lemma SamePiece(b: Text, rest: Text)
    requires b != [] && PieceLength(b) > 0
    ensures var n := PieceLength(b); var t := b[..n] + rest;
            && PieceLength(t) == n && t[n..] == rest && t[0] == b[0]
            && (n >= 2 ==> t[1] == b[1]) && (n == 6 ==> t[2..6] == b[2..6])
  {
    var n := PieceLength(b);
    var t := b[..n] + rest;
    if n == 6 {
      assert t[2..6] == b[2..6];
    }
  }

  /** Escaping those characters keeps a body well formed and does not change what it says. */
  lemma {:induction false} HtmlSafeKeeps(b: Text)
    requires IsBody(b)
    ensures IsBody(HtmlSafe(b)) && Codes(HtmlSafe(b)) == Codes(b)
    decreases |b|
  {
    if b != [] {
      var n := PieceLength(b);
      HtmlSafeKeeps(b[n..]);
      var rest := HtmlSafe(b[n..]);
      if HtmlUnsafe(b[0]) {
        EscapeUReads(b[0], rest);
      } else {
        if n == 6 {
          HexIsSafe(b[2..6]);
          assert forall i :: 2 <= i < 6 ==> b[i] == b[2..6][i - 2];
        }
        HtmlSafePrefix(b, n);
        SamePiece(b, rest);
      }
    }
  }

  function SafeItems(items: Items): Items
    decreases items, 0
  {
    match items
    case Nil => Nil
    case Cons(n, v, rest) => Cons(HtmlSafe(n), Safe(v), SafeItems(rest))
  }

  function Safe(v: Tree): Tree
    decreases v, 0
  {
    match v
    case Scalar(_) => v
    case Str(b) => Str(HtmlSafe(b))
    case Group(o, items) => Group(o, SafeItems(items))
  }

  /** `compact` with HTML escaping, as json.Marshal applies it to a RawMessage: an error unless the
      text is one JSON document, else its layout removed and the unsafe characters escaped. */
  function Compact(t: Text): Option<Text> {
    match Parse(t)
    case None => None
    case Some(v) => Some(Print(Safe(v)))
  }

  lemma {:induction false} SafeItemsKeeps(o: bool, items: Items)
    requires WellFormedItems(o, items)
    ensures WellFormedItems(o, SafeItems(items)) && MeaningItems(o, SafeItems(items)) == MeaningItems(o, items)
    decreases items, 0
  {
    match items
    case Nil =>
    case Cons(n, v, rest) =>
      HtmlSafeKeeps(n);
      SafeKeeps(v);
      SafeItemsKeeps(o, rest);
  }

  lemma {:induction false} SafeKeeps(v: Tree)
    requires WellFormed(v)
    ensures WellFormed(Safe(v)) && Meaning(Safe(v)) == Meaning(v)
    decreases v, 0
  {
    match v
    case Scalar(_) =>
    case Str(b) => HtmlSafeKeeps(b);
    case Group(o, items) => SafeItemsKeeps(o, items);
  }

  /** Compaction preserves meaning. */
  lemma CompactKeepsMeaning(t: Text)
    requires Parse(t).Some?
    ensures var v := Parse(t).value; var c := Compact(t).value;
            && WellFormed(v) && Parse(c) == Some(Safe(v)) && WellFormed(Safe(v)) && Meaning(Safe(v)) == Meaning(v)
  {
    ParseWellFormed(t);
    SafeKeeps(Parse(t).value);
    ParsePrint(Safe(Parse(t).value));
  }

  /** None of the five characters that json.Marshal escapes: less than, greater than, ampersand, and the
      line and paragraph separators. */
  predicate NothingUnsafe(t: Text) {
    forall i :: 0 <= i < |t| ==> t[i] != '<' as int && t[i] != '>' as int && t[i] != '&' as int && t[i] != 0x2028
                                 && t[i] != 0x2029
  }

  lemma {:induction false} HtmlSafeIsSafe(b: Text)
    ensures NothingUnsafe(HtmlSafe(b))
    ensures NothingUnsafe(b) ==> HtmlSafe(b) == b
  {
    if b != [] {
      HtmlSafeIsSafe(b[1..]);
    }
  }

  lemma {:induction false} WordsAreSafe(t: Text)
    requires WordLength(t) == |t|
    ensures NothingUnsafe(t)
    decreases |t|
  {
    if t != [] {
      WordsAreSafe(t[1..]);
    }
  }

  lemma {:induction false} SafeItemsPrint(o: bool, items: Items)
    requires WellFormedItems(o, items)
    ensures NothingUnsafe(PrintItems(o, SafeItems(items)))
    decreases items, 0
  {
    match items
    case Nil =>
    case Cons(n, v, rest) =>
      HtmlSafeIsSafe(n);
      SafePrints(v);
      SafeItemsPrint(o, rest);
  }

  lemma {:induction false} SafePrints(v: Tree)
    requires WellFormed(v)
    ensures NothingUnsafe(Print(Safe(v)))
    decreases v, 0
  {
    match v
    case Scalar(t) => WordsAreSafe(t);
    case Str(b) => HtmlSafeIsSafe(b);
    case Group(o, items) => SafeItemsPrint(o, items);
  }

  /** Compaction leaves none of the five. */
  lemma CompactIsSafe(t: Text)
    ensures Compact(t).Some? <==> Parse(t).Some?
    ensures Compact(t).Some? ==> NothingUnsafe(Compact(t).value)
  {
    if Parse(t).Some? {
      ParseWellFormed(t);
      SafePrints(Parse(t).value);
    }
  }
}
