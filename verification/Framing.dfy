/** The OCPP-J framing: messages are written as JSON arrays whose strings are quoted with Go's %q and
    read back as JSON strings. The two grammars differ; the round trip says exactly where. */
module Framing {
  import opened Domain
  import opened Json

  const CALL: int := 2
  const CALL_RESULT: int := 3
  const CALL_ERROR: int := 4

  /** The action is that of a CALL; the payload is the raw text of the JSON element. */
  datatype Message = Message(typeId: int, messageId: Text, action: Text, payload: Text)

  datatype Failure = NotAnArray | TooShort | BadTypeId | BadMessageId | ShortCall | BadAction | UnknownType

  datatype Parsed = Parsed(message: Message) | Failed(why: Failure)

  // ---------------------------------------------------------------- %q

  function HexByte(b: nat): Text
    requires b < 0x100
  {
    [BACKSLASH, 0x78, LowerHex(b / 16), LowerHex(b % 16)]
  }

  /** One character under strconv.Quote. `prints` stands for strconv.IsPrint. */
  function Escape(u: Unit, prints: Unit -> bool): Text {
    if u >= BAD then HexByte(u - BAD)
    else if u == QUOTE || u == BACKSLASH then [BACKSLASH, u]
    else if prints(u) then [u]
    else if u == 0x07 then [BACKSLASH, 0x61]
    else if u == 0x08 then [BACKSLASH, 0x62]
    else if u == 0x0C then [BACKSLASH, 0x66]
    else if u == 0x0A then [BACKSLASH, 0x6E]
    else if u == 0x0D then [BACKSLASH, 0x72]
    else if u == 0x09 then [BACKSLASH, 0x74]
    else if u == 0x0B then [BACKSLASH, 0x76]
    else if u < 0x20 || u == 0x7F then HexByte(u)
    else if u < 0x1_0000 then EscapeU(u)
    else [BACKSLASH, 0x55, 0x30, 0x30, LowerHex(u / 0x10_0000),
        LowerHex(u / 0x1_0000 % 16)] + EscapeU(u % 0x1_0000)[2..]
  }

  function QuoteBody(s: Text, prints: Unit -> bool): Text {
    if s == [] then [] else Escape(s[0], prints) + QuoteBody(s[1..], prints)
  }

  function Quote(s: Text, prints: Unit -> bool): Text {
    [QUOTE] + QuoteBody(s, prints) + [QUOTE]
  }

  /** What is assumed of strconv.IsPrint: among the ASCII characters, exactly those from space to
      tilde print. Beyond ASCII it may say anything. */
  ghost predicate GoPrints(prints: Unit -> bool) {
    forall u: Unit :: u < 0x80 ==> (prints(u) <==> 0x20 <= u < 0x7F)
  }

  /** The characters whose %q form is also a JSON one: not the bell, the vertical tab, the other
      control characters without a letter, an invalid byte, or a non-printing character beyond
      U+FFFF. */
  predicate QuotableUnit(u: Unit, prints: Unit -> bool) {
    || u == 0x08 || u == 0x09 || u == 0x0A || u == 0x0C || u == 0x0D
    || (0x20 <= u < 0x1_0000 && u != 0x7F)
    || (0x1_0000 <= u < BAD && prints(u))
  }

  predicate Quotable(s: Text, prints: Unit -> bool) {
    forall i :: 0 <= i < |s| ==> QuotableUnit(s[i], prints)
  }

  // ---------------------------------------------------------------- writing

  /** json.Marshal of a []json.RawMessage: each element compacted, an error if one is not JSON. */
  function MarshalItems(raws: seq<Text>): Option<Items> {
    if raws == [] then Some(Nil)
    else
      match (Parse(raws[0]), MarshalItems(raws[1..]))
      case (Some(v), Some(items)) => Some(Cons([], Safe(v), items))
      case _ => None
  }

  function Marshal(raws: seq<Text>): Option<Text> {
    match MarshalItems(raws)
    case None => None
    case Some(items) => Some(Print(Group(false, items)))
  }

  /** `payload` is what json.Marshal made of the payload, None for its error. */
  function MakeCall(messageId: Text, action: Text, payload: Option<Text>, prints: Unit -> bool): Option<Text> {
    match payload
    case None => None
    case Some(p) => Marshal([Ascii("2"), Quote(messageId, prints), Quote(action, prints), p])
  }

  function MakeCallResult(messageId: Text, payload: Option<Text>, prints: Unit -> bool): Option<Text> {
    match payload
    case None => None
    case Some(p) => Marshal([Ascii("3"), Quote(messageId, prints), p])
  }

  // ---------------------------------------------------------------- reading

  /** The raw texts of the items of an array, from after its opening bracket. */
  function Slices(t: Text): Option<seq<Text>>
    decreases |t|
  {
    var u := Trim(t);
    match Value(u)
    case None => None
    case Some((_, rest)) =>
      var w := Trim(rest);
      if w == [] then None
      else if w[0] == Closing(false) then if Trim(w[1..]) == [] then Some([u[..|u| - |rest|]]) else None
      else if w[0] == COMMA then
        match Slices(w[1..])
        case None => None
        case Some(raws) => Some([u[..|u| - |rest|]] + raws)
      else None
  }

  /** json.Unmarshal into a []json.RawMessage; null leaves the slice empty. */
  function Elements(data: Text): Option<seq<Text>> {
    var u := Trim(data);
    if u != [] && u[0] == Opening(false) then
      var w := Trim(u[1..]);
      if w != [] && w[0] == Closing(false) then if Trim(w[1..]) == [] then Some([]) else None
      else Slices(u[1..])
    else if Parse(data) == Some(Scalar(Ascii("null"))) then Some([])
    else None
  }

  /** json.Unmarshal into a string; null leaves it empty. */
  function AsString(t: Text): Option<Text> {
    match Parse(t)
    case Some(Str(b)) => ParseWellFormed(t); Some(Unescape(b))
    case Some(Scalar(s)) => if s == Ascii("null") then Some([]) else None
    case _ => None
  }

  function Digits(t: Text, n: nat): Option<nat> {
    if t == [] then Some(n)
    else if IsDigit(t[0]) then Digits(t[1..], n * 10 + (t[0] - 0x30))
    else None
  }

  /** json.Unmarshal into an int: a number without fraction or exponent that fits 64 bits; null
      leaves it 0. */
  function AsInt(t: Text): Option<int> {
    match Parse(t)
    case Some(Scalar(s)) =>
      if s == Ascii("null") then Some(0)
      else
        var negative := s != [] && s[0] == 0x2D;
        (match Digits(if negative then s[1..] else s, 0)
         case None => None
         case Some(n) =>
           var i := if negative then 0 - n as int else n as int;
           if -0x8000_0000_0000_0000 <= i < 0x8000_0000_0000_0000 then Some(i) else None)
    case _ => None
  }

  function ParseMessage(data: Text): Parsed {
    match Elements(data)
    case None => Failed(NotAnArray)
    case Some(raw) =>
      if |raw| < 3 then Failed(TooShort)
      else
        match AsInt(raw[0])
        case None => Failed(BadTypeId)
        case Some(typeId) =>
          match AsString(raw[1])
          case None => Failed(BadMessageId)
          case Some(messageId) =>
            if typeId == CALL then
              if |raw| < 4 then Failed(ShortCall)
              else
                match AsString(raw[2])
                case None => Failed(BadAction)
                case Some(action) => Parsed(Message(CALL, messageId, action, raw[3]))
            else if typeId == CALL_RESULT || typeId == CALL_ERROR then
              Parsed(Message(typeId, messageId, [], raw[2]))
            else Failed(UnknownType)
  }

  // ---------------------------------------------------------------- %q read as JSON

  /** The code of the first piece of a body. */
  function Code(t: Text): int
    requires t != [] && PieceLength(t) > 0
  {
    var n := PieceLength(t);
    if n == 1 then t[0] else if n == 2 then Simple(t[1]).value else Hex4(t[2..6])
  }

  lemma EscapeReads(u: Unit, prints: Unit -> bool, rest: Text)
    requires GoPrints(prints)
    ensures var t := Escape(u, prints) + rest;
            if QuotableUnit(u, prints) then
              && PieceLength(t) == |Escape(u, prints)| > 0 && t[PieceLength(t)..] == rest
              && t[0] != QUOTE
              && Code(t) == u
            else PieceLength(t) == 0 && t[0] != QUOTE
  {
    if QuotableUnit(u, prints) && 0x80 <= u < 0x1_0000 && !prints(u) {
      EscapeUReads(u, rest);
    }
  }

  lemma CodesStep(b: Text)
    requires b != [] && IsBody(b)
    ensures Codes(b) == [Code(b)] + Codes(b[PieceLength(b)..])
  {
  }

  /** The quoted form is a JSON string body exactly for quotable strings, and then denotes the string. */
  lemma {:induction false} QuotedBody(s: Text, prints: Unit -> bool)
    requires GoPrints(prints) && Quotable(s, prints)
    ensures IsBody(QuoteBody(s, prints)) && Codes(QuoteBody(s, prints)) == s
  {
    if s != [] {
      var b := QuoteBody(s, prints);
      QuotedBody(s[1..], prints);
      EscapeReads(s[0], prints, QuoteBody(s[1..], prints));
      CodesStep(b);
    }
  }

  lemma {:induction false} UnquotedBody(s: Text, prints: Unit -> bool, rest: Text)
    requires GoPrints(prints) && !Quotable(s, prints)
    ensures Literal(QuoteBody(s, prints) + rest).None?
  {
    var more := QuoteBody(s[1..], prints) + rest;
    assert QuoteBody(s, prints) + rest == Escape(s[0], prints) + more;
    EscapeReads(s[0], prints, more);
    if QuotableUnit(s[0], prints) {
      UnquotedBody(s[1..], prints, rest);
    }
  }

  /** Go strings contain no surrogates, so that a string without invalid bytes decodes to itself. */
  lemma {:induction false} JoinUpSame(s: Text, prints: Unit -> bool)
    requires Quotable(s, prints)
    ensures JoinUp(s) == s
  {
    if s != [] {
      assert QuotableUnit(s[0], prints);
      JoinUpSame(s[1..], prints);
    }
  }

  lemma QuoteParses(s: Text, prints: Unit -> bool)
    requires GoPrints(prints)
    ensures Quotable(s, prints) ==>
              Parse(Quote(s, prints)) == Some(Str(QuoteBody(s, prints))) && IsBody(QuoteBody(s, prints))
              && Unescape(QuoteBody(s, prints)) == s
    ensures !Quotable(s, prints) ==> Parse(Quote(s, prints)).None?
  {
    var b := QuoteBody(s, prints);
    if Quotable(s, prints) {
      QuotedBody(s, prints);
      JoinUpSame(s, prints);
      ParsePrint(Str(b));
    } else {
      var t := Quote(s, prints);
      UnquotedBody(s, prints, [QUOTE]);
      assert Trim(t) == t && t[1..] == b + [QUOTE];
    }
  }

  // ---------------------------------------------------------------- arrays

  function PrintAll(items: Items): seq<Text> {
    match items
    case Nil => []
    case Cons(_, v, rest) => [Print(v)] + PrintAll(rest)
  }

  lemma SliceStep(piece: Text, tail: Text, v: Tree)
    requires Trim(piece + tail) == piece + tail && Value(piece + tail) == Some((v, tail)) && Trim(tail) == tail
    ensures tail == [Closing(false)] ==> Slices(piece + tail) == Some([piece])
    ensures tail != [] && tail[0] == COMMA && Slices(tail[1..]).Some? ==>
              Slices(piece + tail) == Some([piece] + Slices(tail[1..]).value)
  {
    var u := piece + tail;
    assert u[..|u| - |tail|] == piece;
    assert tail == [Closing(false)] ==> |tail[1..]| == 0;
  }

  lemma OneItem(items: Items)
    requires items.Cons? && items.rest.Nil?
    ensures PrintAll(items) == [Print(items.value)]
  {
    assert PrintAll(items) == [Print(items.value)] + PrintAll(Nil);
  }

  lemma {:induction false} SlicesOfPrint(items: Items)
    requires WellFormedItems(false, items) && items.Cons?
    ensures Slices(PrintItems(false, items) + [Closing(false)]) == Some(PrintAll(items))
  {
    var piece, tail := Print(items.value), Tail(false, items.rest, []);
    ItemsSplit(false, items, []);
    TailRest(false, items.rest, []);
    ValueOfPrint(items.value, tail);
    StartsSolid(items.value, tail);
    SliceStep(piece, tail, items.value);
    assert PrintItems(false, items) + [Closing(false)] == piece + tail by {
      assert PrintItems(false, items) + [Closing(false)] + [] == Head(false, items.name) + (piece + tail);
    }
    if items.rest.Cons? {
      SlicesOfPrint(items.rest);
      assert tail[1..] == PrintItems(false, items.rest) + [Closing(false)];
    } else {
      assert tail == [Closing(false)];
      OneItem(items);
    }
  }

  /** A printed array splits into its printed items. */
  lemma ElementsOfPrint(items: Items)
    requires WellFormedItems(false, items) && items.Cons?
    ensures Elements(Print(Group(false, items))) == Some(PrintAll(items))
  {
    var t := Print(Group(false, items));
    var u := PrintItems(false, items) + [Closing(false)];
    assert t == [Opening(false)] + u && t[1..] == u && Trim(t) == t;
    ItemsStart(false, items, [Closing(false)]);
    SlicesOfPrint(items);
  }

  // ---------------------------------------------------------------- round trips

  /** Two JSON texts denote the same value. */
  ghost predicate SameMeaning(a: Text, b: Text) {
    && Parse(a).Some? && Parse(b).Some?
    && WellFormed(Parse(a).value) && WellFormed(Parse(b).value)
    && Meaning(Parse(a).value) == Meaning(Parse(b).value)
  }

  lemma TypeParses(digit: Unit)
    requires IsDigit(digit)
    ensures Parse([digit]) == Some(Scalar([digit])) && WellFormed(Scalar([digit]))
            && AsInt([digit]) == Some(digit - 0x30)
  {
    var t := [digit];
    assert t[1..] == [] && DigitsLength(t) == 1 && t[..1] == t;
    assert DigitsLength([]) == 0 && t[DigitsLength(t)..] == [];
    assert IsNumber(t) && IsScalar(t);
    assert WordLength(t) == 1;
    ParsePrint(Scalar(t));
    assert Ascii("null") != t by {
      assert |Ascii("null")| == 4;
    }
    assert Digits(t, 0) == Digits(t[1..], digit - 0x30);
  }

  /** A quoted string, compacted and read back. */
  lemma QuoteSurvives(s: Text, prints: Unit -> bool)
    requires GoPrints(prints) && Quotable(s, prints)
    ensures var v := Safe(Str(QuoteBody(s, prints))); WellFormed(v) && AsString(Print(v)) == Some(s)
  {
    var b := QuoteBody(s, prints);
    QuoteParses(s, prints);
    HtmlSafeKeeps(b);
    ParsePrint(Str(HtmlSafe(b)));
  }

  /** What every writer of frames does with its payload. */
  lemma PayloadSurvives(p: Text)
    requires Parse(p).Some?
    ensures var v := Safe(Parse(p).value); WellFormed(v) && Compact(p) == Some(Print(v)) && SameMeaning(Print(v), p)
  {
    CompactKeepsMeaning(p);
  }

  function Three(a: Tree, b: Tree, c: Tree): Items {
    Cons([], a, Cons([], b, Cons([], c, Nil)))
  }

  lemma ThreeItems(a: Tree, b: Tree, c: Tree)
    requires WellFormed(a) && WellFormed(b) && WellFormed(c)
    ensures WellFormedItems(false, Three(a, b, c))
    ensures PrintAll(Three(a, b, c)) == [Print(a), Print(b), Print(c)]
  {
    assert PrintAll(Cons([], c, Nil)) == [Print(c)];
    assert PrintAll(Cons([], b, Cons([], c, Nil))) == [Print(b), Print(c)];
    assert WellFormedItems(false, Cons([], c, Nil));
    assert WellFormedItems(false, Cons([], b, Cons([], c, Nil)));
  }

  lemma OneMore(v: Tree, items: Items)
    requires WellFormed(v) && WellFormedItems(false, items)
    ensures WellFormedItems(false, Cons([], v, items)) && PrintAll(Cons([], v, items)) == [Print(v)] + PrintAll(items)
  {
  }

  lemma SplitsAsCall(id: Tree, action: Tree, p: Tree)
    requires WellFormed(id) && WellFormed(action) && WellFormed(p)
    ensures Elements(Print(Group(false, Cons([], Scalar([0x32]), Three(id, action, p)))))
         == Some([[0x32], Print(id), Print(action), Print(p)])
  {
    TypeParses(0x32);
    ThreeItems(id, action, p);
    var items := Three(id, action, p);
    OneMore(Scalar([0x32]), items);
    ElementsOfPrint(Cons([], Scalar([0x32]), items));
    assert [[0x32 as Unit]] + [Print(id), Print(action), Print(p)] == [[0x32], Print(id), Print(action), Print(p)];
  }

  lemma SplitsAsResult(id: Tree, p: Tree)
    requires WellFormed(id) && WellFormed(p)
    ensures Elements(Print(Group(false, Three(Scalar([0x33]), id, p)))) == Some([[0x33], Print(id), Print(p)])
  {
    TypeParses(0x33);
    ThreeItems(Scalar([0x33]), id, p);
    ElementsOfPrint(Three(Scalar([0x33]), id, p));
  }

  lemma ReadsAsCall(data: Text, id: Text, action: Text, p: Text, messageId: Text, name: Text)
    requires Elements(data) == Some([[0x32], id, action, p])
    requires AsString(id) == Some(messageId) && AsString(action) == Some(name)
    ensures ParseMessage(data) == Parsed(Message(CALL, messageId, name, p))
  {
    TypeParses(0x32);
  }

  lemma ReadsAsResult(data: Text, id: Text, p: Text, messageId: Text)
    requires Elements(data) == Some([[0x33], id, p]) && AsString(id) == Some(messageId)
    ensures ParseMessage(data) == Parsed(Message(CALL_RESULT, messageId, [], p))
  {
    TypeParses(0x33);
  }

  lemma MarshalThree(a: Text, b: Text, c: Text)
    ensures MarshalItems([a, b, c]) ==
            if Parse(a).Some? && Parse(b).Some? && Parse(c).Some? then
              Some(Three(Safe(Parse(a).value), Safe(Parse(b).value), Safe(Parse(c).value)))
            else None
  {
    var none: seq<Text> := [];
    assert [c][1..] == none && [b, c][1..] == [c] && [a, b, c][1..] == [b, c];
    assert MarshalItems(none) == Some(Nil);
    assert MarshalItems([c]) == if Parse(c).Some? then Some(Cons([], Safe(Parse(c).value), Nil)) else None;
  }

  lemma MarshalFour(a: Text, b: Text, c: Text, d: Text)
    ensures Marshal([a, b, c, d]) ==
            if Parse(a).Some? && Parse(b).Some? && Parse(c).Some? && Parse(d).Some? then
              Some(Print(Group(false, Cons([], Safe(Parse(a).value), Three(Safe(Parse(b).value),
                  Safe(Parse(c).value), Safe(Parse(d).value))))))
            else None
  {
    MarshalThree(b, c, d);
    assert [a, b, c, d][1..] == [b, c, d];
  }

  /** MakeCall and ParseMessage: a frame comes out exactly when the message id and the action are
      quotable, and it reads back as the same type, id, action and, up to layout and the spelling of
      escapes, payload. */
  lemma CallRoundTrip(messageId: Text, action: Text, payload: Text, prints: Unit -> bool)
    requires GoPrints(prints) && Parse(payload).Some?
    ensures var frame := MakeCall(messageId, action, Some(payload), prints);
            && (frame.Some? <==> Quotable(messageId, prints) && Quotable(action, prints))
            && (frame.Some? ==>
                  && ParseMessage(frame.value) == Parsed(Message(CALL, messageId, action, Compact(payload).value))
                  && SameMeaning(Compact(payload).value, payload))
  {
    assert Ascii("2") == [0x32];
    TypeParses(0x32);
    QuoteParses(messageId, prints);
    QuoteParses(action, prints);
    PayloadSurvives(payload);
    MarshalFour([0x32], Quote(messageId, prints), Quote(action, prints), payload);
    if Quotable(messageId, prints) && Quotable(action, prints) {
      QuoteSurvives(messageId, prints);
      QuoteSurvives(action, prints);
      var id, name, p := Safe(Str(QuoteBody(messageId, prints))), Safe(Str(QuoteBody(action, prints))),
          Safe(Parse(payload).value);
      SplitsAsCall(id, name, p);
      ReadsAsCall(Print(Group(false, Cons([], Scalar([0x32]), Three(id, name, p)))), Print(id), Print(name),
          Print(p), messageId, action);
    }
  }

  /** The same for responses: the frame exists exactly when the message id is quotable. */
  lemma CallResultRoundTrip(messageId: Text, payload: Text, prints: Unit -> bool)
    requires GoPrints(prints) && Parse(payload).Some?
    ensures var frame := MakeCallResult(messageId, Some(payload), prints);
            && (frame.Some? <==> Quotable(messageId, prints))
            && (frame.Some? ==>
                  && ParseMessage(frame.value) == Parsed(Message(CALL_RESULT, messageId, [], Compact(payload).value))
                  && SameMeaning(Compact(payload).value, payload))
  {
    assert Ascii("3") == [0x33];
    TypeParses(0x33);
    QuoteParses(messageId, prints);
    PayloadSurvives(payload);
    MarshalThree([0x33], Quote(messageId, prints), payload);
    if Quotable(messageId, prints) {
      QuoteSurvives(messageId, prints);
      var id, p := Safe(Str(QuoteBody(messageId, prints))), Safe(Parse(payload).value);
      SplitsAsResult(id, p);
      ReadsAsResult(Print(Group(false, Three(Scalar([0x33]), id, p))), Print(id), Print(p), messageId);
    }
  }

  // ---------------------------------------------------------------- calls of any id

  /** A Go string without invalid bytes, which is what decoding a JSON string always gives. */
  predicate Clean(s: Text) {
    forall i :: 0 <= i < |s| ==> s[i] < BAD
  }

  /** A plain JSON spelling of one character: escaped only where JSON asks for it. */
  function Spell(u: Unit): Text {
    if u < 0x20 || u == QUOTE || u == BACKSLASH then EscapeU(u) else [u]
  }

  function SpellAll(s: Text): Text {
    if s == [] then [] else Spell(s[0]) + SpellAll(s[1..])
  }

  /** The frame of a call, however its client wrote it: any id and action, spelled in JSON. */
  function CallFrame(id: Text, action: Text, payload: Tree): Text {
    Print(Group(false, Cons([], Scalar([0x32]), Three(Str(SpellAll(id)), Str(SpellAll(action)), payload))))
  }

  lemma SpellReads(u: Unit, rest: Text)
    requires u < BAD
    ensures var t := Spell(u) + rest;
            t[0] != QUOTE && PieceLength(t) == |Spell(u)| > 0 && t[PieceLength(t)..] == rest && Code(t) == u
  {
    if u < 0x20 || u == QUOTE || u == BACKSLASH {
      EscapeUReads(u, rest);
    }
  }

  lemma {:induction false} SpelledBody(s: Text)
    requires Clean(s)
    ensures IsBody(SpellAll(s)) && Codes(SpellAll(s)) == s
  {
    if s != [] {
      SpelledBody(s[1..]);
      SpellReads(s[0], SpellAll(s[1..]));
      CodesStep(SpellAll(s));
    }
  }

  lemma {:induction false} JoinUpClean(s: Text)
    requires Clean(s)
    ensures JoinUp(s) == s
  {
    if s != [] {
      JoinUpClean(s[1..]);
    }
  }

  lemma SpelledReads(s: Text)
    requires Clean(s)
    ensures WellFormed(Str(SpellAll(s))) && AsString(Print(Str(SpellAll(s)))) == Some(s)
  {
    SpelledBody(s);
    JoinUpClean(s);
    ParsePrint(Str(SpellAll(s)));
  }

  /** Decoding never lets an invalid byte through. */
  lemma {:induction false} JoinUpIsClean(cs: seq<int>)
    requires forall i :: 0 <= i < |cs| ==> 0 <= cs[i] < 0x11_0100
    ensures Clean(JoinUp(cs))
    decreases |cs|
  {
    if cs == [] {
    } else if |cs| >= 2 && HighSurrogate(cs[0]) && LowSurrogate(cs[1]) {
      JoinUpIsClean(cs[2..]);
    } else {
      JoinUpIsClean(cs[1..]);
    }
  }

  /** There is a frame for every clean id and action, with any payload. */
  lemma AnyCallReads(id: Text, action: Text, payload: Tree)
    requires Clean(id) && Clean(action) && WellFormed(payload)
    ensures ParseMessage(CallFrame(id, action, payload)) == Parsed(Message(CALL, id, action, Print(payload)))
  {
    SpelledReads(id);
    SpelledReads(action);
    SplitsAsCall(Str(SpellAll(id)), Str(SpellAll(action)), payload);
    ReadsAsCall(CallFrame(id, action, payload), Print(Str(SpellAll(id))), Print(Str(SpellAll(action))),
        Print(payload), id, action);
  }

  lemma StringsAreClean(t: Text)
    ensures AsString(t).Some? ==> Clean(AsString(t).value)
  {
    match Parse(t)
    case Some(Str(b)) =>
      ParseWellFormed(t);
      CodesInRange(b);
      JoinUpIsClean(Codes(b));
    case _ =>
  }

  /** No message read from a frame holds an id or action that is not clean. */
  lemma CallsAreClean(data: Text)
    ensures ParseMessage(data).Parsed? ==>
              Clean(ParseMessage(data).message.messageId) && Clean(ParseMessage(data).message.action)
  {
    assert Clean([]);
    hide Elements, AsInt, AsString, Clean;
    var raw := Elements(data);
    if raw.Some? && |raw.value| >= 3 {
      StringsAreClean(raw.value[1]);
      StringsAreClean(raw.value[2]);
    }
  }
}
