/** ParseMessage takes a frame apart with one pass over its text; the reader of Json builds trees. They
    agree on every text, whatever its layout. */
module Splitter {
  import opened Domain
  import opened Json
  import opened Framing

  predicate AllSpace(t: Text) {
    forall i :: 0 <= i < |t| ==> Space(t[i])
  }

  lemma {:induction false} TrimSplit(t: Text) returns (sp: Text)
    ensures AllSpace(sp) && t == sp + Trim(t)
  {
    sp := [];
    if t != [] && Space(t[0]) {
      sp := TrimSplit(t[1..]);
      sp := [t[0]] + sp;
    }
  }

  lemma {:induction false} TrimSpaces(sp: Text, t: Text)
    requires AllSpace(sp)
    ensures Trim(sp + t) == Trim(t)
  {
    if sp == [] {
      assert sp + t == t;
    } else {
      assert (sp + t)[1..] == sp[1..] + t;
      TrimSpaces(sp[1..], t);
    }
  }

  /** Where the text of something starts does not depend on what follows it. */
  lemma SameStart(p: Text, a: Text, b: Text)
    requires Trim(p) != []
    ensures Trim(p + a) == Trim(p) + a && Trim(p + b) == Trim(p) + b
  {
    var sp := TrimSplit(p);
    var u := Trim(p);
    TrimSpaces(sp, u + a);
    TrimSpaces(sp, u + b);
    assert p + a == sp + (u + a) && p + b == sp + (u + b);
    assert Trim(u + a) == u + a && Trim(u + b) == u + b;
  }

  lemma {:induction false} NotBlank(front: Text, last: Text)
    requires last != [] && !Space(last[0])
    ensures Trim(front + last) != []
  {
    if front == [] {
      assert front + last == last;
    } else if Space(front[0]) {
      NotBlank(front[1..], last);
      assert (front + last)[1..] == front[1..] + last;
    }
  }

  lemma {:induction false} LiteralShape(t: Text)
    requires Literal(t).Some?
    ensures var (b, rest) := Literal(t).value; t == b + [QUOTE] + rest && IsBody(b)
    decreases |t|
  {
    LiteralIsBody(t);
    hide PieceLength, IsBody;
    if t[0] == QUOTE {
      assert t == [] + [QUOTE] + t[1..];
    } else {
      var n := PieceLength(t);
      LiteralShape(t[n..]);
      assert t == t[..n] + t[n..];
    }
  }

  // ---------------------------------------------------------------- the reader looks no further

  lemma NameSteps(t: Text) returns (rest: Text)
    requires Name(true, t).Some?
    ensures var (name, u) := Name(true, t).value;
            Trim(t) == [QUOTE] + (name + [QUOTE] + rest) && IsBody(name) && Trim(rest) == [COLON] + u
  {
    LiteralShape(Trim(t)[1..]);
    rest := Literal(Trim(t)[1..]).value.1;
  }

  lemma SpacedName(sp: Text, name: Text, sp2: Text, x: Text)
    requires AllSpace(sp) && AllSpace(sp2) && IsBody(name)
    ensures Name(true, sp + ([QUOTE] + (name + [QUOTE] + (sp2 + ([COLON] + x))))) == Some((name, x))
  {
    var w := sp2 + ([COLON] + x);
    var v := [QUOTE] + (name + [QUOTE] + w);
    TrimSpaces(sp, v);
    LiteralOfBody(name, w);
    TrimSpaces(sp2, [COLON] + x);
    assert Trim(v) == v && v[1..] == name + [QUOTE] + w;
    assert Trim([COLON] + x) == [COLON] + x && ([COLON] + x)[1..] == x;
  }

  lemma MemberNameLocal(t: Text, x: Text) returns (p: Text)
    requires Name(true, t).Some?
    ensures var (name, u) := Name(true, t).value; t == p + u && Name(true, p + x) == Some((name, x))
  {
    var rest := NameSteps(t);
    hide Name, Trim, IsBody;
    var (name, u) := Name(true, t).value;
    var sp := TrimSplit(t);
    var sp2 := TrimSplit(rest);
    p := sp + ([QUOTE] + (name + [QUOTE] + (sp2 + [COLON])));
    assert p + u == sp + ([QUOTE] + (name + [QUOTE] + (sp2 + ([COLON] + u))));
    assert p + x == sp + ([QUOTE] + (name + [QUOTE] + (sp2 + ([COLON] + x))));
    SpacedName(sp, name, sp2, x);
  }

  lemma NameLocal(o: bool, t: Text, x: Text) returns (p: Text)
    requires Name(o, t).Some?
    ensures var (name, u) := Name(o, t).value; t == p + u && Name(o, p + x) == Some((name, x))
  {
    if !o {
      p := [];
      assert [] + t == t && [] + x == x;
    } else {
      p := MemberNameLocal(t, x);
    }
  }

  // How the reader came to its result, one step back.

  ghost predicate IsGroup(u: Text, v: Tree, rest: Text)
    requires u != []
  {
    var o := u[0] == Opening(true);
    var w := Trim(u[1..]);
    && v.Group? && v.isObject == o
    && (if v.items.Nil? then w == [Closing(o)] + rest
        else w != [] && w[0] != Closing(o) && Members(o, u[1..]) == Some((v.items, rest)))
  }

  lemma ValueSteps(t: Text)
    requires Value(t).Some?
    ensures var u := Trim(t); var (v, rest) := Value(t).value;
            && u != []
            && (u[0] == QUOTE ==>
                Literal(u[1..]).Some? && v == Str(Literal(u[1..]).value.0) && rest == Literal(u[1..]).value.1)
            && (u[0] == Opening(false) || u[0] == Opening(true) ==> IsGroup(u, v, rest))
            && (u[0] != QUOTE && u[0] != Opening(false) && u[0] != Opening(true) ==>
                  v == Scalar(u[..WordLength(u)]) && rest == u[WordLength(u)..] && WordLength(u) > 0
                      && IsScalar(u[..WordLength(u)]))
  {
  }

  lemma MembersSteps(o: bool, t: Text)
    requires Members(o, t).Some?
    ensures var (items, rest) := Members(o, t).value;
            && items.Cons? && Name(o, t).Some? && Name(o, t).value.0 == items.name
            && var u := Name(o, t).value.1;
            && |u| <= |t| && Value(u).Some? && Value(u).value.0 == items.value
            && var w := Trim(Value(u).value.1);
            && w != []
            && (if items.rest.Nil? then w == [Closing(o)] + rest
                else w[0] == COMMA && Members(o, w[1..]) == Some((items.rest, rest)))
  {
  }

  lemma WordLocal(u: Text, x: Text)
    requires var n := WordLength(u); n > 0 && IsScalar(u[..n]) && Ends(x)
    ensures var n := WordLength(u); Value(u[..n] + x) == Some((Scalar(u[..n]), x))
  {
    WordTaken(u);
    ScalarOfPrint(u[..WordLength(u)], x);
  }

  lemma StrLocal(u: Text, x: Text)
    requires u != [] && u[0] == QUOTE && Literal(u[1..]).Some?
    ensures var (b, rest) := Literal(u[1..]).value;
            u == [QUOTE] + b + [QUOTE] + rest && Value([QUOTE] + b + [QUOTE] + x) == Some((Str(b), x))
  {
    LiteralShape(u[1..]);
    var (b, rest) := Literal(u[1..]).value;
    assert u == [QUOTE] + (b + [QUOTE] + rest);
    StrOfPrint(b, x);
  }

  lemma ClosingStarts(o: bool, x: Text)
    ensures Trim([Closing(o)] + x) == [Closing(o)] + x
  {
  }

  lemma EmptyGroup(o: bool, u: Text, x: Text)
    requires Trim(u) == [Closing(o)] + x
    ensures Value([Opening(o)] + u) == Some((Group(o, Nil), x))
  {
    var t := [Opening(o)] + u;
    assert Trim(t) == t && t[1..] == u && t[0] == Opening(o);
    assert ([Closing(o)] + x)[1..] == x;
  }

  lemma FullGroup(o: bool, u: Text, items: Items, x: Text)
    requires Trim(u) != [] && Trim(u)[0] != Closing(o) && Members(o, u) == Some((items, x))
    ensures Value([Opening(o)] + u) == Some((Group(o, items), x))
  {
    var t := [Opening(o)] + u;
    assert Trim(t) == t && t[1..] == u && t[0] == Opening(o);
  }

  lemma {:induction false} TrimTwice(t: Text)
    ensures Trim(Trim(t)) == Trim(t)
  {
    if t != [] && Space(t[0]) {
      TrimTwice(t[1..]);
    }
  }

  lemma SameValue(sp: Text, t: Text)
    requires AllSpace(sp)
    ensures Value(sp + t) == Value(t)
  {
    TrimSpaces(sp, t);
    TrimTwice(t);
  }

  lemma Solid(n: Text, v: Text, sp: Text, last: Text)
    requires last != [] && !Space(last[0])
    ensures Trim(n + (v + (sp + last))) != []
  {
    NotBlank(n + (v + sp), last);
    assert n + (v + (sp + last)) == n + (v + sp) + last;
  }

  lemma Glue(a: Text, b: Text, c: Text, d: Text, e: Text)
    ensures a + (b + (c + d)) + e == a + (b + (c + (d + e)))
  {
  }

  lemma TailStarts(o: bool, sp: Text, last: Text, x: Text)
    requires AllSpace(sp) && last != [] && (last[0] == Closing(o) || last[0] == COMMA)
    ensures Ends(sp + (last + x)) && Trim(sp + (last + x)) == last + x && !Space(last[0])
  {
    TrimSpaces(sp, last + x);
    assert Trim(last + x) == last + x;
  }

  lemma SpacedMembers(o: bool, t: Text, items: Items, u: Text, tail: Text, w: Text, x: Text)
    requires items.Cons? && Name(o, t) == Some((items.name, u)) && Value(u) == Some((items.value, tail))
            && Trim(tail) == w && w != []
    requires if items.rest.Nil? then w == [Closing(o)] + x
             else w[0] == COMMA && Members(o, w[1..]) == Some((items.rest, x))
    ensures Members(o, t) == Some((items, x))
  {
    assert items.rest.Nil? ==> w[1..] == x;
  }

  /** `last` is the end of the item list: the closing bracket, or a comma and the remaining items. */
  lemma {:induction false} MembersAround(o: bool, t: Text, x: Text, last: Text) returns (p: Text)
    requires Members(o, t).Some? && Name(o, t).Some? && Value(Name(o, t).value.1).Some?
    requires last != [] && (last[0] == Closing(o) || last[0] == COMMA)
    requires var (items, rest) := Members(o, t).value;
             && Trim(Value(Name(o, t).value.1).value.1) == last + rest && items.Cons?
             && items.name == Name(o, t).value.0 && items.value == Value(Name(o, t).value.1).value.0
             && (if items.rest.Nil? then last == [Closing(o)]
                 else last[0] == COMMA && Members(o, (last + x)[1..]) == Some((items.rest, x)))
    ensures var (items, rest) := Members(o, t).value; t == p + rest && Members(o, p + x) == Some((items, x))
    ensures Trim(p) != []
    decreases |t|, 3
  {
    hide Value, Members, Name, Trim, Ends;
    var (items, rest) := Members(o, t).value;
    var u := Name(o, t).value.1;
    var sp := TrimSplit(Value(u).value.1);
    var tail := sp + (last + x);
    TailStarts(o, sp, last, x);
    var v := ValueLocal(u, tail);
    var n := NameLocal(o, t, v + tail);
    p := n + (v + (sp + last));
    Glue(n, v, sp, last, rest);
    Glue(n, v, sp, last, x);
    Solid(n, v, sp, last);
    SpacedMembers(o, p + x, items, v + tail, tail, last + x, x);
  }

  lemma CommaRest(w: Text, q: Text, rest: Text, x: Text)
    requires w != [] && w[0] == COMMA && w[1..] == q + rest
    ensures w == [COMMA] + q + rest && ([COMMA] + q + x)[1..] == q + x
  {
  }

  lemma {:induction false} MembersLocal(o: bool, t: Text, x: Text) returns (p: Text)
    requires Members(o, t).Some?
    ensures var (items, rest) := Members(o, t).value; t == p + rest && Members(o, p + x) == Some((items, x))
    ensures Trim(p) != []
    decreases |t|, 4
  {
    MembersSteps(o, t);
    hide Value, Members, Name, Trim;
    var (items, rest) := Members(o, t).value;
    var w := Trim(Value(Name(o, t).value.1).value.1);
    if items.rest.Nil? {
      p := MembersAround(o, t, x, [Closing(o)]);
    } else {
      var q := MembersLocal(o, w[1..], x);
      CommaRest(w, q, rest, x);
      p := MembersAround(o, t, x, [COMMA] + q);
    }
  }

  lemma {:induction false} GroupLocal(u: Text, v: Tree, rest: Text, x: Text) returns (body: Text)
    requires u != [] && (u[0] == Opening(false) || u[0] == Opening(true)) && IsGroup(u, v, rest)
    ensures u == body + rest && Value(body + x) == Some((v, x))
    decreases |u|, 0
  {
    hide Value, Members, Trim;
    var o := u[0] == Opening(true);
    if v.items.Nil? {
      var sp := TrimSplit(u[1..]);
      body := [Opening(o)] + (sp + [Closing(o)]);
      assert u == body + rest by {
        assert u == [Opening(o)] + (sp + ([Closing(o)] + rest));
      }
      assert body + x == [Opening(o)] + (sp + ([Closing(o)] + x));
      TrimSpaces(sp, [Closing(o)] + x);
      ClosingStarts(o, x);
      EmptyGroup(o, sp + ([Closing(o)] + x), x);
    } else {
      var q := MembersLocal(o, u[1..], x);
      body := [Opening(o)] + q;
      assert u == [Opening(o)] + (q + rest);
      assert body + x == [Opening(o)] + (q + x);
      SameStart(q, rest, x);
      assert Trim(q + x)[0] == Trim(q)[0] == Trim(q + rest)[0];
      FullGroup(o, q + x, v.items, x);
    }
  }

  lemma {:induction false} BodyLocal(t: Text, x: Text) returns (body: Text)
    requires Value(t).Some? && Ends(x)
    ensures var (v, rest) := Value(t).value; Trim(t) == body + rest && Value(body + x) == Some((v, x))
    decreases |t|, 1
  {
    ValueSteps(t);
    hide Value, Members, IsGroup, Literal, IsScalar, WordLength, Trim, Ends;
    var (v, rest) := Value(t).value;
    var u := Trim(t);
    if u[0] == QUOTE {
      StrLocal(u, x);
      body := [QUOTE] + v.body + [QUOTE];
    } else if u[0] == Opening(false) || u[0] == Opening(true) {
      body := GroupLocal(u, v, rest, x);
    } else {
      WordLocal(u, x);
      body := u[..WordLength(u)];
    }
  }

  /** What the reader consumes for a value reads the same before anything that can end a value. */
  lemma {:induction false} ValueLocal(t: Text, x: Text) returns (p: Text)
    requires Value(t).Some? && Ends(x)
    ensures var (v, rest) := Value(t).value; t == p + rest && Value(p + x) == Some((v, x))
    decreases |t|, 2
  {
    hide Value, Ends, Trim;
    var rest := Value(t).value.1;
    var sp := TrimSplit(t);
    var body := BodyLocal(t, x);
    p := sp + body;
    assert p + rest == sp + (body + rest);
    assert p + x == sp + (body + x);
    SameValue(sp, body + x);
  }

  // ---------------------------------------------------------------- agreement

  /** The raw texts read back as the items, one by one. */
  ghost predicate Matches(raws: seq<Text>, items: Items) {
    match items
    case Nil => raws == []
    case Cons(_, v, rest) => raws != [] && Parse(raws[0]) == Some(v) && Matches(raws[1..], rest)
  }

  lemma FirstSlice(t: Text)
    requires Value(t).Some?
    ensures var u := Trim(t); var (v, rest) := Value(t).value;
            Value(u) == Value(t) && |rest| <= |u| && Parse(u[..|u| - |rest|]) == Some(v)
  {
    hide Value;
    var body := BodyLocal(t, []);
    var rest := Value(t).value.1;
    assert body + [] == body;
    assert Trim(t)[..|Trim(t)| - |rest|] == body;
    var sp := TrimSplit(t);
    SameValue(sp, Trim(t));
  }

  lemma SlicesSteps(t: Text)
    ensures Slices(t).Some? <==>
              && Value(Trim(t)).Some?
              && var w := Trim(Value(Trim(t)).value.1);
                 w != [] && ((w[0] == Closing(false) && Trim(w[1..]) == []) || (w[0] == COMMA && Slices(w[1..]).Some?))
    ensures Slices(t).Some? ==>
              var u := Trim(t); var rest := Value(u).value.1; var w := Trim(rest);
              Slices(t).value == [u[..|u| - |rest|]] + if w[0] == COMMA then Slices(w[1..]).value else []
  {
  }

  lemma MembersOfArray(t: Text)
    ensures Members(false, t).Some? <==>
              && Value(t).Some?
              && (var w := Trim(Value(t).value.1);
                  w != [] && (w[0] == Closing(false) || (w[0] == COMMA && Members(false, w[1..]).Some?)))
    ensures Members(false, t).Some? ==>
              var (v, rest) := Value(t).value; var w := Trim(rest);
              Members(false, t).value ==
              if w[0] == COMMA then
                (Cons([], v, Members(false, w[1..]).value.0), Members(false, w[1..]).value.1)
              else (Cons([], v, Nil), w[1..])
  {
  }

  lemma {:induction false} SlicesAgree(t: Text)
    ensures Slices(t).Some? <==> Members(false, t).Some? && Trim(Members(false, t).value.1) == []
    ensures Slices(t).Some? ==> Matches(Slices(t).value, Members(false, t).value.0)
    decreases |t|
  {
    SlicesSteps(t);
    MembersOfArray(t);
    var sp := TrimSplit(t);
    SameValue(sp, Trim(t));
    assert Value(Trim(t)) == Value(t);
    hide Value, Members, Slices, Trim;
    if Value(t).Some? {
      FirstSlice(t);
      var u, rest := Trim(t), Value(t).value.1;
      var w := Trim(rest);
      var raw := u[..|u| - |rest|];
      if w != [] && w[0] == COMMA {
        SlicesAgree(w[1..]);
        if Slices(t).Some? {
          assert Slices(t).value[1..] == Slices(w[1..]).value;
        }
      } else if Slices(t).Some? {
        assert Slices(t).value == [raw] && |Slices(t).value[1..]| == 0;
      }
    }
  }

  /** ParseMessage's splitter takes exactly the texts that read as an array (or null), and its raw
      texts are those of the array's items. */
  lemma ElementsAgree(data: Text)
    ensures Elements(data).Some? <==>
              Parse(data).Some? && ((Parse(data).value.Group?
                  && !Parse(data).value.isObject) || Parse(data).value == Scalar(Ascii("null")))
    ensures Elements(data).Some? ==>
              Matches(Elements(data).value, if Parse(data).value.Group? then Parse(data).value.items else Nil)
  {
    hide Members, Slices, Ascii;
    var u := Trim(data);
    var sp := TrimSplit(data);
    SameValue(sp, u);
    assert Value(u) == Value(data);
    TrimTwice(data);
    if u != [] && u[0] == Opening(false) {
      SlicesAgree(u[1..]);
    } else {
      if Parse(data).Some? {
        ValueSteps(data);
      }
    }
  }
}
