/** The order `sort.Strings` sorts by, and sorting by it. */
module Ordering {

  /** Go's string comparison `a < b`. */
  predicate Before(a: string, b: string) {
    b != "" && (a == "" || a[0] < b[0] || (a[0] == b[0] && Before(a[1..], b[1..])))
  }

  lemma {:induction false} Transitive(a: string, b: string, c: string)
    requires Before(a, b) && Before(b, c)
    ensures Before(a, c)
    decreases |a|
  {
    if a != "" && a[0] == b[0] && b[0] == c[0] {
      Transitive(a[1..], b[1..], c[1..]);
    }
  }

  lemma {:induction false} Trichotomy(a: string, b: string)
    ensures a == b || Before(a, b) || Before(b, a)
    ensures !(Before(a, b) && Before(b, a)) && !Before(a, a)
    decreases |a|
  {
    if a != "" {
      Trichotomy(a[1..], a[1..]);
    }
    if a != "" && b != "" && a[0] == b[0] {
      Trichotomy(a[1..], b[1..]);
      assert a == [a[0]] + a[1..] && b == [b[0]] + b[1..];
    }
  }

  predicate Ascending(xs: seq<string>) {
    forall i, j :: 0 <= i < j < |xs| ==> Before(xs[i], xs[j])
  }

  predicate Distinct(xs: seq<string>) {
    forall i, j :: 0 <= i < j < |xs| ==> xs[i] != xs[j]
  }

  lemma TailMember(xs: seq<string>, x: string)
    requires xs != [] && Ascending(xs)
    ensures x in xs[1..] <==> x in xs && x != xs[0]
  {
    Trichotomy(xs[0], xs[0]);
  }

  /** A set has one ascending listing, so what is read back in this order is determined. */
  lemma {:induction false} AscendingUnique(xs: seq<string>, ys: seq<string>)
    requires Ascending(xs) && Ascending(ys) && forall x :: x in xs <==> x in ys
    ensures xs == ys
    decreases |xs|
  {
    assert ys != [] ==> ys[0] in xs;
    if xs != [] {
      assert xs[0] in ys;
      var i :| 0 <= i < |ys| && ys[i] == xs[0];
      var j :| 0 <= j < |xs| && xs[j] == ys[0];
      Trichotomy(xs[0], ys[0]);
      assert xs[0] == ys[0];
      forall x ensures x in xs[1..] <==> x in ys[1..] {
        TailMember(xs, x);
        TailMember(ys, x);
      }
      AscendingUnique(xs[1..], ys[1..]);
      assert xs == [xs[0]] + xs[1..] && ys == [ys[0]] + ys[1..];
    }
  }

  lemma InsertAscending(ys: seq<string>, x: string, j: nat)
    requires Ascending(ys) && x !in ys && j <= |ys|
    requires (forall k :: 0 <= k < j ==> Before(ys[k], x)) && (j < |ys| ==> !Before(ys[j], x))
    ensures Ascending(ys[..j] + [x] + ys[j..])
    ensures forall y :: y in ys[..j] + [x] + ys[j..] <==> y in ys || y == x
  {
    var zs := ys[..j] + [x] + ys[j..];
    forall k | j <= k < |ys| ensures Before(x, ys[k]) {
      Trichotomy(ys[j], x);
      if j < k {
        Transitive(x, ys[j], ys[k]);
      }
    }
    assert ys == ys[..j] + ys[j..];
  }

  /** `sort.Strings` on a list without repetitions. */
  method SortStrings(xs: seq<string>) returns (ys: seq<string>)
    requires Distinct(xs)
    ensures Ascending(ys) && |ys| == |xs| && forall x :: x in xs <==> x in ys
  {
    ys := [];
    var i := 0;
    while i < |xs|
      invariant 0 <= i <= |xs| && |ys| == i
      invariant Ascending(ys) && forall x :: x in xs[..i] <==> x in ys
    {
      var x := xs[i];
      assert x !in xs[..i];
      var j := 0;
      while j < |ys| && Before(ys[j], x)
        invariant 0 <= j <= |ys|
        invariant forall k :: 0 <= k < j ==> Before(ys[k], x)
      {
        j := j + 1;
      }
      InsertAscending(ys, x, j);
      assert xs[..i + 1] == xs[..i] + [x];
      ys := ys[..j] + [x] + ys[j..];
      i := i + 1;
    }
    assert xs[..i] == xs;
  }
}
