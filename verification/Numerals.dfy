/** When the string order the read API sorts connectors by is the order of their numbers. */
module Numerals {
  import opened Decimal
  import opened Ordering

  /** The number of decimal digits. */
  function Size(n: nat): nat {
    |PrintNat(n)|
  }

  /** The number without its last k digits. */
  function Leading(n: nat, k: nat): nat {
    if k == 0 then n else Leading(n / 10, k - 1)
  }

  lemma {:induction false} BeforeSnoc(x: string, y: string, c: char, d: char)
    requires |x| == |y|
    ensures Before(x + [c], y + [d]) <==> Before(x, y) || (x == y && c < d)
    decreases |x|
  {
    var a, b := x + [c], y + [d];
    if x != "" {
      assert a[1..] == x[1..] + [c] && b[1..] == y[1..] + [d];
      BeforeSnoc(x[1..], y[1..], c, d);
      assert x == [x[0]] + x[1..] && y == [y[0]] + y[1..];
    } else {
      assert a[1..] == "" && b[1..] == "";
    }
  }

  lemma {:induction false} BeforeLonger(a: string, b: string)
    requires |a| < |b|
    ensures Before(a, b) <==> a == b[..|a|] || Before(a, b[..|a|])
    ensures Before(b, a) <==> Before(b[..|a|], a)
    decreases |a|
  {
    if a != "" {
      var p := b[..|a|];
      assert p[1..] == b[1..][..|a| - 1];
      BeforeLonger(a[1..], b[1..]);
      assert a == [a[0]] + a[1..] && p == [p[0]] + p[1..];
    }
  }

  lemma OneDigit(n: nat)
    ensures Size(n) == 1 <==> n < 10
  {
    if n >= 10 {
      assert |PrintNat(n / 10)| > 0;
    }
  }

  lemma {:induction false} SameSize(m: nat, n: nat)
    requires Size(m) == Size(n)
    ensures Before(PrintNat(m), PrintNat(n)) <==> m < n
    decreases m
  {
    if m < 10 {
      OneDigit(n);
      BeforeSnoc("", "", Digit(m), Digit(n));
      assert PrintNat(m) == "" + [Digit(m)] && PrintNat(n) == "" + [Digit(n)];
    } else {
      OneDigit(m);
      SameSize(m / 10, n / 10);
      BeforeSnoc(PrintNat(m / 10), PrintNat(n / 10), Digit(m % 10), Digit(n % 10));
      if PrintNat(m / 10) == PrintNat(n / 10) {
        ReadPrintNat(m / 10);
        ReadPrintNat(n / 10);
      }
    }
  }

  lemma {:induction false} PrintLeading(n: nat, k: nat)
    requires k < Size(n)
    ensures PrintNat(n)[..Size(n) - k] == PrintNat(Leading(n, k))
    decreases k
  {
    if k > 0 {
      assert PrintNat(n) == PrintNat(n / 10) + [Digit(n % 10)];
      PrintLeading(n / 10, k - 1);
      assert PrintNat(n)[..Size(n) - k] == PrintNat(n / 10)[..Size(n / 10) - (k - 1)];
    }
  }

  lemma {:induction false} SmallerSize(m: nat, n: nat)
    requires Size(m) < Size(n)
    ensures m < n
    decreases n
  {
    assert n >= 10;
    if m >= 10 {
      SmallerSize(m / 10, n / 10);
    }
  }

  /** Two numbers with as many digits sort as numbers. Otherwise the one with fewer digits sorts first
      if and only if it is at most the other's leading digits: so 2 comes after 10, and 1 before it.
      The order of the texts is the order of the numbers exactly then. */
  lemma StringOrderIff(m: nat, n: nat)
    ensures Size(m) == Size(n) ==> (Before(Print(m), Print(n)) <==> m < n)
    ensures Size(m) < Size(n) ==>
              m < n && (Before(Print(m), Print(n)) <==> m <= Leading(n, Size(n) - Size(m)))
                    && (Before(Print(n), Print(m)) <==> Leading(n, Size(n) - Size(m)) < m)
  {
    if Size(m) == Size(n) {
      SameSize(m, n);
    } else if Size(m) < Size(n) {
      var k := Size(n) - Size(m);
      SmallerSize(m, n);
      BeforeLonger(PrintNat(m), PrintNat(n));
      PrintLeading(n, k);
      SameSize(m, Leading(n, k));
      SameSize(Leading(n, k), m);
      ReadPrintNat(m);
      ReadPrintNat(Leading(n, k));
    }
  }

  /** Below ten, then, connectors appear in numeric order; ten itself comes before two. */
  lemma DigitsInOrder(m: nat, n: nat)
    requires m < 10 && n < 10
    ensures Before(Print(m), Print(n)) <==> m < n
    ensures Before(Print(10), Print(n)) <==> n > 1
  {
    assert Size(m) == 1 && Size(n) == 1;
    StringOrderIff(m, n);
    assert PrintNat(10) == PrintNat(1) + [Digit(0)] && Leading(10, 1) == 1;
    StringOrderIff(n, 10);
  }
}
