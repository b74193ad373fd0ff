/** Decimal text: what `%d` prints and `Sscanf("%d")` reads back. */
module Decimal {

  function Digit(d: nat): char
    requires d < 10
  {
    '0' + d as char
  }

  predicate IsDigit(c: char) {
    '0' <= c <= '9'
  }

  function PrintNat(n: nat): (s: string)
    ensures |s| > 0 && forall i :: 0 <= i < |s| ==> IsDigit(s[i])
  {
    if n < 10 then [Digit(n)] else PrintNat(n / 10) + [Digit(n % 10)]
  }

  function Print(n: int): string {
    if n < 0 then "-" + PrintNat(-n) else PrintNat(n)
  }

  function DigitValue(c: char): nat
    requires IsDigit(c)
  {
    (c as int - '0' as int) as nat
  }

  function ReadNat(s: string): nat
    requires forall i :: 0 <= i < |s| ==> IsDigit(s[i])
  {
    if s == "" then 0 else 10 * ReadNat(s[..|s| - 1]) + DigitValue(s[|s| - 1])
  }

  /** The longest prefix of digits. */
  function DigitRun(s: string): (r: string)
    ensures r <= s && forall i :: 0 <= i < |r| ==> IsDigit(r[i])
  {
    if s == "" || !IsDigit(s[0]) then "" else [s[0]] + DigitRun(s[1..])
  }

  /** `Sscanf(s, "%d", &i)` with `i` preset to 0 and the error ignored, on the texts `%d` can print. */
  function Scan(s: string): int {
    if s != "" && s[0] == '-' then 0 - ReadNat(DigitRun(s[1..])) else ReadNat(DigitRun(s))
  }

  lemma {:induction false} DigitRunAll(s: string)
    requires forall i :: 0 <= i < |s| ==> IsDigit(s[i])
    ensures DigitRun(s) == s
  {
    if s != "" {
      DigitRunAll(s[1..]);
    }
  }

  lemma {:induction false} ReadPrintNat(n: nat)
    ensures ReadNat(PrintNat(n)) == n
  {
    if n >= 10 {
      var s := PrintNat(n);
      assert s[..|s| - 1] == PrintNat(n / 10);
      ReadPrintNat(n / 10);
    }
  }

  /** Connector ids survive the print/scan round trip, negative ones included. */
  lemma ScanPrint(n: int)
    ensures Scan(Print(n)) == n
  {
    if n < 0 {
      assert Print(n)[1..] == PrintNat(-n);
      DigitRunAll(PrintNat(-n));
      ReadPrintNat(-n);
    } else {
      DigitRunAll(PrintNat(n));
      ReadPrintNat(n);
    }
  }

  lemma PrintInjective(m: int, n: int)
    requires Print(m) == Print(n)
    ensures m == n
  {
    ScanPrint(m);
    ScanPrint(n);
  }
}
