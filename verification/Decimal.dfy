/** Decimal numerals, as Python's `int(...)` reads ASCII digits and `str(...)` prints them. */
module Decimal {

  predicate IsDigit(c: char) {
    '0' <= c <= '9'
  }

  predicate AllDigits(s: string) {
    forall i :: 0 <= i < |s| ==> IsDigit(s[i])
  }

  function DigitChar(d: nat): (c: char)
    requires d < 10
    ensures IsDigit(c) && c as int - '0' as int == d
  {
    ('0' as int + d) as char
  }

  function Print(n: nat): (s: string)
    ensures s != [] && AllDigits(s)
  {
    if n < 10 then [DigitChar(n)] else Print(n / 10) + [DigitChar(n % 10)]
  }

  function TenTo(k: nat): (p: nat)
    ensures p >= 1
  {
    if k == 0 then 1 else 10 * TenTo(k - 1)
  }

  /** A numeral has at most so many digits exactly when the number is below that power of ten. */
  lemma {:induction false} PrintLengthIff(n: nat, k: nat)
    requires k >= 1
    ensures |Print(n)| <= k <==> n < TenTo(k)
    decreases n
  {
    if n < 10 {
      assert TenTo(k) == 10 * TenTo(k - 1);
    } else if k == 1 {
      assert TenTo(1) == 10 * TenTo(0) && |Print(n)| == |Print(n / 10)| + 1;
    } else {
      PrintLengthIff(n / 10, k - 1);
      assert TenTo(k) == 10 * TenTo(k - 1);
    }
  }

  /** `int(s)` for a digit string; 0 for the empty one. */
  function Read(s: string): nat
    requires AllDigits(s)
  {
    if s == [] then 0 else 10 * Read(s[..|s| - 1]) + (s[|s| - 1] as int - '0' as int)
  }

  lemma {:induction false} ReadPrint(n: nat)
    ensures Read(Print(n)) == n
  {
    var s := Print(n);
    if n >= 10 {
      ReadPrint(n / 10);
      assert s[..|s| - 1] == Print(n / 10);
    } else {
      assert s[..0] == [];
      assert Read([]) == 0;
    }
  }

  lemma PrintInjective(m: nat, n: nat)
    requires Print(m) == Print(n)
    ensures m == n
  {
    ReadPrint(m);
    ReadPrint(n);
  }

  /** The digits a text begins with. */
  function Digits(s: string): (d: string)
    ensures AllDigits(d) && |d| <= |s|
    ensures |d| < |s| ==> !IsDigit(s[|d|])
  {
    if s != "" && IsDigit(s[0]) then [s[0]] + Digits(s[1..]) else ""
  }

  lemma {:induction false} DigitsOf(d: string, rest: string)
    requires AllDigits(d) && (rest == "" || !IsDigit(rest[0]))
    ensures Digits(d + rest) == d
  {
    if d == "" {
      assert d + rest == rest;
    } else {
      assert (d + rest)[1..] == d[1..] + rest;
      DigitsOf(d[1..], rest);
      assert d == [d[0]] + d[1..];
    }
  }

  lemma {:induction false} DigitsFirst(s: string)
    ensures Digits(s) <= s
  {
    if s != "" && IsDigit(s[0]) {
      var d, rest := Digits(s[1..]), s[1..];
      DigitsFirst(rest);
      forall i | 0 <= i < |d| + 1 ensures ([s[0]] + d)[i] == s[i] { assert i > 0 ==> d[i - 1] == rest[i - 1]; }
    }
  }
}
