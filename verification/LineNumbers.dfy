/**
 The line-number labels of `read_file` (services/dev_agent/service.py:921) and the pattern that
 takes them off again (lines 294 and 711 of the same file).
 */
module LineNumbers {
  import opened Decimal
  import opened Options
  import opened Seqs
  import opened Text

  const BAR: char := '\U{2502}'

  predicate IsSeparator(c: char) {
    c == BAR || c == '|' || c == ':'
  }

  function Spaces(n: nat): (s: string)
    ensures |s| == n && AllSpaces(s)
  {
    if n == 0 then "" else [' '] + Spaces(n - 1)
  }

  /** The number right-aligned in six columns, a bar, and a space on either side of it. */
  function Label(n: nat): string {
    var d := Print(n);
    Spaces(if |d| < 6 then 6 - |d| else 0) + (d + ([' '] + ([BAR] + [' '])))
  }

  /** What follows the match of `\s*\d+\s*[│|:]\s?` at the text's beginning. */
  function LabelRest(s: string): Option<string> {
    var a := StripLeft(s);
    var d := Digits(a);
    if d == "" then None
    else
      var b := StripLeft(a[|d|..]);
      if b == "" || !IsSeparator(b[0]) then None
      else if |b| > 1 && IsSpace(b[1]) then Some(b[2..])
      else Some(b[1..])
  }

  lemma {:induction false} StripLeftSpaces(sp: string, s: string)
    requires AllSpaces(sp) && (s == "" || !IsSpace(s[0]))
    ensures StripLeft(sp + s) == s
  {
    if sp == "" {
      assert sp + s == s;
    } else {
      assert (sp + s)[1..] == sp[1..] + s;
      StripLeftSpaces(sp[1..], s);
    }
  }

  lemma DigitsThenRest(sp: string, d: string, rest: string)
    requires AllSpaces(sp) && d != "" && AllDigits(d) && (rest == "" || !IsDigit(rest[0]))
    ensures var a := StripLeft(sp + (d + rest)); Digits(a) == d && a[|d|..] == rest
  {
    assert IsDigit(d[0]) && (d + rest)[0] == d[0];
    StripLeftSpaces(sp, d + rest);
    DigitsOf(d, rest);
    assert (d + rest)[|d|..] == rest;
  }

  lemma SeparatorThenRest(rest: string)
    ensures var b := StripLeft([' '] + ([BAR] + ([' '] + rest)));
            |b| > 1 && b[0] == BAR && IsSpace(b[1]) && b[2..] == rest
  {
    assert !IsSpace(BAR);
    StripLeftSpaces([' '], [BAR] + ([' '] + rest));
  }

  lemma LabelParts(n: nat, rest: string)
    ensures var d := Print(n);
            Label(n) + rest == Spaces(if |d| < 6 then 6 - |d| else 0) + (d + ([' '] + ([BAR] + ([' '] + rest))))
  {
    var d := Print(n);
    var sp := Spaces(if |d| < 6 then 6 - |d| else 0);
    var tail := [' '] + ([BAR] + [' ']);
    assert tail + rest == [' '] + ([BAR] + ([' '] + rest));
    ConcatAssoc(d, tail, rest);
    ConcatAssoc(sp, d + tail, rest);
  }

  /** The pattern takes off exactly the label. */
  lemma LabelTakenOff(n: nat, rest: string)
    ensures LabelRest(Label(n) + rest) == Some(rest)
  {
    var d := Print(n);
    LabelParts(n, rest);
    DigitsThenRest(Spaces(if |d| < 6 then 6 - |d| else 0), d, [' '] + ([BAR] + ([' '] + rest)));
    SeparatorThenRest(rest);
  }

  /** The labels of a file below a million lines are equally wide, with the bar in the eighth column; no other is. */
  lemma LabelsAlignIff(n: nat)
    ensures |Label(n)| >= 9
    ensures |Label(n)| == 9 <==> n < 1000000
    ensures n < 1000000 ==> Label(n)[7] == BAR && Label(n)[6] == ' ' && Label(n)[8] == ' '
  {
    PrintLengthIff(n, 6);
    assert TenTo(6) == 10 * TenTo(5) && TenTo(5) == 10 * TenTo(4) && TenTo(4) == 10 * TenTo(3);
    assert TenTo(3) == 10 * TenTo(2) && TenTo(2) == 10 * TenTo(1) && TenTo(1) == 10 * TenTo(0);
  }

  /** A match takes at least a digit and a separator. */
  lemma LabelLength(s: string)
    requires LabelRest(s).Some?
    ensures |LabelRest(s).value| + 2 <= |s|
  {
  }
}
