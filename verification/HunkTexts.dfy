/**
 Hunk headers as they are written, each count present or absent, and what the lines after them count
 (services/dev_agent/service.py:510-563).
 */
module HunkTexts {
  import opened Decimal
  import opened HunkCounts
  import opened Options
  import opened Seqs
  import opened Text

  // ---- Header texts ----

  /** Digits of a start, and of a count if there is one. */
  datatype SpanDigits = SpanDigits(start: string, count: Option<string>)

  predicate AreDigits(s: string) {
    s != "" && AllDigits(s)
  }

  predicate IsSpan(x: SpanDigits) {
    AreDigits(x.start) && (x.count.Some? ==> AreDigits(x.count.value))
  }

  function SpanText(x: SpanDigits): string {
    x.start + if x.count.Some? then "," + x.count.value else ""
  }

  function SpanRead(x: SpanDigits): Span
    requires IsSpan(x)
  {
    Span(Read(x.start), if x.count.Some? then Some(Read(x.count.value)) else None)
  }

  /** "@@ -a +b @@…", "@@ -a,m +b @@…", "@@ -a +b,n @@…" or "@@ -a,m +b,n @@…" */
  function HeaderText(x: SpanDigits, y: SpanDigits, trailing: string): string {
    "@@ -" + (SpanText(x) + (" +" + (SpanText(y) + (" @@" + trailing))))
  }

  lemma SpanMatches(x: SpanDigits, rest: string)
    requires IsSpan(x) && rest != "" && rest[0] == ' '
    ensures MatchSpan(SpanText(x) + rest) == Some(SpanMatch(SpanRead(x), rest))
  {
    if x.count.Some? {
      var c := x.count.value;
      ConcatAssoc(x.start, "," + c, rest);
      ConcatAssoc(",", c, rest);
      MatchSpanDigits(x.start, c, rest);
    } else {
      assert x.start + "" == x.start;
      BareSpanMatches(x.start, rest);
    }
  }

  lemma BareSpanMatches(d: string, rest: string)
    requires AreDigits(d) && rest != "" && rest[0] == ' '
    ensures MatchSpan(d + rest) == Some(SpanMatch(Span(Read(d), None), rest))
  {
    DigitsOf(d, rest);
    assert (d + rest)[|d|..] == rest;
  }

  lemma SpanThenMatches(x: SpanDigits, rest: string, next: Pattern, c: Captures)
    requires IsSpan(x) && rest != "" && rest[0] == ' ' && Match(rest, next) == Some(c)
    ensures Match(SpanText(x) + rest, SpanThen(next)) == Some(Captures([SpanRead(x)] + c.spans, c.rest))
  {
    SpanMatches(x, rest);
  }

  /** With or without counts a header is read to its starts, its counts and its trailing text. */
  lemma HeaderIsRead(x: SpanDigits, y: SpanDigits, trailing: string)
    requires IsSpan(x) && IsSpan(y)
    ensures ParseHeader(HeaderText(x, y, trailing)) == Some(HunkHeader(SpanRead(x), SpanRead(y), trailing))
  {
    var last := Literal(" @@", Rest);
    var afterY := " @@" + trailing;
    var fromY := SpanText(y) + afterY;
    MatchLiteral(" @@", trailing, Rest);
    SpanThenMatches(y, afterY, last, Captures([], trailing));
    MatchLiteral(" +", fromY, SpanThen(last));
    SpanThenMatches(x, " +" + fromY, Literal(" +", SpanThen(last)), Captures([SpanRead(y)] + [], trailing));
    MatchLiteral("@@ -", SpanText(x) + (" +" + fromY), SpanThen(Literal(" +", SpanThen(last))));
  }

  // ---- No other line is a header ----

  lemma SpanOf(s: string) returns (x: SpanDigits)
    requires MatchSpan(s).Some?
    ensures var m := MatchSpan(s).value; IsSpan(x) && m.span == SpanRead(x) && s == SpanText(x) + m.rest
  {
    var d := Digits(s);
    var rest := s[|d|..];
    DigitsFirst(s);
    SplitAtPrefix(d, s);
    if rest != "" && rest[0] == ',' && Digits(rest[1..]) != "" {
      var c := Digits(rest[1..]);
      DigitsFirst(rest[1..]);
      SplitAtPrefix(c, rest[1..]);
      x := SpanDigits(d, Some(c));
      assert rest[1..][|c|..] == rest[1 + |c|..];
      assert rest == "," + (c + rest[1 + |c|..]);
      ConcatAssoc(",", c, rest[1 + |c|..]);
      ConcatAssoc(d, "," + c, rest[1 + |c|..]);
    } else {
      x := SpanDigits(d, None);
      assert d + "" == d;
    }
  }

  lemma LiteralThere(s: string, t: string, next: Pattern)
    requires Match(s, Literal(t, next)).Some?
    ensures t <= s && s == t + s[|t|..] && Match(s[|t|..], next) == Match(s, Literal(t, next))
  {
  }

  lemma SpanThere(s: string, next: Pattern) returns (x: SpanDigits, rest: string)
    requires Match(s, SpanThen(next)).Some?
    ensures IsSpan(x) && s == SpanText(x) + rest && Match(rest, next).Some?
    ensures Match(s, SpanThen(next)).value == Captures([SpanRead(x)] + Match(rest, next).value.spans, Match(rest, next).value.rest)
  {
    x := SpanOf(s);
    rest := MatchSpan(s).value.rest;
  }

  /** A line is read as a hunk header exactly when it is written like one. */
  lemma HeaderIsWritten(line: string) returns (x: SpanDigits, y: SpanDigits, trailing: string)
    requires ParseHeader(line).Some?
    ensures IsSpan(x) && IsSpan(y) && line == HeaderText(x, y, trailing)
  {
    var last := Literal(" @@", Rest);
    LiteralThere(line, "@@ -", SpanThen(Literal(" +", SpanThen(last))));
    var afterX, afterY;
    x, afterX := SpanThere(line[4..], Literal(" +", SpanThen(last)));
    LiteralThere(afterX, " +", SpanThen(last));
    y, afterY := SpanThere(afterX[2..], last);
    LiteralThere(afterY, " @@", Rest);
    trailing := afterY[3..];
  }

  // ---- Counting by signs ----

  /** The first character is this one. */
  predicate Begins(line: string, c: char) {
    line != "" && line[0] == c
  }

  /** Anything but an added line or a note stands in the old file. */
  predicate IsOld(line: string) {
    !Begins(line, '+') && !Begins(line, '\\')
  }

  /** Anything but a removed line or a note stands in the new file. */
  predicate IsNew(line: string) {
    !Begins(line, '-') && !Begins(line, '\\')
  }

  /** The lines between `k` and `end` that stand in the old file. */
  function OldOnes(lines: seq<string>, k: nat, end: nat): set<int>
    requires end <= |lines|
  {
    set i {:trigger IsOld(lines[i])} | k < i < end && IsOld(lines[i])
  }

  /** Those that stand in the new file. */
  function NewOnes(lines: seq<string>, k: nat, end: nat): set<int>
    requires end <= |lines|
  {
    set i {:trigger IsNew(lines[i])} | k < i < end && IsNew(lines[i])
  }

  lemma WeightOf(lines: seq<string>, k: nat)
    requires k < |lines|
    ensures var c := Classes(lines)[k];
            c.old_ == (if IsOld(lines[k]) then 1 else 0) && c.new_ == (if IsNew(lines[k]) then 1 else 0)
  {
    ClassAt(lines, k);
    OneSign(lines[k]);
  }

  lemma OldOnesStep(lines: seq<string>, k: nat, i: nat)
    requires k < i < |lines|
    ensures |OldOnes(lines, k, i + 1)| == |OldOnes(lines, k, i)| + if IsOld(lines[i]) then 1 else 0
  {
    var a, b := OldOnes(lines, k, i), OldOnes(lines, k, i + 1);
    var c := if IsOld(lines[i]) then a + {i} else a;
    forall x ensures x in b <==> x in c {
      if k < x < i + 1 { assert x in b <==> IsOld(lines[x]); }
    }
    SetGrows(a, b, i, IsOld(lines[i]));
  }

  lemma NewOnesStep(lines: seq<string>, k: nat, i: nat)
    requires k < i < |lines|
    ensures |NewOnes(lines, k, i + 1)| == |NewOnes(lines, k, i)| + if IsNew(lines[i]) then 1 else 0
  {
    var a, b := NewOnes(lines, k, i), NewOnes(lines, k, i + 1);
    var c := if IsNew(lines[i]) then a + {i} else a;
    forall x ensures x in b <==> x in c {
      if k < x < i + 1 { assert x in b <==> IsNew(lines[x]); }
    }
    SetGrows(a, b, i, IsNew(lines[i]));
  }

  lemma {:induction false} CountsBySign(lines: seq<string>, k: nat, end: nat)
    requires k < end <= |lines|
    ensures OldCount(Classes(lines), k + 1, end) == |OldOnes(lines, k, end)|
    ensures NewCount(Classes(lines), k + 1, end) == |NewOnes(lines, k, end)|
  {
    if end == k + 1 {
      assert OldOnes(lines, k, end) == {} && NewOnes(lines, k, end) == {};
    } else {
      CountsBySign(lines, k, end - 1);
      WeightOf(lines, end - 1);
      OldOnesStep(lines, k, end - 1);
      NewOnesStep(lines, k, end - 1);
    }
  }

  lemma BodyEndsThere(lines: seq<string>, k: nat, end: nat)
    requires k < end <= |lines|
    requires (forall i :: k < i < end ==> !StopsBody(lines[i])) && (end == |lines| || StopsBody(lines[end]))
    ensures BodyEnd(Classes(lines), k + 1) == end
  {
    forall i | k + 1 <= i < end ensures !Classes(lines)[i].stops { StopsAt(lines, i); }
    if end < |lines| { StopsAt(lines, end); }
    EndOfBody(Classes(lines), k + 1, end);
  }

  lemma FormatIsText(o: nat, m: nat, p: nat, n: nat, trailing: string)
    ensures FormatHeader(o, m, p, n, trailing) ==
              HeaderText(SpanDigits(Print(o), Some(Print(m))), SpanDigits(Print(p), Some(Print(n))), trailing)
  {
    var last := Literal(" @@", Rest);
    var tail := " @@" + trailing;
    FillSpan(last, [(p, n)], trailing);
    CountedText(p, n, tail);
    FillSpan(Literal(" +", SpanThen(last)), [(o, m), (p, n)], trailing);
    assert [(o, m), (p, n)][1..] == [(p, n)];
    CountedText(o, m, " +" + Fill(SpanThen(last), [(p, n)], trailing));
  }

  lemma CountedText(start: nat, count: nat, rest: string)
    ensures Print(start) + ("," + (Print(count) + rest)) == SpanText(SpanDigits(Print(start), Some(Print(count)))) + rest
  {
    ConcatAssoc(",", Print(count), rest);
    ConcatAssoc(Print(start), "," + Print(count), rest);
  }

  /**
   A header written with or without counts is rewritten with both: the starts and the trailing text
   stay, and the counts are those of the lines up to the first that begins another hunk, file or
   diff. A line without a sign, even an empty one, counts as old and as new.
   */
  lemma HeaderIsRecounted(lines: seq<string>, k: nat, end: nat, x: SpanDigits, y: SpanDigits, trailing: string)
    requires k < end <= |lines| && IsSpan(x) && IsSpan(y) && lines[k] == HeaderText(x, y, trailing)
    requires (forall i :: k < i < end ==> !StopsBody(lines[i])) && (end == |lines| || StopsBody(lines[end]))
    ensures Repaired(lines)[k] ==
              HeaderText(SpanDigits(Print(Read(x.start)), Some(Print(|OldOnes(lines, k, end)|))),
                         SpanDigits(Print(Read(y.start)), Some(Print(|NewOnes(lines, k, end)|))), trailing)
  {
    HeaderIsRead(x, y, trailing);
    HeaderAt(lines, k);
    RepairedAt(lines, k);
    BodyEndsThere(lines, k, end);
    CountsBySign(lines, k, end);
    FormatIsText(Read(x.start), |OldOnes(lines, k, end)|, Read(y.start), |NewOnes(lines, k, end)|, trailing);
  }

  /** git's header for hunks of one line, with a line added by hand. */
  lemma BareHeaderRecounted(lines: seq<string>)
    requires lines == ["@@ -1 +1 @@", "-a", "+b", "+c"]
    ensures Repaired(lines)[0] == "@@ -1,1 +1,2 @@"
  {
    var one := SpanDigits("1", None);
    BareHeaderTexts();
    NoneStops(lines);
    HeaderIsRecounted(lines, 0, 4, one, one, "");
    assert OldOnes(lines, 0, 4) == {1} && NewOnes(lines, 0, 4) == {2, 3};
  }

  lemma NoneStops(lines: seq<string>)
    requires lines == ["@@ -1 +1 @@", "-a", "+b", "+c"]
    ensures !StopsBody(lines[1]) && !StopsBody(lines[2]) && !StopsBody(lines[3])
  {
    assert |"--- "| == 4 && |"+++ "| == 4 && |"diff "| == 5 && "@@"[0] == '@';
  }

  lemma BareHeaderTexts()
    ensures IsSpan(SpanDigits("1", None)) && Read("1") == 1 && Print(1) == "1" && Print(2) == "2"
    ensures HeaderText(SpanDigits("1", None), SpanDigits("1", None), "") == "@@ -1 +1 @@"
    ensures HeaderText(SpanDigits("1", Some("1")), SpanDigits("1", Some("2")), "") == "@@ -1,1 +1,2 @@"
  {
    assert "1"[..0] == "" && Read("") == 0;
    assert SpanText(SpanDigits("1", None)) == "1";
    assert SpanText(SpanDigits("1", Some("1"))) == "1,1" && SpanText(SpanDigits("1", Some("2"))) == "1,2";
  }
}
