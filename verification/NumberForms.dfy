/**
 Which texts count as a copied line number, and what the passes make of the lines that carry one
 (services/dev_agent/service.py:265-330).
 */
module NumberForms {
  import opened Decimal
  import opened Lines
  import opened LineNumbers
  import opened Options
  import opened PatchCleanup
  import opened Seqs
  import opened Text

  /** Spaces, digits, spaces, and a bar of either kind or a colon. */
  datatype Mark = Mark(before: string, digits: string, between: string, separator: char)

  predicate IsMark(m: Mark) {
    && AllSpaces(m.before) && m.digits != "" && AllDigits(m.digits) && AllSpaces(m.between)
    && m.separator in {'\U{2502}', '|', ':'}
  }

  function Marked(m: Mark, rest: string): string {
    m.before + (m.digits + (m.between + ([m.separator] + rest)))
  }

  /** One space after the mark belongs to it. */
  function Behind(rest: string): string {
    if rest != "" && IsSpace(rest[0]) then rest[1..] else rest
  }

  lemma SeparatorIsPlain(c: char)
    requires c in {'\U{2502}', '|', ':'}
    ensures IsSeparator(c) && !IsSpace(c) && !IsDigit(c)
  {
  }

  lemma BetweenIsNoDigit(m: Mark, rest: string)
    requires IsMark(m)
    ensures var s := m.between + ([m.separator] + rest); s != "" && !IsDigit(s[0]) && StripLeft(s) == [m.separator] + rest
  {
    SeparatorIsPlain(m.separator);
    StripLeftSpaces(m.between, [m.separator] + rest);
  }

  /** A mark is taken off with one space behind it. */
  lemma MarkIsTaken(m: Mark, rest: string)
    requires IsMark(m)
    ensures LabelRest(Marked(m, rest)) == Some(Behind(rest))
  {
    var tail := m.between + ([m.separator] + rest);
    BetweenIsNoDigit(m, rest);
    SeparatorIsPlain(m.separator);
    DigitsThenRest(m.before, m.digits, tail);
    var b := [m.separator] + rest;
    assert b[1..] == rest && (|b| > 1 ==> b[1] == rest[0] && b[2..] == rest[1..]);
  }

  /** Nothing else is: what the pattern matches is a mark. */
  lemma OnlyMarksAreTaken(s: string) returns (m: Mark, rest: string)
    requires LabelRest(s).Some?
    ensures IsMark(m) && s == Marked(m, rest) && LabelRest(s) == Some(Behind(rest))
  {
    var before := StripLeftParts(s);
    var a := StripLeft(s);
    var d := Digits(a);
    DigitsFirst(a);
    SplitAtPrefix(d, a);
    var between := StripLeftParts(a[|d|..]);
    var b := StripLeft(a[|d|..]);
    m, rest := Mark(before, d, between, b[0]), b[1..];
    assert b == [b[0]] + rest;
    MarkIsTaken(m, rest);
  }

  // ---- Patch lines ----

  lemma MarkedBegins(m: Mark, rest: string)
    requires IsMark(m)
    ensures var s := Marked(m, rest); s != "" && (IsSpace(s[0]) || IsDigit(s[0])) && (m.before == "" ==> IsDigit(s[0]))
  {
  }

  lemma NoHeading(line: string)
    requires line != "" && line[0] != 'd' && line[0] != '@' && line[0] != '\\'
    requires |line| > 1 ==> line[1] != '-' && line[1] != '+'
    ensures !IsHeading(line)
  {
    assert "diff "[0] == 'd' && "--- "[1] == '-' && "+++ "[1] == '+' && "@@"[0] == '@' && "\\"[0] == '\\';
  }

  /** Behind its sign a line loses the mark. */
  lemma SignedLineIsCleaned(sign: char, m: Mark, rest: string)
    requires sign in {'+', '-', ' '} && IsMark(m)
    ensures CleanLine([sign] + Marked(m, rest)) == [sign] + Behind(rest)
  {
    var line := [sign] + Marked(m, rest);
    MarkedBegins(m, rest);
    MarkIsTaken(m, rest);
    assert line[1..] == Marked(m, rest);
    NoHeading(line);
  }

  /** A marked line without a sign becomes a line of context. */
  lemma UnsignedLineIsCleaned(m: Mark, rest: string)
    requires IsMark(m) && (m.before != "" ==> m.before[0] != ' ')
    ensures CleanLine(Marked(m, rest)) == " " + Behind(rest)
  {
    MarkedBegins(m, rest);
    MarkIsTaken(m, rest);
    SpaceOrDigit(Marked(m, rest));
  }

  lemma SpaceOrDigit(line: string)
    requires line != "" && (IsSpace(line[0]) || IsDigit(line[0]))
    ensures !IsHeading(line) && line[0] != '-' && line[0] != '+'
  {
    assert "diff "[0] == 'd' && "--- "[0] == '-' && "+++ "[0] == '+' && "@@"[0] == '@' && "\\"[0] == '\\';
  }

  // ---- Which patches are cleaned ----

  /** A line that is no part of a header: not empty, and begun by none of five texts. */
  predicate IsBody(line: string) {
    && line != "" && !("diff " <= line) && !("--- " <= line) && !("+++ " <= line) && !("@@" <= line) && !("\\" <= line)
  }

  /** A line that a mark begins, or a sign and a mark. */
  datatype Numbering = Numbering(sign: string, mark: Mark, rest: string)

  predicate IsNumbering(f: Numbering, line: string) {
    f.sign in {"", "+", "-", " "} && IsMark(f.mark) && line == f.sign + Marked(f.mark, f.rest)
  }

  ghost predicate CarriesMark(line: string) {
    exists f :: IsNumbering(f, line)
  }

  lemma BodyIsBody(line: string)
    ensures IsBody(line) <==> line != "" && !IsHeading(line)
  {
  }

  lemma MarkIsFound(f: Numbering, line: string)
    requires IsNumbering(f, line)
    ensures Unnumbered(line).Some?
  {
    var m := f.mark;
    if f.sign != "" {
      assert line[1..] == Marked(m, f.rest);
      MarkIsTaken(m, f.rest);
    } else if IsSign(line[0]) {
      MarkedBegins(m, f.rest);
      var shorter := m.(before := m.before[1..]);
      assert line[1..] == Marked(shorter, f.rest);
      MarkIsTaken(shorter, f.rest);
    } else {
      assert line == Marked(m, f.rest);
      MarkIsTaken(m, f.rest);
    }
  }

  lemma FoundIsMark(line: string)
    requires Unnumbered(line).Some?
    ensures CarriesMark(line)
  {
    var sign := if line != "" && IsSign(line[0]) then [line[0]] else "";
    var m, rest := OnlyMarksAreTaken(line[|sign|..]);
    assert line == sign + line[|sign|..];
    assert IsNumbering(Numbering(sign, m, rest), line);
  }

  lemma CarriesMarkIff(line: string)
    ensures CarriesMark(line) <==> Unnumbered(line).Some?
  {
    if CarriesMark(line) {
      var f :| IsNumbering(f, line);
      MarkIsFound(f, line);
    }
    if Unnumbered(line).Some? { FoundIsMark(line); }
  }

  /** The body lines among the first `n`. */
  ghost function BodyLines(lines: seq<string>, n: nat): set<int>
    requires n <= |lines|
  {
    set i {:trigger IsBody(lines[i])} | 0 <= i < n && IsBody(lines[i])
  }

  /** Those that carry a mark. */
  ghost function MarkedLines(lines: seq<string>, n: nat): set<int>
    requires n <= |lines|
  {
    set i {:trigger CarriesMark(lines[i])} | 0 <= i < n && IsBody(lines[i]) && CarriesMark(lines[i])
  }

  lemma BodyLinesStep(lines: seq<string>, n: nat)
    requires n < |lines|
    ensures |BodyLines(lines, n + 1)| == |BodyLines(lines, n)| + if IsBody(lines[n]) then 1 else 0
  {
    var a, b := BodyLines(lines, n), BodyLines(lines, n + 1);
    var c := if IsBody(lines[n]) then a + {n} else a;
    forall x ensures x in b <==> x in c {
      if 0 <= x < n + 1 { assert x in b <==> IsBody(lines[x]); }
    }
    SetGrows(a, b, n, IsBody(lines[n]));
  }

  lemma MarkedLinesStep(lines: seq<string>, n: nat)
    requires n < |lines|
    ensures |MarkedLines(lines, n + 1)| == |MarkedLines(lines, n)| + if IsBody(lines[n]) && CarriesMark(lines[n]) then 1 else 0
  {
    var isIn := IsBody(lines[n]) && CarriesMark(lines[n]);
    forall x ensures x in MarkedLines(lines, n + 1) <==> x in MarkedLines(lines, n) || (x == n && isIn) {
      MarkedWhen(lines, n, x);
      MarkedWhen(lines, n + 1, x);
    }
    SetGrows(MarkedLines(lines, n), MarkedLines(lines, n + 1), n, isIn);
  }

  lemma MarkedWhen(lines: seq<string>, n: nat, x: int)
    requires n <= |lines|
    ensures x in MarkedLines(lines, n) <==> 0 <= x < n && IsBody(lines[x]) && CarriesMark(lines[x])
  {
  }

  lemma CountsStep(lines: seq<string>, n: nat)
    requires n < |lines|
    ensures BodyCount(lines, n + 1) == BodyCount(lines, n) + if IsBody(lines[n]) then 1 else 0
    ensures NumberedCount(lines, n + 1) == NumberedCount(lines, n) + if IsBody(lines[n]) && CarriesMark(lines[n]) then 1 else 0
  {
    BodyIsBody(lines[n]);
    CarriesMarkIff(lines[n]);
  }

  lemma NoneAmongNone(lines: seq<string>)
    ensures |BodyLines(lines, 0)| == 0 == |MarkedLines(lines, 0)| && BodyCount(lines, 0) == 0 == NumberedCount(lines, 0)
  {
    assert BodyLines(lines, 0) == {} && MarkedLines(lines, 0) == {};
  }

  ghost predicate SizesAgree(lines: seq<string>, n: nat)
    requires n <= |lines|
  {
    BodyCount(lines, n) == |BodyLines(lines, n)| && NumberedCount(lines, n) == |MarkedLines(lines, n)|
  }

  lemma SizesStep(lines: seq<string>, n: nat)
    requires n < |lines| && SizesAgree(lines, n)
    ensures SizesAgree(lines, n + 1)
  {
    CountsStep(lines, n);
    BodyLinesStep(lines, n);
    MarkedLinesStep(lines, n);
  }

  lemma {:induction false} CountsAreSizes(lines: seq<string>, n: nat)
    requires n <= |lines|
    ensures SizesAgree(lines, n)
  {
    if n == 0 {
      NoneAmongNone(lines);
    } else {
      CountsAreSizes(lines, n - 1);
      SizesStep(lines, n - 1);
    }
  }

  /** The pass changes a patch exactly when it has body lines and at least six in ten of them carry a mark. */
  lemma CleanedIff(patch: string)
    ensures var lines := Split(patch);
            var body, marked := |BodyLines(lines, |lines|)|, |MarkedLines(lines, |lines|)|;
            StripNumbers(patch) != patch <==> body > 0 && 10 * marked >= 6 * body
  {
    UntouchedIff(patch);
    CountsAreSizes(Split(patch), |Split(patch)|);
  }

  // ---- Text without a fence ----

  predicate AreBreaks(s: string) {
    forall i :: 0 <= i < |s| ==> s[i] == '\r' || s[i] == '\n'
  }

  lemma {:induction false} BreaksGo(text: string, breaks: string)
    requires AreBreaks(breaks) && (text != "" ==> text[|text| - 1] != '\r' && text[|text| - 1] != '\n')
    ensures StripRightOf(text + breaks, "\r\n") == text
  {
    if breaks == "" {
      assert text + breaks == text;
    } else {
      var s := text + breaks;
      assert s[|s| - 1] in "\r\n";
      assert s[..|s| - 1] == text + breaks[..|breaks| - 1];
      BreaksGo(text, breaks[..|breaks| - 1]);
    }
  }

  /** A text without a fence keeps all but its last line breaks, of which one is left. */
  lemma UnfencedTextStays(text: string, breaks: string)
    requires text != "" && text[|text| - 1] != '\r' && text[|text| - 1] != '\n' && AreBreaks(breaks)
    requires !StartsWith(StripLeft(text + breaks), "```")
    ensures StripFences(text + breaks) == text + "\n"
  {
    BreaksGo(text, breaks);
  }
}
