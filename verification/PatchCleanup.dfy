/**
 What is stripped from a patch first: code fences and copied line numbers, `_strip_patch_fences` and
 `_strip_line_number_prefixes` (services/dev_agent/service.py:265-330).
 */
module PatchCleanup {
  import opened Decimal
  import opened Lines
  import opened LineNumbers
  import opened Options
  import opened Seqs
  import opened Text

  // ---- Fences ----

  predicate IsFence(line: string) {
    StartsWith(line, "```")
  }

  function WithBreak(s: string): string {
    if s != "" && !EndsInBreak(s) then s + "\n" else s
  }

  function WithoutFirst(lines: seq<string>): seq<string> {
    if lines != [] && IsFence(StripLeft(lines[0])) then lines[1..] else lines
  }

  function WithoutLast(lines: seq<string>): seq<string> {
    if lines != [] && IsFence(Strip(lines[|lines| - 1])) then lines[..|lines| - 1] else lines
  }

  /** `_strip_patch_fences` */
  function StripFences(raw: string): string {
    if !IsFence(StripLeft(raw)) then WithBreak(StripRightOf(raw, "\r\n"))
    else WithBreak(Strip(Unsplit(WithoutLast(WithoutFirst(Split(raw))))))
  }

  lemma {:induction false} StripRightOfLast(s: string, chars: string)
    ensures var r := StripRightOf(s, chars); r == "" || r[|r| - 1] !in chars
  {
    if s != [] && s[|s| - 1] in chars { StripRightOfLast(s[..|s| - 1], chars); }
  }

  /** The pass leaves nothing, or a text that ends in one line break and not in two. */
  lemma OneBreakAtEnd(raw: string)
    ensures var r := StripFences(raw);
            r == "" || (|r| >= 2 && r[|r| - 1] == '\n' && r[|r| - 2] != '\n')
  {
    if !IsFence(StripLeft(raw)) {
      StripRightOfLast(raw, "\r\n");
      assert "\r\n"[1] == '\n';
      BreakAdded(StripRightOf(raw, "\r\n"));
    } else {
      BreakAdded(Strip(Unsplit(WithoutLast(WithoutFirst(Split(raw))))));
    }
  }

  lemma BreakAdded(s: string)
    requires s == "" || s[|s| - 1] != '\n'
    ensures var r := WithBreak(s); r == "" || (|r| >= 2 && r[|r| - 1] == '\n' && r[|r| - 2] != '\n')
  {
  }

  lemma SplitConcat(a: string, b: string)
    ensures Split(a + ("\n" + b)) == Split(a) + Split(b)
  {
    SplitParts(a);
    SplitParts(b);
    UnsplitConcat(Split(a), Split(b));
    SplitUnsplit(Split(a) + Split(b));
  }

  lemma {:induction false} StripLeftAll(s: string)
    requires AllSpaces(s)
    ensures StripLeft(s) == ""
  {
    if s != "" { StripLeftAll(s[1..]); }
  }

  lemma {:induction false} StripRightSpaces(s: string, sp: string)
    requires AllSpaces(sp) && (s == "" || !IsSpace(s[|s| - 1]))
    ensures StripRight(s + sp) == s
  {
    if sp == "" {
      assert s + sp == s;
    } else {
      assert (s + sp)[..|s + sp| - 1] == s + sp[..|sp| - 1];
      StripRightSpaces(s, sp[..|sp| - 1]);
    }
  }

  /** Text whose ends are no spaces, with spaces after it. */
  lemma StripTail(s: string, sp: string)
    requires s != "" && !IsSpace(s[0]) && !IsSpace(s[|s| - 1]) && AllSpaces(sp)
    ensures Strip(s + sp) == s
  {
    assert (s + sp)[0] == s[0];
    assert StripLeft(s + sp) == s + sp;
    StripRightSpaces(s, sp);
  }

  lemma OpeningDropped(lead: string, info: string, rest: string)
    requires IsLine(lead) && AllSpaces(lead) && IsLine(info)
    ensures var raw := lead + ("```" + info + ("\n" + rest));
            IsFence(StripLeft(raw)) && WithoutFirst(Split(raw)) == Split(rest)
  {
    var open, fence := "```" + info, "```" + info + ("\n" + rest);
    assert open[0] == '`' && fence[0] == '`';
    StripLeftSpaces(lead, open);
    StripLeftSpaces(lead, fence);
    assert "```" <= fence by { assert fence[..3] == "```"; }
    ConcatAssoc(lead, open, "\n" + rest);
    SplitFirst(lead + open, '\n', rest);
    assert ([lead + open] + Split(rest))[1..] == Split(rest);
  }

  lemma {:induction false} FirstPartIsBlank(lead: string, s: string)
    requires AllSpaces(lead) && !IsLine(lead)
    ensures AllSpaces(Split(lead + s)[0])
  {
    assert (lead + s)[1..] == lead[1..] + s;
    if lead[0] != '\n' { FirstPartIsBlank(lead[1..], s); }
  }

  lemma OpeningKept(lead: string, s: string)
    requires AllSpaces(lead) && !IsLine(lead)
    ensures WithoutFirst(Split(lead + s)) == Split(lead + s)
  {
    FirstPartIsBlank(lead, s);
    StripLeftAll(Split(lead + s)[0]);
    assert !IsFence("") by { assert |"```"| == 3; }
  }

  lemma LastBreak(tail: string) returns (before: string, last: string)
    requires !IsLine(tail)
    ensures tail == before + ("\n" + last) && IsLine(last)
  {
    var i := |tail|;
    while tail[i - 1] != '\n'
      invariant 0 < i <= |tail| && IsLine(tail[i..])
      invariant exists k :: 0 <= k < i && tail[k] == '\n'
      decreases i
    {
      i := i - 1;
    }
    before, last := tail[..i - 1], tail[i..];
  }

  lemma StripAround(head: string, s: string, tail: string)
    requires s != "" && !IsSpace(s[0]) && !IsSpace(s[|s| - 1]) && AllSpaces(head) && AllSpaces(tail)
    ensures Strip(head + (s + tail)) == s
  {
    assert (s + tail)[0] == s[0];
    StripLeftSpaces(head, s + tail);
    StripRightSpaces(s, tail);
  }

  /**
   A fenced patch loses its opening fence exactly when no line break precedes it, and its closing
   fence exactly when none follows it; otherwise the fence stays behind as a line of the patch.
   Whitespace at both ends of what is left goes.
   */
  lemma FencesDropped(lead: string, info: string, head: string, patch: string, tail: string)
    requires AllSpaces(lead) && IsLine(info) && AllSpaces(head) && AllSpaces(tail)
    requires patch != "" && !IsSpace(patch[0]) && !IsSpace(patch[|patch| - 1])
    ensures StripFences(lead + ("```" + info + ("\n" + ((head + patch) + ("\n" + ("```" + tail))))))
            == (if IsLine(lead) then patch else "```" + info + ("\n" + (head + patch))) + (if IsLine(tail) then "\n" else "\n```\n")
  {
    var close := "```" + tail;
    if IsLine(lead) {
      OpeningDropped(lead, info, (head + patch) + ("\n" + close));
      LastFence(head, patch, tail);
    } else {
      var body := "```" + info + ("\n" + (head + patch));
      FencedBody(info, head + patch, close);
      OpeningKept(lead, body + ("\n" + close));
      StripLeftSpaces(lead, body + ("\n" + close));
      ConcatAssoc(lead, body, "\n" + close);
      LastFence(lead, body, tail);
    }
  }

  lemma FencedBody(info: string, inner: string, close: string)
    requires inner != ""
    ensures var body, whole := "```" + info + ("\n" + inner), "```" + info + ("\n" + (inner + ("\n" + close)));
            && whole == body + ("\n" + close) && body[0] == '`' == whole[0] && body[|body| - 1] == inner[|inner| - 1]
            && IsFence(whole)
  {
    var open := "```" + info;
    ConcatAssoc("\n", inner, "\n" + close);
    ConcatAssoc(open, "\n" + inner, "\n" + close);
    var whole := open + ("\n" + (inner + ("\n" + close)));
    assert "```" <= whole by { assert whole[..3] == "```"; }
  }

  lemma LastFence(head: string, patch: string, tail: string)
    requires AllSpaces(head) && AllSpaces(tail)
    requires patch != "" && !IsSpace(patch[0]) && !IsSpace(patch[|patch| - 1])
    ensures WithBreak(Strip(Unsplit(WithoutLast(Split((head + patch) + ("\n" + ("```" + tail)))))))
            == patch + if IsLine(tail) then "\n" else "\n```\n"
  {
    SplitConcat(head + patch, "```" + tail);
    if IsLine(tail) {
      ClosingDropped(head, patch, tail);
    } else {
      ClosingKept(head, patch, tail);
    }
  }

  lemma ClosingDropped(head: string, patch: string, tail: string)
    requires IsLine(tail) && AllSpaces(head) && AllSpaces(tail)
    requires patch != "" && !IsSpace(patch[0]) && !IsSpace(patch[|patch| - 1])
    ensures WithBreak(Strip(Unsplit(WithoutLast(Split(head + patch) + Split("```" + tail))))) == patch + "\n"
  {
    var close := "```" + tail;
    SplitLine(close);
    StripTail("```", tail);
    LastIsFence(Split(head + patch), close);
    SplitParts(head + patch);
    StripAround(head, patch, "");
    assert patch + "" == patch;
  }

  lemma LastIsFence(lines: seq<string>, close: string)
    requires IsFence(Strip(close))
    ensures WithoutLast(lines + [close]) == lines
  {
    assert (lines + [close])[..|lines|] == lines;
  }

  lemma ClosingKept(head: string, patch: string, tail: string)
    requires !IsLine(tail) && AllSpaces(head) && AllSpaces(tail)
    requires patch != "" && !IsSpace(patch[0]) && !IsSpace(patch[|patch| - 1])
    ensures WithBreak(Strip(Unsplit(WithoutLast(Split(head + patch) + Split("```" + tail))))) == patch + "\n```\n"
  {
    var close := "```" + tail;
    LastPartIsBlank(tail);
    BlankIsNoFence(Split(head + patch), Split(close));
    SplitConcat(head + patch, close);
    SplitParts((head + patch) + ("\n" + close));
    assert (head + patch) + ("\n" + close) == head + ((patch + "\n```") + tail);
    StripAround(head, patch + "\n```", tail);
  }

  lemma LastPartIsBlank(tail: string)
    requires !IsLine(tail) && AllSpaces(tail)
    ensures var parts := Split("```" + tail); Strip(parts[|parts| - 1]) == ""
  {
    var before, last := LastBreak(tail);
    ConcatAssoc("```", before, "\n" + last);
    SplitConcat("```" + before, last);
    SplitLine(last);
    assert AllSpaces(last) by { forall i | 0 <= i < |last| ensures IsSpace(last[i]) { assert tail[|before| + 1 + i] == last[i]; } }
    StripLeftAll(last);
  }

  lemma BlankIsNoFence(a: seq<string>, b: seq<string>)
    requires b != [] && Strip(b[|b| - 1]) == ""
    ensures WithoutLast(a + b) == a + b
  {
    assert !IsFence("") by { assert |"```"| == 3; }
  }

  // ---- Copied line numbers ----

  /** A line the pass never touches: it looks like part of a header. */
  predicate IsHeading(line: string) {
    || StartsWith(line, "diff ") || StartsWith(line, "--- ") || StartsWith(line, "+++ ")
    || StartsWith(line, "@@") || StartsWith(line, "\\")
  }

  predicate IsSign(c: char) {
    c == '+' || c == ' ' || c == '-'
  }

  /** `line_num_re`: the diff marker, a blank when there is none, and the content; no match gives nothing. */
  function Unnumbered(line: string): Option<string> {
    if line != "" && IsSign(line[0]) then
      var rest := LabelRest(line[1..]);
      if rest.Some? then Some([line[0]] + rest.value) else None
    else
      var rest := LabelRest(line);
      if rest.Some? then Some([' '] + rest.value) else None
  }

  /** How many of the first `n` lines are body lines, and how many of these carry a number. */
  function BodyCount(lines: seq<string>, n: nat): nat
    requires n <= |lines|
  {
    if n == 0 then 0
    else BodyCount(lines, n - 1) + if lines[n - 1] != "" && !IsHeading(lines[n - 1]) then 1 else 0
  }

  function NumberedCount(lines: seq<string>, n: nat): (r: nat)
    requires n <= |lines|
    ensures r <= BodyCount(lines, n)
  {
    if n == 0 then 0
    else
      var line := lines[n - 1];
      NumberedCount(lines, n - 1) + if line != "" && !IsHeading(line) && Unnumbered(line).Some? then 1 else 0
  }

  /** At least six in ten body lines carry a number. */
  predicate IsContaminated(lines: seq<string>) {
    var body := BodyCount(lines, |lines|);
    body > 0 && 10 * NumberedCount(lines, |lines|) >= 6 * body
  }

  function CleanLine(line: string): string {
    if IsHeading(line) || Unnumbered(line).None? then line else Unnumbered(line).value
  }

  function Cleaned(lines: seq<string>, n: nat): (r: seq<string>)
    requires n <= |lines|
    ensures |r| == n
  {
    if n == 0 then [] else Cleaned(lines, n - 1) + [CleanLine(lines[n - 1])]
  }

  /** `_strip_line_number_prefixes` */
  function StripNumbers(patch: string): string {
    var lines := Split(patch);
    if IsContaminated(lines) then Unsplit(Cleaned(lines, |lines|)) else patch
  }

  method StripLineNumberPrefixes(patch: string) returns (r: string)
    ensures r == StripNumbers(patch)
  {
    var lines := Split(patch);
    var body, matches := 0, 0;
    for i := 0 to |lines|
      invariant body == BodyCount(lines, i) && matches == NumberedCount(lines, i)
    {
      if lines[i] != "" && !IsHeading(lines[i]) {
        body := body + 1;
        if Unnumbered(lines[i]).Some? {
          matches := matches + 1;
        }
      }
    }
    if body == 0 || 10 * matches < 6 * body {
      return patch;
    }
    var result: seq<string> := [];
    for i := 0 to |lines|
      invariant result == Cleaned(lines, i)
    {
      result := result + [CleanLine(lines[i])];
    }
    r := Unsplit(result);
  }

  lemma {:induction false} StripLeftIsLine(s: string)
    requires IsLine(s)
    ensures IsLine(StripLeft(s))
  {
    if s != [] && IsSpace(s[0]) { StripLeftIsLine(s[1..]); }
  }

  lemma LabelRestIsLine(s: string)
    requires IsLine(s) && LabelRest(s).Some?
    ensures IsLine(LabelRest(s).value)
  {
    StripLeftIsLine(s);
    var a := StripLeft(s);
    StripLeftIsLine(a[|Digits(a)|..]);
  }

  lemma CleanLineFacts(line: string)
    requires IsLine(line)
    ensures IsLine(CleanLine(line))
    ensures !IsHeading(line) && Unnumbered(line).Some? ==> |CleanLine(line)| < |line|
  {
    var tail := if line != "" && IsSign(line[0]) then line[1..] else line;
    if LabelRest(tail).Some? {
      LabelLength(tail);
      LabelRestIsLine(tail);
    }
  }

  lemma {:induction false} CleanedAt(lines: seq<string>, n: nat, k: nat)
    requires k < n <= |lines|
    ensures Cleaned(lines, n)[k] == CleanLine(lines[k])
  {
    if k < n - 1 { CleanedAt(lines, n - 1, k); }
  }

  lemma {:induction false} SomeNumbered(lines: seq<string>, n: nat) returns (k: nat)
    requires n <= |lines| && NumberedCount(lines, n) > 0
    ensures k < n && !IsHeading(lines[k]) && Unnumbered(lines[k]).Some?
  {
    var line := lines[n - 1];
    if line != "" && !IsHeading(line) && Unnumbered(line).Some? {
      k := n - 1;
    } else {
      k := SomeNumbered(lines, n - 1);
    }
  }

  lemma {:induction false} CleanedAreLines(lines: seq<string>, n: nat)
    requires n <= |lines| && AreLines(lines)
    ensures AreLines(Cleaned(lines, n))
  {
    if n > 0 {
      CleanedAreLines(lines, n - 1);
      CleanLineFacts(lines[n - 1]);
    }
  }

  /** The pass leaves a patch alone exactly when fewer than six in ten body lines look numbered. */
  lemma UntouchedIff(patch: string)
    ensures StripNumbers(patch) == patch <==> !IsContaminated(Split(patch))
  {
    var lines := Split(patch);
    SplitParts(patch);
    if IsContaminated(lines) {
      var cleaned := Cleaned(lines, |lines|);
      CleanedAreLines(lines, |lines|);
      SplitUnsplit(cleaned);
      var k := SomeNumbered(lines, |lines|);
      CleanedAt(lines, |lines|, k);
      CleanLineFacts(lines[k]);
    }
  }

  /** A body line copied with its number: the label stands between the diff marker and the content. */
  function NumberLine(line: string, number: Option<nat>): string {
    if number.Some? && line != "" then [line[0]] + (Label(number.value) + line[1..]) else line
  }

  function NumberLines(lines: seq<string>, numbers: seq<Option<nat>>, n: nat): (r: seq<string>)
    requires n <= |lines| == |numbers|
    ensures |r| == n
  {
    if n == 0 then [] else NumberLines(lines, numbers, n - 1) + [NumberLine(lines[n - 1], numbers[n - 1])]
  }

  function Labelled(numbers: seq<Option<nat>>, n: nat): nat
    requires n <= |numbers|
  {
    if n == 0 then 0 else Labelled(numbers, n - 1) + if numbers[n - 1].Some? then 1 else 0
  }

  /** Numbers go on lines with a diff marker; the others do not look numbered. */
  ghost predicate MayBeNumbered(line: string, number: Option<nat>) {
    if number.Some? then line != "" && IsSign(line[0]) && !IsHeading(line) else IsHeading(line) || Unnumbered(line).None?
  }

  lemma LabelBegins(n: nat, rest: string)
    ensures var s := Label(n) + rest; s != "" && (s[0] == ' ' || '0' <= s[0] <= '9')
  {
    var d := Print(n);
    LabelParts(n, rest);
    assert IsDigit(d[0]);
  }

  lemma NumberedIsNoHeading(line: string, number: nat)
    requires line != "" && IsSign(line[0])
    ensures !IsHeading(NumberLine(line, Some(number)))
  {
    var s := NumberLine(line, Some(number));
    LabelBegins(number, line[1..]);
    assert s[0] == line[0] && s[1] == (Label(number) + line[1..])[0];
    assert "diff "[0] == 'd' && "--- "[1] == '-' && "+++ "[1] == '+' && "@@"[0] == '@' && "\\"[0] == '\\';
  }

  lemma NumberedLineFacts(line: string, number: Option<nat>)
    requires MayBeNumbered(line, number)
    ensures var s := NumberLine(line, number);
            && CleanLine(s) == line
            && ((s != "" && !IsHeading(s)) <==> (line != "" && !IsHeading(line)))
            && (number.Some? ==> s != "" && !IsHeading(s) && Unnumbered(s).Some?)
            && (number.None? ==> s == line)
  {
    if number.Some? {
      var s := NumberLine(line, number);
      NumberedIsNoHeading(line, number.value);
      assert s[0] == line[0] && s[1..] == Label(number.value) + line[1..];
      LabelTakenOff(number.value, line[1..]);
      assert line == [line[0]] + line[1..];
    }
  }

  ghost predicate AllMayBeNumbered(lines: seq<string>, numbers: seq<Option<nat>>, n: nat)
    requires n <= |lines| == |numbers|
  {
    n == 0 || (AllMayBeNumbered(lines, numbers, n - 1) && MayBeNumbered(lines[n - 1], numbers[n - 1]))
  }

  lemma {:induction false} EachMayBeNumbered(lines: seq<string>, numbers: seq<Option<nat>>, n: nat)
    requires n <= |lines| == |numbers|
    requires forall i :: 0 <= i < |lines| ==> MayBeNumbered(lines[i], numbers[i])
    ensures AllMayBeNumbered(lines, numbers, n)
  {
    if n > 0 { EachMayBeNumbered(lines, numbers, n - 1); }
  }

  lemma NumberedCountsStep(s: seq<string>, lines: seq<string>, numbers: seq<Option<nat>>, n: nat)
    requires 0 < n <= |lines| == |numbers| == |s| && s[n - 1] == NumberLine(lines[n - 1], numbers[n - 1])
    requires MayBeNumbered(lines[n - 1], numbers[n - 1])
    requires BodyCount(s, n - 1) == BodyCount(lines, n - 1) && NumberedCount(s, n - 1) >= Labelled(numbers, n - 1)
    ensures BodyCount(s, n) == BodyCount(lines, n)
    ensures NumberedCount(s, n) >= Labelled(numbers, n)
  {
    NumberedLineFacts(lines[n - 1], numbers[n - 1]);
  }

  lemma CleanedStep(s: seq<string>, lines: seq<string>, n: nat)
    requires 0 < n <= |lines| == |s| && CleanLine(s[n - 1]) == lines[n - 1] && Cleaned(s, n - 1) == lines[..n - 1]
    ensures Cleaned(s, n) == lines[..n]
  {
    assert lines[..n] == lines[..n - 1] + [lines[n - 1]];
  }

  lemma {:induction false} NumberedFacts(lines: seq<string>, numbers: seq<Option<nat>>, n: nat)
    requires n <= |lines| == |numbers| && AllMayBeNumbered(lines, numbers, n)
    ensures var s := NumberLines(lines, numbers, |lines|);
            && BodyCount(s, n) == BodyCount(lines, n)
            && NumberedCount(s, n) >= Labelled(numbers, n)
            && Cleaned(s, n) == lines[..n]
  {
    if n > 0 {
      NumberedFacts(lines, numbers, n - 1);
      NumberLineAt(lines, numbers, |lines|, n - 1);
      NumberedCountsStep(NumberLines(lines, numbers, |lines|), lines, numbers, n);
      NumberedLineFacts(lines[n - 1], numbers[n - 1]);
      CleanedStep(NumberLines(lines, numbers, |lines|), lines, n);
    }
  }

  lemma {:induction false} NumberLineAt(lines: seq<string>, numbers: seq<Option<nat>>, n: nat, k: nat)
    requires k < n <= |lines| == |numbers|
    ensures NumberLines(lines, numbers, n)[k] == NumberLine(lines[k], numbers[k])
  {
    if k < n - 1 { NumberLineAt(lines, numbers, n - 1, k); }
  }

  lemma PrintHasNoBreak(n: nat)
    ensures IsLine(Label(n))
  {
    var d := Print(n);
    forall i | 0 <= i < |d| ensures d[i] != '\n' { assert IsDigit(d[i]); }
    SpacesAreLine(if |d| < 6 then 6 - |d| else 0);
  }

  lemma {:induction false} SpacesAreLine(n: nat)
    ensures IsLine(Spaces(n))
  {
    if n > 0 { SpacesAreLine(n - 1); }
  }

  lemma {:induction false} NumberedAreLines(lines: seq<string>, numbers: seq<Option<nat>>, n: nat)
    requires n <= |lines| == |numbers| && AreLines(lines)
    ensures AreLines(NumberLines(lines, numbers, n))
  {
    if n > 0 {
      NumberedAreLines(lines, numbers, n - 1);
      if numbers[n - 1].Some? { PrintHasNoBreak(numbers[n - 1].value); }
    }
  }

  /** Six in ten body lines copied with the numbers of a file listing: the pass gives the patch without them. */
  lemma StripUndoesNumbering(lines: seq<string>, numbers: seq<Option<nat>>)
    requires lines != [] && |lines| == |numbers| && AreLines(lines)
    requires forall i :: 0 <= i < |lines| ==> MayBeNumbered(lines[i], numbers[i])
    requires 10 * Labelled(numbers, |lines|) >= 6 * BodyCount(lines, |lines|)
    ensures StripNumbers(Unsplit(NumberLines(lines, numbers, |lines|))) == Unsplit(lines)
  {
    var n := |lines|;
    var s := NumberLines(lines, numbers, n);
    EachMayBeNumbered(lines, numbers, n);
    NumberedFacts(lines, numbers, n);
    NumberedAreLines(lines, numbers, n);
    SplitUnsplit(s);
    assert lines[..n] == lines;
    if BodyCount(lines, n) == 0 {
      NoneLabelled(lines, numbers, n);
    }
  }

  lemma {:induction false} NoneLabelled(lines: seq<string>, numbers: seq<Option<nat>>, n: nat)
    requires n <= |lines| == |numbers| && BodyCount(lines, n) == 0 && AllMayBeNumbered(lines, numbers, n)
    ensures NumberLines(lines, numbers, n) == lines[..n]
  {
    if n > 0 {
      NoneLabelled(lines, numbers, n - 1);
      assert lines[..n] == lines[..n - 1] + [lines[n - 1]];
    }
  }
}
