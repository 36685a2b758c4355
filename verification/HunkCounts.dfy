/** Hunk headers and their line counts: `_repair_hunk_counts` (services/dev_agent/service.py:510-563). */
module HunkCounts {
  import opened Decimal
  import opened Lines
  import opened Options
  import opened Text

  /** A line number with its optional count; a missing count means one line. */
  datatype Span = Span(start: nat, count: Option<nat>)

  datatype HunkHeader = HunkHeader(oldSpan: Span, newSpan: Span, trailing: string)

  // ---- Header lines ----

  /** A pattern is made of literal texts and of spans, `(\d+)(?:,(\d+))?`; `Rest` is `(.*)$`. */
  datatype Pattern = Literal(text: string, next: Pattern) | SpanThen(next: Pattern) | Rest

  /** `hunk_re` */
  const HUNK_PATTERN: Pattern := Literal("@@ -", SpanThen(Literal(" +", SpanThen(Literal(" @@", Rest)))))

  datatype Captures = Captures(spans: seq<Span>, rest: string)

  datatype SpanMatch = SpanMatch(span: Span, rest: string)

  function MatchSpan(s: string): (r: Option<SpanMatch>)
  {
    var d := Digits(s);
    if d == "" then None
    else
      var rest := s[|d|..];
      if rest != "" && rest[0] == ',' && Digits(rest[1..]) != "" then
        var c := Digits(rest[1..]);
        Some(SpanMatch(Span(Read(d), Some(Read(c))), rest[1 + |c|..]))
      else Some(SpanMatch(Span(Read(d), None), rest))
  }

  /** The one way the pattern matches the text. */
  function Match(s: string, pattern: Pattern): (r: Option<Captures>)
    decreases pattern
  {
    match pattern
    case Rest => Some(Captures([], s))
    case Literal(t, next) => if StartsWith(s, t) then Match(s[|t|..], next) else None
    case SpanThen(next) =>
      var m := MatchSpan(s);
      if m.None? then None
      else
        var r := Match(m.value.rest, next);
        if r.None? then None else Some(Captures([m.value.span] + r.value.spans, r.value.rest))
  }

  function ParseHeader(line: string): Option<HunkHeader> {
    var m := Match(line, HUNK_PATTERN);
    if m.Some? && |m.value.spans| == 2 then Some(HunkHeader(m.value.spans[0], m.value.spans[1], m.value.rest)) else None
  }

  /** The pattern with its spans filled in, each with a count. */
  function Fill(pattern: Pattern, spans: seq<(nat, nat)>, rest: string): string
    decreases pattern
  {
    match pattern
    case Rest => rest
    case Literal(t, next) => t + Fill(next, spans, rest)
    case SpanThen(next) =>
      if spans == [] then ""
      else Print(spans[0].0) + ("," + (Print(spans[0].1) + Fill(next, spans[1..], rest)))
  }

  /** `@@ -oldStart,oldCount +newStart,newCount @@trailing` */
  function FormatHeader(oldStart: nat, oldCount: nat, newStart: nat, newCount: nat, trailing: string): string {
    Fill(HUNK_PATTERN, [(oldStart, oldCount), (newStart, newCount)], trailing)
  }

  lemma MatchSpanDigits(d: string, c: string, rest: string)
    requires AllDigits(d) && AllDigits(c) && d != "" && c != "" && rest != "" && !IsDigit(rest[0])
    ensures MatchSpan(d + ("," + (c + rest))) == Some(SpanMatch(Span(Read(d), Some(Read(c))), rest))
  {
    var tail := "," + (c + rest);
    DigitsOf(d, tail);
    assert (d + tail)[|d|..] == tail;
    assert tail[1..] == c + rest;
    DigitsOf(c, rest);
    assert tail[1 + |c|..] == rest;
  }

  lemma MatchSpanOf(start: nat, count: nat, rest: string)
    requires rest != "" && !IsDigit(rest[0])
    ensures MatchSpan(Print(start) + ("," + (Print(count) + rest))) == Some(SpanMatch(Span(start, Some(count)), rest))
  {
    ReadPrint(start);
    ReadPrint(count);
    MatchSpanDigits(Print(start), Print(count), rest);
  }

  /** A pattern with `n` spans, each before a literal that begins with no digit. */
  predicate Separated(pattern: Pattern, n: nat) {
    match pattern
    case Rest => n == 0
    case Literal(_, next) => Separated(next, n)
    case SpanThen(next) => n > 0 && next.Literal? && next.text != "" && !IsDigit(next.text[0]) && Separated(next, n - 1)
  }

  function Counted(spans: seq<(nat, nat)>): (r: seq<Span>)
    ensures |r| == |spans| && forall i :: 0 <= i < |r| ==> r[i] == Span(spans[i].0, Some(spans[i].1))
  {
    seq(|spans|, i requires 0 <= i < |spans| => Span(spans[i].0, Some(spans[i].1)))
  }

  lemma MatchLiteral(t: string, rest: string, next: Pattern)
    ensures Match(t + rest, Literal(t, next)) == Match(rest, next)
  {
    assert (t + rest)[|t|..] == rest;
  }

  lemma MatchCounted(start: nat, count: nat, rest: string, next: Pattern, c: Captures)
    requires rest != "" && !IsDigit(rest[0]) && Match(rest, next) == Some(c)
    ensures Match(Print(start) + ("," + (Print(count) + rest)), SpanThen(next))
            == Some(Captures([Span(start, Some(count))] + c.spans, c.rest))
  {
    MatchSpanOf(start, count, rest);
  }

  lemma CountedFirst(spans: seq<(nat, nat)>)
    requires spans != []
    ensures Counted(spans) == [Span(spans[0].0, Some(spans[0].1))] + Counted(spans[1..])
  {
  }

  lemma FillBegins(pattern: Pattern, spans: seq<(nat, nat)>, rest: string)
    requires pattern.Literal? && pattern.text != "" && !IsDigit(pattern.text[0])
    ensures var s := Fill(pattern, spans, rest); s != "" && !IsDigit(s[0])
  {
  }

  lemma FillSpan(next: Pattern, spans: seq<(nat, nat)>, rest: string)
    requires spans != []
    ensures Fill(SpanThen(next), spans, rest) == Print(spans[0].0) + ("," + (Print(spans[0].1) + Fill(next, spans[1..], rest)))
  {
  }

  /** A pattern reads back what it was filled with. */
  lemma {:induction false} MatchFill(pattern: Pattern, spans: seq<(nat, nat)>, rest: string)
    requires Separated(pattern, |spans|)
    ensures Match(Fill(pattern, spans, rest), pattern) == Some(Captures(Counted(spans), rest))
  {
    match pattern
    case Rest => assert Counted(spans) == [];
    case Literal(t, next) =>
      MatchFill(next, spans, rest);
      MatchLiteral(t, Fill(next, spans, rest), next);
    case SpanThen(next) =>
      MatchFill(next, spans[1..], rest);
      FillBegins(next, spans[1..], rest);
      MatchCounted(spans[0].0, spans[0].1, Fill(next, spans[1..], rest), next, Captures(Counted(spans[1..]), rest));
      FillSpan(next, spans, rest);
      CountedFirst(spans);
  }

  lemma PatternIsSeparated()
    ensures Separated(HUNK_PATTERN, 2)
  {
    var last := Literal(" @@", Rest);
    assert Separated(SpanThen(last), 1);
    assert Separated(Literal(" +", SpanThen(last)), 1);
    assert Separated(SpanThen(Literal(" +", SpanThen(last))), 2);
  }

  /** The header pattern reads back what the repair writes. */
  lemma ParseFormat(oldStart: nat, oldCount: nat, newStart: nat, newCount: nat, trailing: string)
    ensures ParseHeader(FormatHeader(oldStart, oldCount, newStart, newCount, trailing))
            == Some(HunkHeader(Span(oldStart, Some(oldCount)), Span(newStart, Some(newCount)), trailing))
  {
    PatternIsSeparated();
    MatchFill(HUNK_PATTERN, [(oldStart, oldCount), (newStart, newCount)], trailing);
  }

  // ---- Lines and hunk bodies ----

  predicate StopsBody(line: string) {
    StartsWith(line, "@@") || StartsWith(line, "diff ") || StartsWith(line, "--- ") || StartsWith(line, "+++ ")
  }

  /** What the pass sees of a line: its hunk header, whether it stops a body, how many old and new lines it stands for. */
  datatype LineClass = LineClass(header: Option<HunkHeader>, stops: bool, old_: nat, new_: nat)

  function ClassOf(line: string): LineClass {
    LineClass(ParseHeader(line), StopsBody(line),
              if StartsWith(line, "+") || StartsWith(line, "\\") then 0 else 1,
              if StartsWith(line, "-") || StartsWith(line, "\\") then 0 else 1)
  }

  function Classes(lines: seq<string>): (cs: seq<LineClass>)
    ensures |cs| == |lines|
  {
    if lines == [] then [] else Classes(lines[..|lines| - 1]) + [ClassOf(lines[|lines| - 1])]
  }

  lemma {:induction false} ClassAt(lines: seq<string>, k: nat)
    requires k < |lines|
    ensures Classes(lines)[k] == ClassOf(lines[k])
  {
    if k < |lines| - 1 { ClassAt(lines[..|lines| - 1], k); }
  }

  lemma HeaderAt(lines: seq<string>, k: nat)
    requires k < |lines|
    ensures Classes(lines)[k].header == ParseHeader(lines[k])
  {
    ClassAt(lines, k);
  }

  lemma StopsAt(lines: seq<string>, k: nat)
    requires k < |lines|
    ensures Classes(lines)[k].stops == StopsBody(lines[k])
  {
    ClassAt(lines, k);
  }

  /** Where the body that begins at `j` ends: at the first line that stops it, or with the text. */
  function BodyEnd(cs: seq<LineClass>, j: nat): (end: nat)
    requires j <= |cs|
    ensures j <= end <= |cs|
    ensures forall k :: j <= k < end ==> !cs[k].stops
    ensures end < |cs| ==> cs[end].stops
    decreases |cs| - j
  {
    if j == |cs| || cs[j].stops then j else BodyEnd(cs, j + 1)
  }

  function OldCount(cs: seq<LineClass>, j: nat, end: nat): nat
    requires j <= end <= |cs|
  {
    if j == end then 0 else OldCount(cs, j, end - 1) + cs[end - 1].old_
  }

  function NewCount(cs: seq<LineClass>, j: nat, end: nat): nat
    requires j <= end <= |cs|
  {
    if j == end then 0 else NewCount(cs, j, end - 1) + cs[end - 1].new_
  }

  // ---- The repair ----

  /** A hunk header gets the counts of the body that follows it; every other line stays. */
  function RepairedLine(line: string, cs: seq<LineClass>, k: nat): string
    requires k < |cs|
  {
    if cs[k].header.None? then line
    else
      var h, end := cs[k].header.value, BodyEnd(cs, k + 1);
      FormatHeader(h.oldSpan.start, OldCount(cs, k + 1, end), h.newSpan.start, NewCount(cs, k + 1, end), h.trailing)
  }

  function RepairedUpTo(lines: seq<string>, n: nat): (r: seq<string>)
    requires n <= |lines|
    ensures |r| == n
  {
    if n == 0 then [] else RepairedUpTo(lines, n - 1) + [RepairedLine(lines[n - 1], Classes(lines), n - 1)]
  }

  function Repaired(lines: seq<string>): (r: seq<string>)
    ensures |r| == |lines|
  {
    RepairedUpTo(lines, |lines|)
  }

  lemma {:induction false} PrefixAt(lines: seq<string>, n: nat, k: nat)
    requires k < n <= |lines|
    ensures RepairedUpTo(lines, n)[k] == RepairedUpTo(lines, k + 1)[k]
  {
    if k < n - 1 { PrefixAt(lines, n - 1, k); }
  }

  lemma RepairedAt(lines: seq<string>, k: nat)
    requires k < |lines|
    ensures Repaired(lines)[k] == RepairedLine(lines[k], Classes(lines), k)
  {
    PrefixAt(lines, |lines|, k);
  }

  /** `_repair_hunk_counts` */
  function RepairCounts(patch: string): string {
    Unsplit(Repaired(Split(patch)))
  }

  lemma HeaderStops(line: string)
    requires ParseHeader(line).Some?
    ensures StopsBody(line) && StartsWith(line, "@@")
  {
    assert HUNK_PATTERN.text == "@@ -";
    assert "@@" <= "@@ -" <= line;
  }

  lemma HeadersStop(lines: seq<string>)
    ensures var cs := Classes(lines); forall k :: 0 <= k < |cs| && cs[k].header.Some? ==> cs[k].stops
  {
    forall k | 0 <= k < |lines| && Classes(lines)[k].header.Some? ensures Classes(lines)[k].stops {
      ClassAt(lines, k);
      HeaderStops(lines[k]);
    }
  }

  lemma BodyStays(lines: seq<string>, j: nat)
    requires j <= |lines|
    ensures forall k :: j <= k < BodyEnd(Classes(lines), j) ==> Classes(lines)[k].header.None?
  {
    HeadersStop(lines);
  }

  method RepairHunkCounts(patch: string) returns (r: string)
    ensures r == RepairCounts(patch)
  {
    var lines := Split(patch);
    var result: seq<string> := [];
    var i := 0;
    while i < |lines|
      invariant i <= |lines|
      invariant result == RepairedUpTo(lines, i)
    {
      var m := HunkRe(lines, i);
      if m.None? {
        result := result + [lines[i]];
        i := i + 1;
      } else {
        var header, j := Recount(lines, i, m.value);
        result := CopyBody(lines, i + 1, j, result + [header]);
        i := j;
      }
    }
    r := Unsplit(result);
  }

  method Recount(lines: seq<string>, i: nat, h: HunkHeader) returns (header: string, j: nat)
    requires i < |lines| && Classes(lines)[i].header == Some(h)
    ensures j == BodyEnd(Classes(lines), i + 1) && header == RepairedLine(lines[i], Classes(lines), i)
  {
    var oldCount, newCount;
    j, oldCount, newCount := CountBody(lines, i + 1);
    header := FormatHeader(h.oldSpan.start, oldCount, h.newSpan.start, newCount, h.trailing);
  }

  method CopyBody(lines: seq<string>, start: nat, end: nat, before: seq<string>) returns (result: seq<string>)
    requires start <= |lines| && end == BodyEnd(Classes(lines), start) && before == RepairedUpTo(lines, start)
    ensures result == RepairedUpTo(lines, end)
  {
    BodyStays(lines, start);
    result := before;
    for k := start to end
      invariant result == RepairedUpTo(lines, k)
    {
      result := result + [lines[k]];
    }
  }

  method HunkRe(lines: seq<string>, i: nat) returns (m: Option<HunkHeader>)
    requires i < |lines|
    ensures m == Classes(lines)[i].header
  {
    ClassAt(lines, i);
    m := ParseHeader(lines[i]);
  }

  /** The inner loop: the end of the body and its counts. */
  method CountBody(lines: seq<string>, start: nat) returns (j: nat, oldCount: nat, newCount: nat)
    requires start <= |lines|
    ensures var cs := Classes(lines);
            j == BodyEnd(cs, start) && oldCount == OldCount(cs, start, j) && newCount == NewCount(cs, start, j)
  {
    ghost var cs := Classes(lines);
    j, oldCount, newCount := start, 0, 0;
    while j < |lines|
      invariant start <= j <= |lines| && BodyEnd(cs, j) == BodyEnd(cs, start)
      invariant oldCount == OldCount(cs, start, j) && newCount == NewCount(cs, start, j)
    {
      var stops, o, n := CountLine(lines, j);
      if stops {
        break;
      }
      oldCount, newCount := oldCount + o, newCount + n;
      j := j + 1;
    }
  }

  lemma OneSign(line: string)
    ensures StartsWith(line, "-") <==> line != "" && line[0] == '-'
    ensures StartsWith(line, "+") <==> line != "" && line[0] == '+'
    ensures StartsWith(line, "\\") <==> line != "" && line[0] == '\\'
  {
  }

  method CountLine(lines: seq<string>, j: nat) returns (stops: bool, o: nat, n: nat)
    requires j < |lines|
    ensures var c := Classes(lines)[j]; stops == c.stops && o == c.old_ && n == c.new_
  {
    ClassAt(lines, j);
    var ln := lines[j];
    OneSign(ln);
    stops := StopsBody(ln);
    if StartsWith(ln, "-") {
      o, n := 1, 0;
    } else if StartsWith(ln, "+") {
      o, n := 0, 1;
    } else if StartsWith(ln, " ") || ln == "" {
      o, n := 1, 1;
    } else if StartsWith(ln, "\\") {
      o, n := 0, 0;
    } else {
      o, n := 1, 1;
    }
  }

  // ---- Idempotence ----

  lemma FormatClass(oldStart: nat, oldCount: nat, newStart: nat, newCount: nat, trailing: string)
    ensures var c := ClassOf(FormatHeader(oldStart, oldCount, newStart, newCount, trailing));
            c.stops && c.header == Some(HunkHeader(Span(oldStart, Some(oldCount)), Span(newStart, Some(newCount)), trailing))
  {
    ParseFormat(oldStart, oldCount, newStart, newCount, trailing);
    HeaderStops(FormatHeader(oldStart, oldCount, newStart, newCount, trailing));
  }

  /** The classes agree as far as bodies and their counts go. */
  ghost predicate SameBodies(a: seq<LineClass>, b: seq<LineClass>) {
    && |a| == |b|
    && forall k :: 0 <= k < |a| ==> a[k] == b[k] || (a[k].stops && b[k].stops)
  }

  lemma {:induction false} SameEnd(a: seq<LineClass>, b: seq<LineClass>, j: nat)
    requires SameBodies(a, b) && j <= |a|
    ensures BodyEnd(a, j) == BodyEnd(b, j)
    decreases |a| - j
  {
    if j < |a| && !a[j].stops { SameEnd(a, b, j + 1); }
  }

  lemma {:induction false} SameCounts(a: seq<LineClass>, b: seq<LineClass>, j: nat, end: nat)
    requires SameBodies(a, b) && j <= end <= |a|
    requires forall k :: j <= k < end ==> !a[k].stops
    ensures OldCount(a, j, end) == OldCount(b, j, end) && NewCount(a, j, end) == NewCount(b, j, end)
  {
    if j < end { SameCounts(a, b, j, end - 1); }
  }

  /** A repaired line: unchanged, or a header that stops bodies, with the starts and the trailing text it had. */
  lemma RepairedClass(lines: seq<string>, k: nat)
    requires k < |lines|
    ensures var cs, cs' := Classes(lines), Classes(Repaired(lines));
            if cs[k].header.None? then cs'[k] == cs[k]
            else
              && cs[k].stops && cs'[k].stops && cs'[k].header.Some?
              && cs'[k].header.value.oldSpan.start == cs[k].header.value.oldSpan.start
              && cs'[k].header.value.newSpan.start == cs[k].header.value.newSpan.start
              && cs'[k].header.value.trailing == cs[k].header.value.trailing
  {
    var cs := Classes(lines);
    ClassAt(lines, k);
    ClassAt(Repaired(lines), k);
    RepairedAt(lines, k);
    HeadersStop(lines);
    if cs[k].header.Some? {
      var h, end := cs[k].header.value, BodyEnd(cs, k + 1);
      FormatClass(h.oldSpan.start, OldCount(cs, k + 1, end), h.newSpan.start, NewCount(cs, k + 1, end), h.trailing);
    }
  }

  lemma RepairedSameBodies(lines: seq<string>)
    ensures SameBodies(Classes(lines), Classes(Repaired(lines)))
  {
    var a, b := Classes(lines), Classes(Repaired(lines));
    forall k | 0 <= k < |a| ensures a[k] == b[k] || (a[k].stops && b[k].stops) {
      RepairedClass(lines, k);
    }
  }

  lemma RepairedLineTwice(lines: seq<string>, k: nat)
    requires k < |lines|
    ensures Repaired(Repaired(lines))[k] == Repaired(lines)[k]
  {
    var a, b := Classes(lines), Classes(Repaired(lines));
    RepairedClass(lines, k);
    RepairedAt(lines, k);
    RepairedAt(Repaired(lines), k);
    if a[k].header.Some? {
      RepairedSameBodies(lines);
      SameEnd(a, b, k + 1);
      SameCounts(a, b, k + 1, BodyEnd(a, k + 1));
    }
  }

  /** The repair keeps the number of lines and every line that is no hunk header, and repairing again changes nothing. */
  lemma RepairIsIdempotent(lines: seq<string>)
    ensures Repaired(Repaired(lines)) == Repaired(lines) && |Repaired(lines)| == |lines|
    ensures forall k :: 0 <= k < |lines| && ParseHeader(lines[k]).None? ==> Repaired(lines)[k] == lines[k]
  {
    forall k | 0 <= k < |lines| ensures Repaired(Repaired(lines))[k] == Repaired(lines)[k] {
      RepairedLineTwice(lines, k);
    }
    forall k | 0 <= k < |lines| && ParseHeader(lines[k]).None? ensures Repaired(lines)[k] == lines[k] {
      HeaderAt(lines, k);
      RepairedAt(lines, k);
    }
  }

  lemma PrintIsLine(n: nat)
    ensures IsLine(Print(n))
  {
    var s := Print(n);
    forall i | 0 <= i < |s| ensures s[i] != '\n' { assert IsDigit(s[i]); }
  }

  predicate LiteralsAreLines(pattern: Pattern) {
    match pattern
    case Rest => true
    case Literal(t, next) => IsLine(t) && LiteralsAreLines(next)
    case SpanThen(next) => LiteralsAreLines(next)
  }

  lemma {:induction false} FillIsLine(pattern: Pattern, spans: seq<(nat, nat)>, rest: string)
    requires IsLine(rest) && LiteralsAreLines(pattern)
    ensures IsLine(Fill(pattern, spans, rest))
    decreases pattern
  {
    match pattern
    case Rest =>
    case Literal(t, next) => FillIsLine(next, spans, rest);
    case SpanThen(next) =>
      if spans != [] {
        FillIsLine(next, spans[1..], rest);
        PrintIsLine(spans[0].0);
        PrintIsLine(spans[0].1);
      }
  }

  lemma FormatIsLine(oldStart: nat, oldCount: nat, newStart: nat, newCount: nat, trailing: string)
    requires IsLine(trailing)
    ensures IsLine(FormatHeader(oldStart, oldCount, newStart, newCount, trailing))
  {
    var last := Literal(" @@", Rest);
    assert LiteralsAreLines(SpanThen(last));
    assert LiteralsAreLines(SpanThen(Literal(" +", SpanThen(last))));
    FillIsLine(HUNK_PATTERN, [(oldStart, oldCount), (newStart, newCount)], trailing);
  }

  lemma {:induction false} MatchIsLine(s: string, pattern: Pattern)
    requires IsLine(s) && Match(s, pattern).Some?
    ensures IsLine(Match(s, pattern).value.rest)
    decreases pattern
  {
    match pattern
    case Rest =>
    case Literal(t, next) => MatchIsLine(s[|t|..], next);
    case SpanThen(next) => MatchIsLine(MatchSpan(s).value.rest, next);
  }

  lemma TrailingIsLine(line: string)
    requires IsLine(line) && ParseHeader(line).Some?
    ensures IsLine(ParseHeader(line).value.trailing)
  {
    MatchIsLine(line, HUNK_PATTERN);
  }

  lemma RepairedAreLines(lines: seq<string>)
    requires AreLines(lines)
    ensures AreLines(Repaired(lines))
  {
    var cs := Classes(lines);
    forall k | 0 <= k < |lines| ensures IsLine(Repaired(lines)[k]) {
      HeaderAt(lines, k);
      RepairedAt(lines, k);
      if cs[k].header.Some? {
        var h, end := cs[k].header.value, BodyEnd(cs, k + 1);
        TrailingIsLine(lines[k]);
        FormatIsLine(h.oldSpan.start, OldCount(cs, k + 1, end), h.newSpan.start, NewCount(cs, k + 1, end), h.trailing);
      }
    }
  }

  lemma RepairedStaysFilled(lines: seq<string>, k: nat)
    requires k < |lines| && lines[k] != ""
    ensures Repaired(lines)[k] != ""
  {
    RepairedAt(lines, k);
    RepairedClass(lines, k);
    ClassAt(Repaired(lines), k);
    if Classes(lines)[k].header.Some? { BlankIsNoHeader(); }
  }

  lemma BlankIsNoHeader()
    ensures ParseHeader("").None?
  {
    assert HUNK_PATTERN.text == "@@ -";
  }

  /** On texts too. */
  lemma RepairTextTwice(patch: string)
    ensures RepairCounts(RepairCounts(patch)) == RepairCounts(patch)
    ensures Split(RepairCounts(patch)) == Repaired(Split(patch))
  {
    SplitParts(patch);
    RepairedAreLines(Split(patch));
    SplitUnsplit(Repaired(Split(patch)));
    RepairIsIdempotent(Split(patch));
  }

  // ---- Right counts ----

  /** The lines of a hunk's body as a diff writes them. */
  datatype HunkLine = Context(text: string) | Removed(text: string) | Added(text: string) | NoNewline

  function RenderLine(l: HunkLine): string {
    match l
    case Context(t) => " " + t
    case Removed(t) => "-" + t
    case Added(t) => "+" + t
    case NoNewline => "\\ No newline at end of file"
  }

  /** The lines of the old file in the hunk. */
  function OldLines(body: seq<HunkLine>): seq<string> {
    if body == [] then []
    else
      var l := body[|body| - 1];
      OldLines(body[..|body| - 1]) + if l.Context? || l.Removed? then [l.text] else []
  }

  /** The lines of the new file in the hunk. */
  function NewLines(body: seq<HunkLine>): seq<string> {
    if body == [] then []
    else
      var l := body[|body| - 1];
      NewLines(body[..|body| - 1]) + if l.Context? || l.Added? then [l.text] else []
  }

  /** A removed line that reads "-- …" or an added one that reads "++ …". */
  predicate LooksLikeFileHeader(l: HunkLine) {
    (l.Removed? && StartsWith(l.text, "-- ")) || (l.Added? && StartsWith(l.text, "++ "))
  }

  lemma ConsPrefix(c: char, t: string, prefix: string)
    requires prefix != "" && prefix[0] == c
    ensures StartsWith([c] + t, prefix) <==> StartsWith(t, prefix[1..])
  {
    var s := [c] + t;
    assert s[1..] == t;
    if StartsWith(t, prefix[1..]) { assert prefix == [c] + prefix[1..]; }
  }

  lemma RenderStops(l: HunkLine)
    ensures StopsBody(RenderLine(l)) <==> LooksLikeFileHeader(l)
  {
    var line := RenderLine(l);
    assert "--- "[1..] == "-- " && "+++ "[1..] == "++ ";
    if l.Removed? {
      ConsPrefix('-', l.text, "--- ");
      assert line[0] == '-' && "@@"[0] == '@' && "diff "[0] == 'd' && "+++ "[0] == '+';
    } else if l.Added? {
      ConsPrefix('+', l.text, "+++ ");
      assert line[0] == '+' && "@@"[0] == '@' && "diff "[0] == 'd' && "--- "[0] == '-';
    } else {
      assert line[0] == ' ' || line[0] == '\\';
      assert "@@"[0] == '@' && "diff "[0] == 'd' && "--- "[0] == '-' && "+++ "[0] == '+';
    }
  }

  lemma RenderWeights(l: HunkLine)
    ensures var c := ClassOf(RenderLine(l));
            && c.old_ == (if l.Context? || l.Removed? then 1 else 0)
            && c.new_ == (if l.Context? || l.Added? then 1 else 0)
  {
    var line := RenderLine(l);
    assert line[0] == if l.Context? then ' ' else if l.Removed? then '-' else if l.Added? then '+' else '\\';
    OneSign(line);
  }

  /** What the pass sees of a body. */
  ghost predicate BodyClasses(cs: seq<LineClass>, j: nat, body: seq<HunkLine>) {
    && j + |body| <= |cs|
    && forall i :: 0 <= i < |body| ==>
         && cs[j + i].stops == LooksLikeFileHeader(body[i])
         && cs[j + i].old_ == (if body[i].Context? || body[i].Removed? then 1 else 0)
         && cs[j + i].new_ == (if body[i].Context? || body[i].Added? then 1 else 0)
  }

  lemma {:induction false} BodyCounts(cs: seq<LineClass>, j: nat, body: seq<HunkLine>, n: nat)
    requires n <= |body| && BodyClasses(cs, j, body)
    ensures OldCount(cs, j, j + n) == |OldLines(body[..n])| && NewCount(cs, j, j + n) == |NewLines(body[..n])|
  {
    if n > 0 {
      BodyCounts(cs, j, body, n - 1);
      assert body[..n][..n - 1] == body[..n - 1];
      assert cs[j + (n - 1)] == cs[j + n - 1];
    }
  }

  lemma {:induction false} LinesGrow(body: seq<HunkLine>, m: nat)
    requires m <= |body|
    ensures |OldLines(body[..m])| <= |OldLines(body)| && |NewLines(body[..m])| <= |NewLines(body)|
    ensures m < |body| && LooksLikeFileHeader(body[m]) ==>
              |OldLines(body[..m])| < |OldLines(body)| || |NewLines(body[..m])| < |NewLines(body)|
    decreases |body| - m
  {
    if m < |body| {
      assert body[..m + 1][..m] == body[..m];
      LinesGrow(body, m + 1);
    } else {
      assert body[..m] == body;
    }
  }

  lemma {:induction false} EndOfBody(cs: seq<LineClass>, j: nat, end: nat)
    requires j <= end <= |cs|
    requires forall k :: j <= k < end ==> !cs[k].stops
    requires end == |cs| || cs[end].stops
    ensures BodyEnd(cs, j) == end
    decreases end - j
  {
    if j < end { EndOfBody(cs, j + 1, end); }
  }

  /** A hunk stands in the lines: its header line at `k`, its body after it, then the end or a line that ends a body. */
  ghost predicate HunkAt(lines: seq<string>, k: nat, body: seq<HunkLine>) {
    && k + 1 + |body| <= |lines|
    && ParseHeader(lines[k]).Some?
    && (forall i :: 0 <= i < |body| ==> lines[k + 1 + i] == RenderLine(body[i]))
    && (k + 1 + |body| == |lines| || StopsBody(lines[k + 1 + |body|]))
  }

  /** What the pass sees of a hunk. */
  ghost predicate HunkSeen(cs: seq<LineClass>, k: nat, h: HunkHeader, body: seq<HunkLine>) {
    && k < |cs| && cs[k].header == Some(h) && BodyClasses(cs, k + 1, body)
    && (k + 1 + |body| == |cs| || cs[k + 1 + |body|].stops)
  }

  lemma BodySeen(lines: seq<string>, k: nat, body: seq<HunkLine>)
    requires HunkAt(lines, k, body)
    ensures BodyClasses(Classes(lines), k + 1, body)
  {
    var cs := Classes(lines);
    forall i | 0 <= i < |body|
      ensures
        && cs[k + 1 + i].stops == LooksLikeFileHeader(body[i])
        && cs[k + 1 + i].old_ == (if body[i].Context? || body[i].Removed? then 1 else 0)
        && cs[k + 1 + i].new_ == (if body[i].Context? || body[i].Added? then 1 else 0)
    {
      assert lines[k + 1 + i] == RenderLine(body[i]);
      BodyLineClass(lines, k + 1 + i, body[i]);
    }
  }

  lemma HunkIsSeen(lines: seq<string>, k: nat, body: seq<HunkLine>)
    requires HunkAt(lines, k, body)
    ensures HunkSeen(Classes(lines), k, ParseHeader(lines[k]).value, body)
  {
    BodySeen(lines, k, body);
    HeaderAt(lines, k);
    if k + 1 + |body| < |lines| { StopsAt(lines, k + 1 + |body|); }
  }

  lemma BodyLineClass(lines: seq<string>, k: nat, l: HunkLine)
    requires k < |lines| && lines[k] == RenderLine(l)
    ensures var c := Classes(lines)[k];
            && c.stops == LooksLikeFileHeader(l)
            && c.old_ == (if l.Context? || l.Removed? then 1 else 0)
            && c.new_ == (if l.Context? || l.Added? then 1 else 0)
  {
    ClassAt(lines, k);
    RenderStops(l);
    RenderWeights(l);
  }

  /** The counts found are the true ones exactly when no body line looks like a file header. */
  lemma CountsFound(cs: seq<LineClass>, j: nat, body: seq<HunkLine>)
    requires BodyClasses(cs, j, body) && (j + |body| == |cs| || cs[j + |body|].stops)
    ensures var end := BodyEnd(cs, j);
            OldCount(cs, j, end) == |OldLines(body)| && NewCount(cs, j, end) == |NewLines(body)|
            <==> forall i :: 0 <= i < |body| ==> !LooksLikeFileHeader(body[i])
  {
    var end := BodyEnd(cs, j);
    if forall i :: 0 <= i < |body| ==> !LooksLikeFileHeader(body[i]) {
      forall k | j <= k < j + |body| ensures !cs[k].stops { assert cs[j + (k - j)].stops == LooksLikeFileHeader(body[k - j]); }
      EndOfBody(cs, j, j + |body|);
      BodyCounts(cs, j, body, |body|);
      assert body[..|body|] == body;
    } else {
      var i :| 0 <= i < |body| && LooksLikeFileHeader(body[i]);
      assert cs[j + i].stops;
      var m := end - j;
      assert m <= i && cs[j + m].stops;
      BodyCounts(cs, j, body, m);
      LinesGrow(body, m);
    }
  }

  lemma CountsRightSeen(line: string, cs: seq<LineClass>, k: nat, h: HunkHeader, body: seq<HunkLine>)
    requires HunkSeen(cs, k, h, body)
    ensures RepairedLine(line, cs, k) == FormatHeader(h.oldSpan.start, |OldLines(body)|, h.newSpan.start, |NewLines(body)|, h.trailing)
            <==> forall i :: 0 <= i < |body| ==> !LooksLikeFileHeader(body[i])
  {
    var end := BodyEnd(cs, k + 1);
    CountsFound(cs, k + 1, body);
    ParseFormat(h.oldSpan.start, OldCount(cs, k + 1, end), h.newSpan.start, NewCount(cs, k + 1, end), h.trailing);
    ParseFormat(h.oldSpan.start, |OldLines(body)|, h.newSpan.start, |NewLines(body)|, h.trailing);
  }

  /**
   The repaired header gives the hunk's true line counts exactly when no removed line begins with
   "-- " and no added line with "++ ": such a line ends the count early.
   */
  lemma CountsRightIff(lines: seq<string>, k: nat, body: seq<HunkLine>)
    requires HunkAt(lines, k, body)
    ensures var h := ParseHeader(lines[k]).value;
            Repaired(lines)[k] == FormatHeader(h.oldSpan.start, |OldLines(body)|, h.newSpan.start, |NewLines(body)|, h.trailing)
            <==> forall i :: 0 <= i < |body| ==> !LooksLikeFileHeader(body[i])
  {
    HunkIsSeen(lines, k, body);
    RepairedAt(lines, k);
    CountsRightSeen(lines[k], Classes(lines), k, ParseHeader(lines[k]).value, body);
  }

  /** So taking out a comment line "-- note" spoils counts that were right. */
  lemma RemovedCommentSpoilsCounts(lines: seq<string>, body: seq<HunkLine>, trailing: string)
    requires |body| == 2 && body[0] == Removed("-- note") && body[1] == Added("x")
    requires HunkAt(lines, 0, body) && lines[0] == FormatHeader(1, 1, 1, 1, trailing)
    ensures Repaired(lines)[0] != lines[0]
  {
    ParseFormat(1, 1, 1, 1, trailing);
    TwoLines(body);
    assert LooksLikeFileHeader(body[0]) by { assert "-- " <= "-- note"; }
    CountsRightIff(lines, 0, body);
  }

  lemma TwoLines(body: seq<HunkLine>)
    requires |body| == 2 && body[0].Removed? && body[1].Added?
    ensures |OldLines(body)| == 1 && |NewLines(body)| == 1
  {
    assert body[..1] == [body[0]] && body[..1][..0] == [];
    assert OldLines([body[0]]) == [body[0].text] && NewLines([body[0]]) == [];
  }
}
