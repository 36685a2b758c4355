/**
 Reading a file in numbered chunks and editing it by search and replace: `read_file` and the matching
 chain of `edit_file` (services/dev_agent/service.py:873-976 and 680-743).
 */
module FileEdits {
  import opened Decimal
  import opened Lines
  import opened LineNumbers
  import opened Options
  import opened Seqs
  import opened Text

  // ---- Lines with their breaks ----

  /** `s.splitlines(keepends=True)` */
  function KeepEnds(s: string): (lines: seq<string>)
    ensures lines == [] <==> s == ""
  {
    if s == "" then []
    else if s[0] == '\n' then ["\n"] + KeepEnds(s[1..])
    else
      var rest := KeepEnds(s[1..]);
      if rest == [] then [[s[0]]] else [[s[0]] + rest[0]] + rest[1..]
  }

  function Concat(lines: seq<string>): string {
    if lines == [] then "" else lines[0] + Concat(lines[1..])
  }

  /** A line, with a break after it or without. */
  predicate IsPiece(l: string) {
    IsLine(l) || (EndsInBreak(l) && IsLine(l[..|l| - 1]))
  }

  /** Every piece but the last ends in a break. */
  predicate ArePieces(lines: seq<string>) {
    && (forall i :: 0 <= i < |lines| ==> IsPiece(lines[i]))
    && (forall i :: 0 <= i < |lines| - 1 ==> EndsInBreak(lines[i]))
  }

  lemma PieceCons(c: char, l: string)
    requires c != '\n' && IsPiece(l) && l != ""
    ensures IsPiece([c] + l) && (EndsInBreak([c] + l) <==> EndsInBreak(l))
  {
    var first := [c] + l;
    if EndsInBreak(l) { assert first[..|first| - 1] == [c] + l[..|l| - 1]; }
  }

  lemma PiecesCons(first: string, lines: seq<string>)
    requires ArePieces(lines) && IsPiece(first) && (lines == [] || EndsInBreak(first))
    ensures ArePieces([first] + lines)
  {
    var all := [first] + lines;
    forall i | 0 <= i < |all| - 1 ensures EndsInBreak(all[i]) { assert i > 0 ==> all[i] == lines[i - 1]; }
  }

  lemma {:induction false} KeepEndsPieces(s: string)
    ensures ArePieces(KeepEnds(s)) && "" !in KeepEnds(s)
  {
    if s != "" {
      var rest := KeepEnds(s[1..]);
      KeepEndsPieces(s[1..]);
      if s[0] == '\n' {
        PiecesCons("\n", rest);
      } else if rest == [] {
        PiecesCons([s[0]], []);
        assert [[s[0]]] + [] == [[s[0]]];
      } else {
        assert rest[0] in rest;
        PieceCons(s[0], rest[0]);
        TailPieces(rest);
        PiecesCons([s[0]] + rest[0], rest[1..]);
      }
    }
  }

  lemma TailPieces(lines: seq<string>)
    requires ArePieces(lines) && lines != []
    ensures ArePieces(lines[1..]) && (|lines| > 1 ==> EndsInBreak(lines[0]))
  {
  }

  lemma {:induction false} KeepEndsWhole(s: string)
    ensures Concat(KeepEnds(s)) == s
  {
    if s != "" {
      var rest := KeepEnds(s[1..]);
      KeepEndsWhole(s[1..]);
      assert s == [s[0]] + s[1..];
      if s[0] == '\n' {
        assert (["\n"] + rest)[1..] == rest;
      } else if rest != [] {
        assert ([[s[0]] + rest[0]] + rest[1..])[1..] == rest[1..];
        ConcatAssoc([s[0]], rest[0], Concat(rest[1..]));
      }
    }
  }

  lemma {:induction false} ConcatSplit(a: seq<string>, b: seq<string>)
    ensures Concat(a + b) == Concat(a) + Concat(b)
  {
    if a == [] {
      assert a + b == b;
    } else {
      assert (a + b)[1..] == a[1..] + b;
      ConcatSplit(a[1..], b);
      ConcatAssoc(a[0], Concat(a[1..]), Concat(b));
    }
  }

  // ---- Numbered chunks ----

  const MAX_LINES: nat := 500

  /** The lines with their numbers, from `first` on. */
  function Numbered(lines: seq<string>, first: nat): string {
    if lines == [] then "" else Label(first) + (lines[0] + Numbered(lines[1..], first + 1))
  }

  /** What a read from a start line selects: lines, the number of the first, where to go on. */
  datatype Chunk = Chunk(lines: seq<string>, first: nat, next: Option<int>)

  function StartIndex(startLine: int): nat {
    if startLine > 1 then startLine - 1 else 0
  }

  function EndIndex(total: nat, startLine: int, endLine: Option<int>): (e: int)
    ensures e <= total
  {
    var e := if endLine.Some? then endLine.value else StartIndex(startLine) + MAX_LINES;
    if e <= total then e else total
  }

  /** `all[s:e]`, where a negative end counts from the back. */
  function Slice<T>(all: seq<T>, s: nat, e: int): seq<T>
    requires e <= |all|
  {
    var end := if e < 0 then |all| + e else e;
    if s <= end then all[s..end] else []
  }

  function ReadFrom(all: seq<string>, startLine: int, endLine: Option<int>): (c: Chunk)
    ensures endLine.None? && c.next.Some? ==> startLine < c.next.value <= |all|
  {
    var s, e := StartIndex(startLine), EndIndex(|all|, startLine, endLine);
    Chunk(Slice(all, s, e), s + 1, if 0 < |all| && e < |all| then Some(e + 1) else None)
  }

  const READ_NOTE: string :=
    "(Line numbers are for reference only \U{2014} do NOT include them in old_string, patches, or edits)\n"

  function Heading(s: nat): string {
    READ_NOTE + if s > 0 then "... (" + Print(s) + " lines above)\n" else ""
  }

  function Footing(total: nat, e: int): string
    requires e <= total
  {
    if e < total then "\n... (" + Print(total - e) + " more lines below)" else ""
  }

  function NumberedText(all: seq<string>, startLine: int, endLine: Option<int>): string {
    var c := ReadFrom(all, startLine, endLine);
    Heading(c.first - 1) + Numbered(c.lines, c.first) + Footing(|all|, EndIndex(|all|, startLine, endLine))
  }

  /** The text without numbers: the first lines of the file. */
  function PlainText(all: seq<string>): string {
    if |all| > MAX_LINES then
      Concat(all[..MAX_LINES]) + ("\n... (truncated at " + Print(MAX_LINES) + " of " + Print(|all|)
                                  + " lines \U{2014} use start_line/end_line to read specific sections)")
    else Concat(all)
  }

  const TEXT_LIMIT: nat := 100000

  function Capped(text: string): string {
    if |text| > TEXT_LIMIT then text[..TEXT_LIMIT] + "\n... (truncated)" else text
  }

  /** The answer: the text, and the metadata that says which lines it shows. */
  datatype Reading = Reading(
    text: string, totalLines: nat, lineCapped: bool, textCapped: bool,
    sourceStart: Option<int>, sourceEnd: Option<int>, next: Option<int>, moreAbove: bool, moreBelow: bool)

  /** The answer says which lines the chunk shows. */
  predicate ShowsChunk(r: Reading, all: seq<string>, startLine: int, endLine: Option<int>) {
    var c, e := ReadFrom(all, startLine, endLine), EndIndex(|all|, startLine, endLine);
    && r.next == c.next && (r.moreAbove <==> c.first > 1) && (r.moreBelow <==> e < |all|) && !r.lineCapped
    && r.sourceStart == (if all == [] then None else Some(c.first))
    && r.sourceEnd == (if all == [] then None else Some(e))
  }

  /** It says that the file is shown, or its first lines. */
  predicate ShowsBeginning(r: Reading, all: seq<string>) {
    && (r.lineCapped <==> |all| > MAX_LINES) && !r.moreAbove && !r.moreBelow
    && r.next == (if r.lineCapped then Some(MAX_LINES + 1) else None)
    && r.sourceStart == (if all == [] then None else Some(1))
    && r.sourceEnd == (if all == [] then None else Some(if r.lineCapped then MAX_LINES else |all|))
  }

  method ReadFile(content: string, startLine: Option<int>, endLine: Option<int>) returns (r: Reading)
    ensures var all := KeepEnds(content);
            var text := if startLine.Some? then NumberedText(all, startLine.value, endLine) else PlainText(all);
            && r.text == Capped(text) && (r.textCapped <==> |text| > TEXT_LIMIT) && r.totalLines == |all|
            && if startLine.Some? then ShowsChunk(r, all, startLine.value, endLine) else ShowsBeginning(r, all)
  {
    var all := KeepEnds(content);
    if startLine.Some? {
      r := ReadChunk(all, startLine.value, endLine);
    } else {
      r := ReadBeginning(all);
    }
  }

  /** The branch with a start line. */
  method ReadChunk(all: seq<string>, startLine: int, endLine: Option<int>) returns (r: Reading)
    ensures var text := NumberedText(all, startLine, endLine);
            r.text == Capped(text) && (r.textCapped <==> |text| > TEXT_LIMIT) && r.totalLines == |all|
    ensures ShowsChunk(r, all, startLine, endLine)
  {
    var s, e := StartIndex(startLine), EndIndex(|all|, startLine, endLine);
    var numbered := NumberLines(Slice(all, s, e), s + 1);
    var text := Heading(s) + numbered;
    text := text + Footing(|all|, e);
    var sourceStart, sourceEnd, next := None, None, None;
    if |all| > 0 {
      sourceStart, sourceEnd := Some(s + 1), Some(e);
    }
    var below := e < |all|;
    if below && sourceEnd.Some? {
      next := Some(sourceEnd.value + 1);
    }
    r := Reading(Capped(text), |all|, false, |text| > TEXT_LIMIT, sourceStart, sourceEnd, next, s > 0, below);
  }

  /** The branch without one. */
  method ReadBeginning(all: seq<string>) returns (r: Reading)
    ensures var text := PlainText(all);
            r.text == Capped(text) && (r.textCapped <==> |text| > TEXT_LIMIT) && r.totalLines == |all|
    ensures ShowsBeginning(r, all)
  {
    var text := PlainText(all);
    var lineCapped, sourceStart, sourceEnd, next := false, None, None, None;
    if |all| > MAX_LINES {
      lineCapped, sourceStart, sourceEnd, next := true, Some(1), Some(MAX_LINES), Some(MAX_LINES + 1);
    } else if |all| > 0 {
      sourceStart, sourceEnd := Some(1), Some(|all|);
    }
    r := Reading(Capped(text), |all|, lineCapped, |text| > TEXT_LIMIT, sourceStart, sourceEnd, next, false, false);
  }

  /** How many lines the answer without a start line shows. */
  function ShownLines(all: seq<string>): nat {
    if |all| <= MAX_LINES then |all| else MAX_LINES
  }

  /**
   The answer without a start line begins with the lines that its metadata names, as far as the
   character limit goes; a file within both limits is shown as it is.
   */
  lemma BeginningIsShown(content: string)
    ensures var all := KeepEnds(content);
            var text, shown := Capped(PlainText(all)), Concat(all[..ShownLines(all)]);
            && shown <= content
            && (|shown| <= 100000 ==> shown <= text)
            && (|shown| > 100000 ==> |text| >= 100000 && text[..100000] == shown[..100000])
            && (|all| <= 500 && |content| <= 100000 ==> text == content)
  {
    var all := KeepEnds(content);
    KeepEndsWhole(content);
    assert all == all[..ShownLines(all)] + all[ShownLines(all)..];
    ConcatSplit(all[..ShownLines(all)], all[ShownLines(all)..]);
    PlainTextBegins(all);
    CappedBegins(PlainText(all), Concat(all[..ShownLines(all)]));
  }

  lemma PlainTextBegins(all: seq<string>)
    ensures Concat(all[..ShownLines(all)]) <= PlainText(all)
    ensures |all| <= MAX_LINES ==> PlainText(all) == Concat(all)
  {
    assert |all| <= MAX_LINES ==> all[..|all|] == all;
  }

  lemma CappedBegins(text: string, shown: string)
    requires shown <= text
    ensures |shown| <= TEXT_LIMIT ==> shown <= Capped(text)
    ensures |shown| > TEXT_LIMIT ==> |Capped(text)| >= TEXT_LIMIT && Capped(text)[..TEXT_LIMIT] == shown[..TEXT_LIMIT]
    ensures |text| <= TEXT_LIMIT ==> Capped(text) == text
  {
  }

  /** The text of a numbered read that shows `lines` and leaves out those above and below them. */
  ghost predicate ShowsBetween(text: string, above: seq<string>, lines: seq<string>, below: seq<string>) {
    text == READ_NOTE + (if above == [] then "" else "... (" + Print(|above|) + " lines above)\n")
            + Numbered(lines, |above| + 1)
            + (if below == [] then "" else "\n... (" + Print(|below|) + " more lines below)")
  }

  /**
   A read from a line of the file shows the lines from there to the given end, or 500 lines, or what
   the file has; the numbers it gives above and below are those of the lines it leaves out.
   */
  lemma ChunkIsShown(all: seq<string>, startLine: int, endLine: Option<int>, count: nat)
    requires 1 <= startLine <= |all|
    requires endLine.Some? ==> startLine <= endLine.value
    requires var wanted := if endLine.Some? then endLine.value - startLine + 1 else 500;
             count == if wanted <= |all| - startLine + 1 then wanted else |all| - startLine + 1
    ensures var s := startLine - 1;
            ShowsBetween(NumberedText(all, startLine, endLine), all[..s], all[s..s + count], all[s + count..])
  {
    var s := startLine - 1;
    ReadLines(all, startLine, endLine, count);
    assert |all[..s]| == s && |all[s + count..]| == |all| - (s + count);
  }

  lemma ReadLines(all: seq<string>, startLine: int, endLine: Option<int>, count: nat)
    requires 1 <= startLine <= |all| && count <= |all| - startLine + 1
    requires EndIndex(|all|, startLine, endLine) == startLine - 1 + count
    ensures var c := ReadFrom(all, startLine, endLine);
            c.first == startLine && c.lines == all[startLine - 1..startLine - 1 + count]
  {
  }

  lemma NumberedCons(line: string, rest: seq<string>, first: nat)
    ensures Numbered([line] + rest, first) == Label(first) + (line + Numbered(rest, first + 1))
  {
    assert ([line] + rest)[1..] == rest;
  }

  lemma AssocTwice(tag: string, line: string, a: string, b: string)
    ensures tag + (line + (a + b)) == (tag + (line + a)) + b
  {
    ConcatAssoc(line, a, b);
    ConcatAssoc(tag, line + a, b);
  }

  lemma {:induction false} NumberedConcat(a: seq<string>, b: seq<string>, first: nat)
    ensures Numbered(a + b, first) == Numbered(a, first) + Numbered(b, first + |a|)
  {
    if a == [] {
      assert a + b == b;
    } else {
      var line, rest := a[0], a[1..];
      NumberedConcat(rest, b, first + 1);
      NumberedCons(line, rest + b, first);
      NumberedCons(line, rest, first);
      assert a + b == [line] + (rest + b) && a == [line] + rest;
      AssocTwice(Label(first), line, Numbered(rest, first + 1), Numbered(b, first + |a|));
    }
  }

  lemma NumberedNext(lines: seq<string>, i: nat, first: nat)
    requires i < |lines|
    ensures Numbered(lines[..i + 1], first) == Numbered(lines[..i], first) + (Label(first + i) + lines[i])
  {
    assert lines[..i + 1] == lines[..i] + [lines[i]];
    NumberedConcat(lines[..i], [lines[i]], first);
    NumberedOne(lines[i], first + i);
  }

  lemma NumberedOne(line: string, n: nat)
    ensures Numbered([line], n) == Label(n) + line
  {
    assert [line][1..] == [] && line + "" == line;
  }

  method NumberLines(lines: seq<string>, first: nat) returns (numbered: string)
    ensures numbered == Numbered(lines, first)
  {
    numbered := "";
    for i := 0 to |lines|
      invariant numbered == Numbered(lines[..i], first)
    {
      NumberedNext(lines, i, first);
      numbered := numbered + (Label(first + i) + lines[i]);
    }
    assert lines[..|lines|] == lines;
  }

  lemma SlicesJoin<T>(all: seq<T>, s: nat, m: nat, e: nat)
    requires s <= m <= e <= |all|
    ensures Slice(all, s, m) + Slice(all, m, e) == Slice(all, s, e) && |Slice(all, s, m)| == m - s
  {
    assert all[s..m] + all[m..e] == all[s..e];
  }

  lemma NumbersJoin(all: seq<string>, s: nat, m: nat, e: nat)
    requires s <= m <= e <= |all|
    ensures Slice(all, s, m) + Slice(all, m, e) == Slice(all, s, e)
    ensures Numbered(Slice(all, s, m), s + 1) + Numbered(Slice(all, m, e), m + 1) == Numbered(Slice(all, s, e), s + 1)
  {
    SlicesJoin(all, s, m, e);
    NumberedConcat(Slice(all, s, m), Slice(all, m, e), s + 1);
  }

  lemma ReadUpTo(all: seq<string>, startLine: int, endLine: int, e: int)
    requires all != [] && e == if endLine <= |all| then endLine else |all|
    ensures ReadFrom(all, startLine, Some(endLine)) ==
              Chunk(Slice(all, StartIndex(startLine), e), StartIndex(startLine) + 1, if e < |all| then Some(e + 1) else None)
  {
  }

  /** Reading up to a line and then from the next one on gives what one read over both gives. */
  lemma ReadsJoin(all: seq<string>, startLine: int, middle: int, endLine: int)
    requires StartIndex(startLine) <= middle <= endLine && 0 < middle <= |all|
    ensures var a, b := ReadFrom(all, startLine, Some(middle)), ReadFrom(all, middle + 1, Some(endLine));
            var c := ReadFrom(all, startLine, Some(endLine));
            && a.first == c.first && b.next == c.next && a.lines + b.lines == c.lines
            && Numbered(a.lines, a.first) + Numbered(b.lines, b.first) == Numbered(c.lines, c.first)
  {
    var s, e := StartIndex(startLine), if endLine <= |all| then endLine else |all|;
    ReadUpTo(all, startLine, middle, middle);
    ReadUpTo(all, middle + 1, endLine, e);
    ReadUpTo(all, startLine, endLine, e);
    NumbersJoin(all, s, middle, e);
  }

  /** Following the next start line until there is none. */
  function Follow(all: seq<string>, startLine: int): seq<Chunk>
    decreases |all| - startLine
  {
    var c := ReadFrom(all, startLine, None);
    [c] + if c.next.Some? then Follow(all, c.next.value) else []
  }

  function LinesOf(chunks: seq<Chunk>): seq<string> {
    if chunks == [] then [] else chunks[0].lines + LinesOf(chunks[1..])
  }

  /** Every chunk begins with the number after those of the chunks before it. */
  predicate InOrder(chunks: seq<Chunk>, first: nat) {
    chunks == [] || (chunks[0].first == first && InOrder(chunks[1..], first + |chunks[0].lines|))
  }

  lemma FollowTail(all: seq<string>, startLine: int)
    ensures var c := ReadFrom(all, startLine, None);
            Follow(all, startLine) == [c] + if c.next.Some? then Follow(all, c.next.value) else []
  {
  }

  /** One read from a line of the file: its window, and whether more follows. */
  lemma ReadWindow(all: seq<string>, startLine: nat)
    requires 1 <= startLine <= |all| || startLine == 1
    ensures var c := ReadFrom(all, startLine, None);
            && c.first == startLine
            && (c.next.Some? <==> startLine - 1 + MAX_LINES < |all|)
            && (c.next.Some? ==> c.next.value == startLine + MAX_LINES && c.lines == all[startLine - 1..startLine - 1 + MAX_LINES])
            && (c.next.None? ==> c.lines == all[startLine - 1..])
  {
  }

  lemma LinesOfCons(c: Chunk, rest: seq<Chunk>)
    ensures LinesOf([c] + rest) == c.lines + LinesOf(rest)
    ensures InOrder([c] + rest, c.first) <==> InOrder(rest, c.first + |c.lines|)
  {
    assert ([c] + rest)[1..] == rest;
  }

  lemma ChunkNumber(n: nat, startLine: nat)
    requires startLine - 1 + MAX_LINES < n
    ensures 1 + ((n - (startLine + MAX_LINES)) / MAX_LINES + 1) == (n - startLine) / MAX_LINES + 1
  {
  }

  /** Following the chunks from a line of the file visits that line and all after it once, in order. */
  lemma {:induction false} FollowVisitsAll(all: seq<string>, startLine: nat)
    requires 1 <= startLine <= |all| || startLine == 1
    ensures var chunks := Follow(all, startLine);
            && LinesOf(chunks) == all[startLine - 1..] && InOrder(chunks, startLine)
            && |chunks| == if all == [] then 1 else (|all| - startLine) / MAX_LINES + 1
    decreases |all| - startLine
  {
    var c := ReadFrom(all, startLine, None);
    FollowTail(all, startLine);
    ReadWindow(all, startLine);
    if c.next.Some? {
      FollowVisitsAll(all, c.next.value);
      LinesOfCons(c, Follow(all, c.next.value));
      CutAtIndex(all, startLine - 1, startLine - 1 + MAX_LINES);
      ChunkNumber(|all|, startLine);
    } else {
      LinesOfCons(c, []);
    }
  }

  // ---- Taking the numbers off ----

  /** `re.sub` of the label pattern at the beginnings of lines; `atStart` tells whether the text stands at one. */
  function StripLabels(s: string, atStart: bool): string
    decreases |s|
  {
    if s == "" then ""
    else if atStart && LabelRest(s).Some? then
      LabelLength(s);
      var rest := LabelRest(s).value;
      StripLabels(rest, s[|s| - |rest| - 1] == '\n')
    else [s[0]] + StripLabels(s[1..], s[0] == '\n')
  }

  lemma {:induction false} CopyLine(l: string, rest: string)
    requires IsLine(l)
    ensures StripLabels(l + rest, false) == l + StripLabels(rest, false)
  {
    if l == "" {
      assert l + rest == rest;
    } else {
      assert (l + rest)[1..] == l[1..] + rest;
      CopyLine(l[1..], rest);
      assert l == [l[0]] + l[1..];
      ConcatAssoc([l[0]], l[1..], StripLabels(rest, false));
    }
  }

  lemma BreakThenRest(rest: string)
    ensures StripLabels("\n" + rest, false) == "\n" + StripLabels(rest, true)
  {
    assert ("\n" + rest)[1..] == rest;
  }

  lemma DropLabel(n: nat, rest: string)
    ensures StripLabels(Label(n) + rest, true) == StripLabels(rest, false)
  {
    var s := Label(n) + rest;
    LabelTakenOff(n, rest);
    LabelEnds(n);
    assert s[|s| - |rest| - 1] == Label(n)[|Label(n)| - 1];
  }

  lemma LabelEnds(n: nat)
    ensures var l := Label(n); l != "" && l[|l| - 1] == ' '
  {
  }

  /** Taking the labels off numbered lines gives the lines. */
  lemma {:induction false} StripUndoesNumbering(lines: seq<string>, first: nat)
    requires ArePieces(lines)
    ensures StripLabels(Numbered(lines, first), true) == Concat(lines)
  {
    if lines != [] {
      var l, rest := lines[0], Numbered(lines[1..], first + 1);
      StripUndoesNumbering(lines[1..], first + 1);
      DropLabel(first, l + rest);
      if EndsInBreak(l) {
        var body := l[..|l| - 1];
        assert l == body + "\n";
        ConcatAssoc(body, "\n", rest);
        CopyLine(body, "\n" + rest);
        BreakThenRest(rest);
        ConcatAssoc(body, "\n", StripLabels(rest, true));
      } else {
        assert lines[1..] == [];
        CopyLine(l, "");
        assert l + "" == l;
      }
    }
  }

  // ---- Search and replace ----

  /** `s.count(needle)`: occurrences that do not overlap. */
  function Count(s: string, needle: string): nat
    requires needle != ""
    decreases |s|
  {
    if |s| < |needle| then 0
    else if needle <= s then 1 + Count(s[|needle|..], needle)
    else Count(s[1..], needle)
  }

  /** `s.replace(needle, repl)` */
  function Replace(s: string, needle: string, repl: string): string
    requires needle != ""
    decreases |s|
  {
    if |s| < |needle| then s
    else if needle <= s then repl + Replace(s[|needle|..], needle, repl)
    else [s[0]] + Replace(s[1..], needle, repl)
  }

  /** CRLF and CR become LF. */
  function NormalizeBreaks(s: string): string {
    if s == "" then ""
    else if s[0] != '\r' then [s[0]] + NormalizeBreaks(s[1..])
    else if |s| > 1 && s[1] == '\n' then "\n" + NormalizeBreaks(s[2..])
    else "\n" + NormalizeBreaks(s[1..])
  }

  function StripEach(lines: seq<string>): seq<string> {
    if lines == [] then [] else [StripRight(lines[0])] + StripEach(lines[1..])
  }

  function StripTrailing(s: string): string {
    Unsplit(StripEach(SplitLines(s)))
  }

  /** The text looked for and the one put in its place. */
  datatype Match = Match(needle: string, repl: string)

  predicate Occurs(content: string, needle: string) {
    needle != "" && Count(content, needle) > 0
  }

  /** The matching chain. */
  function FindMatch(content: string, oldString: string, newString: string): (m: Option<Match>)
    ensures m.Some? ==> Occurs(content, m.value.needle)
  {
    var oldNorm, newNorm := NormalizeBreaks(oldString), NormalizeBreaks(newString);
    if Occurs(content, oldNorm) then Some(Match(oldNorm, newNorm))
    else if Occurs(content, oldString) then Some(Match(oldString, newString))
    else
      var unlabelled := StripLabels(oldNorm, true);
      if unlabelled != oldNorm && Occurs(content, unlabelled) then Some(Match(unlabelled, StripLabels(newNorm, true)))
      else
        var trimmed := StripTrailing(oldNorm);
        if trimmed != oldNorm && Occurs(content, trimmed) then Some(Match(trimmed, StripTrailing(newNorm)))
        else None
  }

  datatype Edit = Edit(content: string, replacements: nat)

  /** The edited file, or nothing when the text is not found. */
  function EditOf(content: string, oldString: string, newString: string): Option<Edit> {
    var m := FindMatch(content, oldString, newString);
    if m.None? then None
    else Some(Edit(Replace(content, m.value.needle, m.value.repl), Count(content, m.value.needle)))
  }

  method EditFile(content: string, oldString: string, newString: string) returns (edit: Option<Edit>)
    ensures edit == EditOf(content, oldString, newString)
    ensures edit.Some? ==> edit.value.replacements > 0
  {
    var needle, repl, count := MatchText(content, oldString, newString);
    edit := if count == 0 then None else Some(Edit(Replace(content, needle, repl), count));
  }

  /** The chain of four matches. */
  method MatchText(content: string, oldString: string, newString: string) returns (needle: string, repl: string, count: nat)
    ensures var m := FindMatch(content, oldString, newString);
            && (m.None? <==> count == 0)
            && (m.Some? ==> m.value == Match(needle, repl) && count == Count(content, needle))
  {
    var oldNorm, newNorm := NormalizeBreaks(oldString), NormalizeBreaks(newString);
    needle, repl, count := oldString, newString, 0;
    if oldNorm != "" && Count(content, oldNorm) > 0 {
      needle, repl, count := oldNorm, newNorm, Count(content, oldNorm);
    } else if oldString != "" && Count(content, oldString) > 0 {
      count := Count(content, oldString);
    } else {
      var strippedOld, strippedNew := StripLabels(oldNorm, true), StripLabels(newNorm, true);
      if strippedOld != "" && strippedOld != oldNorm && Count(content, strippedOld) > 0 {
        needle, repl, count := strippedOld, strippedNew, Count(content, strippedOld);
      } else {
        var strippedWs := StripTrailing(oldNorm);
        if strippedWs != "" && strippedWs != oldNorm && Count(content, strippedWs) > 0 {
          needle, repl, count := strippedWs, StripTrailing(newNorm), Count(content, strippedWs);
        }
      }
    }
  }

  lemma OccursShift(s: string, needle: string, i: nat)
    requires s != ""
    ensures OccursAt(s[1..], needle, i) <==> OccursAt(s, needle, i + 1)
  {
    if i + 1 + |needle| <= |s| { assert s[1..][i..i + |needle|] == s[i + 1..i + 1 + |needle|]; }
  }

  lemma ContainsTailIff(s: string, needle: string)
    requires s != "" && !(needle <= s)
    ensures Contains(s[1..], needle) <==> Contains(s, needle)
  {
    if Contains(s, needle) {
      var i :| 0 <= i <= |s| && OccursAt(s, needle, i);
      assert i > 0;
      OccursShift(s, needle, i - 1);
    }
    if Contains(s[1..], needle) {
      var i :| 0 <= i <= |s[1..]| && OccursAt(s[1..], needle, i);
      OccursShift(s, needle, i);
    }
  }

  /** A text occurs when it stands somewhere in the content. */
  lemma {:induction false} OccursIff(content: string, needle: string)
    requires needle != ""
    ensures Count(content, needle) > 0 <==> Contains(content, needle)
    decreases |content|
  {
    if |content| >= |needle| {
      if needle <= content {
        assert OccursAt(content, needle, 0);
      } else {
        OccursIff(content[1..], needle);
        ContainsTailIff(content, needle);
      }
    }
  }

  lemma {:induction false} NothingToNormalize(s: string)
    requires '\r' !in s
    ensures NormalizeBreaks(s) == s
  {
    if s != "" {
      NothingToNormalize(s[1..]);
      assert s == [s[0]] + s[1..];
    }
  }

  // ---- Pasting what was read ----

  /** Some lines of the file as they may be pasted: with the break after the last one, or without. */
  function Pasted(lines: seq<string>, dropBreak: bool): seq<string>
    requires lines != []
  {
    var last := lines[|lines| - 1];
    if dropBreak && EndsInBreak(last) then lines[..|lines| - 1] + [last[..|last| - 1]] else lines
  }

  lemma PastedPieces(lines: seq<string>, dropBreak: bool)
    requires lines != [] && ArePieces(lines)
    ensures ArePieces(Pasted(lines, dropBreak)) && Concat(Pasted(lines, dropBreak)) <= Concat(lines)
  {
    var last := lines[|lines| - 1];
    if dropBreak && EndsInBreak(last) {
      var before, cut := lines[..|lines| - 1], last[..|last| - 1];
      assert lines == before + [last];
      ConcatSplit(before, [last]);
      ConcatSplit(before, [cut]);
      assert Concat([last]) == last && Concat([cut]) == cut;
    }
  }

  lemma ContainsMiddle(before: string, part: string, whole: string, after: string)
    requires part <= whole
    ensures Contains(before + (whole + after), part)
  {
    var s := before + (whole + after);
    assert s[|before|..|before| + |part|] == part;
    assert OccursAt(s, part, |before|);
  }

  lemma ConcatThree(x: seq<string>, y: seq<string>, z: seq<string>)
    ensures Concat(x + (y + z)) == Concat(x) + (Concat(y) + Concat(z))
  {
    ConcatSplit(x, y + z);
    ConcatSplit(y, z);
  }

  lemma ThreeParts<T>(all: seq<T>, a: nat, b: nat)
    requires a <= b <= |all|
    ensures all == all[..a] + (all[a..b] + all[b..])
  {
  }

  lemma ContentAround(content: string, a: nat, b: nat)
    requires a <= b <= |KeepEnds(content)|
    ensures var all := KeepEnds(content);
            content == Concat(all[..a]) + (Concat(all[a..b]) + Concat(all[b..]))
  {
    var all := KeepEnds(content);
    KeepEndsWhole(content);
    ThreeParts(all, a, b);
    ConcatThree(all[..a], all[a..b], all[b..]);
  }

  lemma SomePieces(lines: seq<string>, a: nat, b: nat)
    requires ArePieces(lines) && a <= b <= |lines|
    ensures ArePieces(lines[a..b])
  {
  }

  lemma PastedIsInContent(content: string, a: nat, b: nat, dropBreak: bool)
    requires a < b <= |KeepEnds(content)|
    ensures var block := Pasted(KeepEnds(content)[a..b], dropBreak);
            ArePieces(block) && Contains(content, Concat(block))
  {
    var all := KeepEnds(content);
    KeepEndsPieces(content);
    SomePieces(all, a, b);
    ContentAround(content, a, b);
    PastedPieces(all[a..b], dropBreak);
    ContainsMiddle(Concat(all[..a]), Concat(Pasted(all[a..b], dropBreak)), Concat(all[a..b]), Concat(all[b..]));
  }

  lemma {:induction false} NumberedLonger(lines: seq<string>, first: nat)
    ensures |Numbered(lines, first)| >= |Concat(lines)| + |lines|
  {
    if lines != [] {
      NumberedLonger(lines[1..], first + 1);
      LabelEnds(first);
    }
  }

  lemma LabelHasNoReturn(n: nat)
    ensures '\r' !in Label(n) && IsLine(Label(n))
  {
    var d := Print(n);
    forall i | 0 <= i < |d| ensures d[i] != '\r' && d[i] != '\n' { assert IsDigit(d[i]); }
    SpacesOnly(if |d| < 6 then 6 - |d| else 0);
  }

  lemma {:induction false} SpacesOnly(n: nat)
    ensures forall i :: 0 <= i < |Spaces(n)| ==> Spaces(n)[i] == ' '
  {
    if n > 0 { SpacesOnly(n - 1); }
  }

  lemma {:induction false} NumberedHasNoReturn(lines: seq<string>, first: nat)
    requires '\r' !in Concat(lines)
    ensures '\r' !in Numbered(lines, first)
  {
    if lines != [] {
      LabelHasNoReturn(first);
      forall i | 0 <= i < |lines[0]| ensures lines[0][i] != '\r' { assert Concat(lines)[i] == lines[0][i]; }
      forall i | 0 <= i < |Concat(lines[1..])| ensures Concat(lines[1..])[i] != '\r' {
        assert Concat(lines)[|lines[0]| + i] == Concat(lines[1..])[i];
      }
      NumberedHasNoReturn(lines[1..], first + 1);
    }
  }

  lemma NoReturnInside(content: string, part: string)
    requires '\r' !in content && Contains(content, part)
    ensures '\r' !in part
  {
    var k :| 0 <= k <= |content| && OccursAt(content, part, k);
    forall i | 0 <= i < |part| ensures part[i] != '\r' { assert content[k..k + |part|][i] == content[k + i]; }
  }

  /** The chain on numbered lines that stand unnumbered in the content. */
  lemma NumberedMatch(content: string, block: seq<string>, first: nat, newString: string)
    requires block != [] && ArePieces(block) && '\r' !in Concat(block)
    requires Concat(block) != "" && Contains(content, Concat(block))
    ensures var old_, m := Numbered(block, first), FindMatch(content, Numbered(block, first), newString);
            && m.Some?
            && (!Contains(content, old_) ==> m.value == Match(Concat(block), StripLabels(NormalizeBreaks(newString), true)))
  {
    var old_, plain := Numbered(block, first), Concat(block);
    NumberedHasNoReturn(block, first);
    NothingToNormalize(old_);
    NumberedLonger(block, first);
    StripUndoesNumbering(block, first);
    OccursIff(content, old_);
    OccursIff(content, plain);
  }

  lemma LabelUnlabelled(n: nat)
    ensures NormalizeBreaks(Label(n)) == Label(n) && StripLabels(Label(n), true) == ""
  {
    LabelHasNoReturn(n);
    NothingToNormalize(Label(n));
    LabelTakenOff(n, "");
    assert Label(n) + "" == Label(n);
    LabelEnds(n);
  }

  lemma LabelStripped(n: nat)
    ensures StripTrailing(Label(n)) == StripRight(Label(n))
  {
    LabelHasNoReturn(n);
    SplitLine(Label(n));
    LabelEnds(n);
    assert [Label(n)][1..] == [];
    assert StripEach([Label(n)]) == [StripRight(Label(n))];
  }

  lemma ContainsShorter(content: string, part: string, shorter: string)
    requires shorter <= part && Contains(content, part)
    ensures Contains(content, shorter)
  {
    var i :| 0 <= i <= |content| && OccursAt(content, part, i);
    assert content[i..i + |shorter|] == content[i..i + |part|][..|shorter|];
    assert OccursAt(content, shorter, i);
  }

  /** The chain on the label of a blank line. */
  lemma LabelMatch(content: string, n: nat, newString: string)
    ensures FindMatch(content, Label(n), newString).Some? <==> Contains(content, StripRight(Label(n)))
  {
    var old_, trimmed := Label(n), StripRight(Label(n));
    LabelUnlabelled(n);
    LabelStripped(n);
    LabelTrimmed(n);
    LabelEnds(n);
    OccursIff(content, old_);
    OccursIff(content, trimmed);
    if Contains(content, old_) {
      var tail := StripRightParts(old_);
      ContainsShorter(content, old_, trimmed);
    }
  }

  lemma LabelTrimmed(n: nat)
    ensures StripRight(Label(n)) != "" && StripRight(Label(n)) != Label(n)
  {
    var l := Label(n);
    LabelEnds(n);
    assert l[|l| - 2] == BAR && l[..|l| - 1][|l| - 2] == BAR;
    assert StripRight(l) == StripRight(l[..|l| - 1]) == l[..|l| - 1];
  }

  /**
   Pasting numbered lines of the file as `old_string` finds a match, whatever the numbers hide, exactly
   when the lines are more than one blank line pasted without its break; for that one the text of its
   number itself would have to be in the file.
   */
  lemma PastedBlockFoundIff(content: string, a: nat, b: nat, dropBreak: bool, newString: string)
    requires '\r' !in content && a < b <= |KeepEnds(content)|
    ensures var block := Pasted(KeepEnds(content)[a..b], dropBreak);
            FindMatch(content, Numbered(block, a + 1), newString).Some?
            <==> Concat(block) != "" || Contains(content, StripRight(Label(a + 1)))
  {
    var block := Pasted(KeepEnds(content)[a..b], dropBreak);
    PastedIsInContent(content, a, b, dropBreak);
    NoReturnInside(content, Concat(block));
    if Concat(block) != "" {
      NumberedMatch(content, block, a + 1, newString);
    } else {
      BlankBlock(content, a, b, dropBreak);
      LabelMatch(content, a + 1, newString);
    }
  }

  lemma BlankBlock(content: string, a: nat, b: nat, dropBreak: bool)
    requires a < b <= |KeepEnds(content)|
    requires Concat(Pasted(KeepEnds(content)[a..b], dropBreak)) == ""
    ensures Numbered(Pasted(KeepEnds(content)[a..b], dropBreak), a + 1) == Label(a + 1)
  {
    var all := KeepEnds(content);
    var block := Pasted(all[a..b], dropBreak);
    KeepEndsPieces(content);
    assert all[a] in all && all[a] != "";
    assert block[0] == "" by { assert Concat(block) == block[0] + Concat(block[1..]); }
    assert |block| == 1;
    assert Numbered([], a + 2) == "" && block[1..] == [];
    assert Label(a + 1) + ("" + "") == Label(a + 1);
  }

  /** An edit given with the file's line numbers is the edit given without them. */
  lemma NumberedEditIsPlainEdit(content: string, a: nat, b: nat, dropBreak: bool, newLines: seq<string>, first: nat)
    requires '\r' !in content && '\r' !in Concat(newLines) && a < b <= |KeepEnds(content)| && ArePieces(newLines)
    requires var block := Pasted(KeepEnds(content)[a..b], dropBreak);
             Concat(block) != "" && !Contains(content, Numbered(block, a + 1))
    ensures var block := Pasted(KeepEnds(content)[a..b], dropBreak);
            EditOf(content, Numbered(block, a + 1), Numbered(newLines, first)) == EditOf(content, Concat(block), Concat(newLines))
  {
    var block := Pasted(KeepEnds(content)[a..b], dropBreak);
    var plain := Concat(block);
    PastedIsInContent(content, a, b, dropBreak);
    NoReturnInside(content, plain);
    NumberedMatch(content, block, a + 1, Numbered(newLines, first));
    NumberedHasNoReturn(newLines, first);
    NothingToNormalize(Numbered(newLines, first));
    StripUndoesNumbering(newLines, first);
    NothingToNormalize(plain);
    NothingToNormalize(Concat(newLines));
    OccursIff(content, plain);
  }

  // ---- One place changed ----

  lemma PrefixOccurs(s: string, needle: string)
    ensures needle <= s <==> OccursAt(s, needle, 0)
  {
    if |needle| <= |s| { assert s[0..|needle|] == s[..|needle|]; }
  }

  lemma OccursInTail(head: string, tail: string, needle: string, i: nat)
    ensures OccursAt(tail, needle, i) <==> OccursAt(head + tail, needle, |head| + i)
  {
    if i + |needle| <= |tail| { assert (head + tail)[|head| + i..|head| + i + |needle|] == tail[i..i + |needle|]; }
  }

  lemma {:induction false} NothingToReplace(s: string, needle: string, repl: string)
    requires needle != "" && !Contains(s, needle)
    ensures Replace(s, needle, repl) == s && Count(s, needle) == 0
    decreases |s|
  {
    if |s| >= |needle| {
      PrefixOccurs(s, needle);
      ContainsTailIff(s, needle);
      NothingToReplace(s[1..], needle, repl);
      assert s == [s[0]] + s[1..];
    }
  }

  /** The text stands at `at` and nowhere else. */
  ghost predicate StandsOnlyAt(content: string, needle: string, at: nat) {
    forall i :: OccursAt(content, needle, i) <==> i == at
  }

  lemma FirstPlace(needle: string, after: string, repl: string)
    requires needle != "" && StandsOnlyAt(needle + after, needle, 0)
    ensures Replace(needle + after, needle, repl) == repl + after && Count(needle + after, needle) == 1
  {
    var content := needle + after;
    assert needle <= content && content[|needle|..] == after;
    forall i: int ensures !OccursAt(after, needle, i) {
      if i >= 0 { OccursInTail(needle, after, needle, i); }
    }
    NothingToReplace(after, needle, repl);
  }

  /** Replacing a text that stands at one place changes that place and nothing else. */
  lemma {:induction false} ReplaceOnlyThere(before: string, needle: string, after: string, repl: string)
    requires needle != "" && StandsOnlyAt(before + (needle + after), needle, |before|)
    ensures var content := before + (needle + after);
            Replace(content, needle, repl) == before + (repl + after) && Count(content, needle) == 1
    decreases |before|
  {
    var content := before + (needle + after);
    if before == "" {
      assert content == needle + after;
      FirstPlace(needle, after, repl);
      assert before + (repl + after) == repl + after;
    } else {
      assert content[1..] == before[1..] + (needle + after);
      PrefixOccurs(content, needle);
      ShiftedPlace(content, needle, |before|);
      ReplaceOnlyThere(before[1..], needle, after, repl);
      assert before == [before[0]] + before[1..] && content[0] == before[0];
      ConcatAssoc([before[0]], before[1..], repl + after);
    }
  }

  lemma ShiftedPlace(content: string, needle: string, at: nat)
    requires content != "" && at > 0 && StandsOnlyAt(content, needle, at)
    ensures StandsOnlyAt(content[1..], needle, at - 1)
  {
    forall i ensures OccursAt(content[1..], needle, i) <==> i == at - 1 {
      if i >= 0 { OccursShift(content, needle, i); }
    }
  }

  /**
   Lines of the file, pasted as they were read with their numbers and standing in it once, are
   replaced by the new lines, and the rest of the file stays.
   */
  lemma NumberedEditChangesTheBlock(
    content: string, a: nat, b: nat, newLines: seq<string>, first: nat, before: string, after: string)
    requires '\r' !in content && '\r' !in Concat(newLines) && a < b <= |KeepEnds(content)| && ArePieces(newLines)
    requires var all := KeepEnds(content); before == Concat(all[..a]) && after == Concat(all[b..])
    requires var lines := KeepEnds(content)[a..b];
             StandsOnlyAt(content, Concat(lines), |before|) && !Contains(content, Numbered(lines, a + 1))
    ensures EditOf(content, Numbered(KeepEnds(content)[a..b], a + 1), Numbered(newLines, first))
            == Some(Edit(before + (Concat(newLines) + after), 1))
  {
    var lines := KeepEnds(content)[a..b];
    var plain := Concat(lines);
    ContentAround(content, a, b);
    KeepEndsPieces(content);
    assert KeepEnds(content)[a] in KeepEnds(content) && plain == lines[0] + Concat(lines[1..]);
    NumberedEditIsPlainEdit(content, a, b, false, newLines, first);
    PlainEdit(content, before, plain, after, Concat(newLines));
  }

  lemma PlainEdit(content: string, before: string, plain: string, after: string, repl: string)
    requires '\r' !in content && '\r' !in repl && plain != "" && content == before + (plain + after)
    requires StandsOnlyAt(content, plain, |before|)
    ensures EditOf(content, plain, repl) == Some(Edit(before + (repl + after), 1))
  {
    assert OccursAt(content, plain, |before|);
    NoReturnInside(content, plain);
    NothingToNormalize(plain);
    NothingToNormalize(repl);
    ReplaceOnlyThere(before, plain, after, repl);
  }
}
