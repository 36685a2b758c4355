/** When converting the paths of a patch a second time changes nothing (services/dev_agent/service.py:362-409). */
module PathsTwice {
  import opened HeaderRepair
  import opened Lines
  import opened PatchPaths
  import opened Text

  predicate IsSlash(c: char) {
    c == '/' || c == '\\'
  }

  function AfterSlash(rest: string): string {
    if StartsWith(Slashes(rest), "/workspace/") then rest[11..]
    else if rest != "" && IsSlash(rest[0]) then rest[1..]
    else rest
  }

  /** The name behind its side and the slash or "/workspace/" that follows. */
  function Behind(name: string): string {
    AfterSlash(WithoutSide(name))
  }

  /** It begins with no space, no second slash and no second side. */
  predicate BeginsBare(rest: string) {
    && rest != "" && !IsSpace(rest[0]) && !IsSlash(rest[0])
    && !((rest[0] == 'a' || rest[0] == 'b') && |rest| > 1 && IsSlash(rest[1]))
  }

  /** What a converted header names. */
  function ShownName(rest: string, stamp: string): string {
    if rest != "" then Strip(Slashes(rest)) else ReadText(Strip(stamp)).name
  }

  /** The header is a null marker, or turns into one, or nothing more can be taken off its name. */
  predicate IsSettled(h: HeaderText) {
    || IsMarker(h.name)
    || IsMarker(ShownName(Behind(h.name), h.stamp))
    || BeginsBare(Behind(h.name))
    || (Behind(h.name) == "" && h.stamp == "")
  }

  // ---- One header ----

  lemma ConvertIsSlashed(name: string)
    ensures ConvertName(name) == Slashes(Behind(name))
  {
    var rest := WithoutSide(name);
    var norm := Slashes(rest);
    assert StartsWith(norm, "/") <==> rest != "" && IsSlash(rest[0]);
    if StartsWith(norm, "/workspace/") {
      assert norm[11..] == Slashes(rest[11..]);
    } else if StartsWith(norm, "/") {
      assert norm[1..] == Slashes(rest[1..]);
    }
  }

  lemma {:induction false} StripRightFirst(s: string)
    ensures StripRight(s) != "" ==> s != "" && StripRight(s)[0] == s[0]
  {
    if s != "" && IsSpace(s[|s| - 1]) { StripRightFirst(s[..|s| - 1]); }
  }

  /** No spaces at the ends. */
  predicate IsTrim(s: string) {
    s != "" ==> !IsSpace(s[0]) && !IsSpace(s[|s| - 1])
  }

  lemma StripIsTrim(s: string)
    ensures IsTrim(Strip(s))
  {
    StripRightFirst(StripLeft(s));
  }

  lemma TrimIsStripped(s: string)
    requires IsTrim(s)
    ensures Strip(s) == s
  {
  }

  lemma {:induction false} FromTabEnds(s: string)
    requires '\t' in s
    ensures var t := FromTab(s); t != "" && t[0] == '\t' && t[|t| - 1] == s[|s| - 1]
    ensures '\t' !in BeforeTab(s) && |BeforeTab(s)| + |FromTab(s)| == |s|
  {
    if s[0] != '\t' { FromTabEnds(s[1..]); }
  }

  /** What reading a header gives: a trimmed name without tabs, and no stamp or one from a tab to a character. */
  predicate IsRead(h: HeaderText) {
    && IsTrim(h.name) && '\t' !in h.name
    && (h.stamp != "" ==> h.stamp[0] == '\t' && !IsSpace(h.stamp[|h.stamp| - 1]))
  }

  lemma ReadTextGives(rest: string)
    requires IsTrim(rest)
    ensures IsRead(ReadText(rest)) && |ReadText(rest).name| + |ReadText(rest).stamp| <= |rest|
  {
    if '\t' in rest {
      FromTabEnds(rest);
      StripIsTrim(BeforeTab(rest));
      NoTabAnywhere(BeforeTab(rest));
      StripsShrink(BeforeTab(rest));
    }
  }

  lemma ReadHeaderGives(line: string)
    requires |line| >= 4
    ensures IsRead(ReadHeader(line))
  {
    StripIsTrim(line[4..]);
    ReadTextGives(Strip(line[4..]));
  }

  /** An end of the name. */
  predicate IsTail(s: string, rest: string) {
    exists n: nat :: n <= |s| && rest == s[n..]
  }

  lemma WithoutSideIsTail(name: string)
    ensures IsTail(name, WithoutSide(name))
  {
    assert name == name[0..];
    if HasSide(name) { SideStarts(name); }
  }

  lemma AfterSlashIsTail(rest: string)
    ensures IsTail(rest, AfterSlash(rest))
  {
    assert rest == rest[0..] && |"/workspace/"| == 11;
  }

  lemma TailOfTail(s: string, t: string, u: string)
    requires IsTail(s, t) && IsTail(t, u)
    ensures IsTail(s, u)
  {
    var n: nat :| n <= |s| && t == s[n..];
    var k: nat :| k <= |t| && u == t[k..];
    assert u == s[n + k..];
  }

  lemma TailEnds(s: string, rest: string)
    requires IsTail(s, rest) && IsTrim(s) && '\t' !in s && rest != ""
    ensures '\t' !in rest && !IsSpace(rest[|rest| - 1])
  {
  }

  lemma SlashedEnds(rest: string)
    requires rest != "" && '\t' !in rest && !IsSpace(rest[|rest| - 1])
    ensures var m := Slashes(rest); '\t' !in m && !IsSpace(m[|m| - 1])
  {
  }

  lemma BehindEnds(name: string)
    requires IsTrim(name) && '\t' !in name && Behind(name) != ""
    ensures var m := Slashes(Behind(name)); '\t' !in m && !IsSpace(m[|m| - 1])
  {
    WithoutSideIsTail(name);
    AfterSlashIsTail(WithoutSide(name));
    TailOfTail(name, WithoutSide(name), Behind(name));
    TailEnds(name, Behind(name));
    SlashedEnds(Behind(name));
  }

  lemma {:induction false} StripLeftKeepsEnd(m: string, stamp: string)
    requires m != "" && !IsSpace(m[|m| - 1])
    ensures StripLeft(m + stamp) == StripLeft(m) + stamp && StripLeft(m) != ""
    ensures var r := StripLeft(m); r[|r| - 1] == m[|m| - 1]
    ensures '\t' !in m ==> '\t' !in StripLeft(m)
  {
    if IsSpace(m[0]) {
      assert (m + stamp)[1..] == m[1..] + stamp;
      StripLeftKeepsEnd(m[1..], stamp);
    }
  }

  lemma {:induction false} TabSplits(a: string, stamp: string)
    requires '\t' !in a && stamp != "" && stamp[0] == '\t'
    ensures BeforeTab(a + stamp) == a && FromTab(a + stamp) == stamp
  {
    if a == "" {
      assert a + stamp == stamp;
    } else {
      assert (a + stamp)[1..] == a[1..] + stamp;
      TabSplits(a[1..], stamp);
      assert a == [a[0]] + a[1..];
    }
  }

  lemma RightStays(s: string)
    requires s != "" && !IsSpace(s[|s| - 1])
    ensures StripRight(s) == s
  {
  }

  lemma ReadSplit(left: string, stamp: string)
    requires '\t' !in left && Strip(left) == left && stamp != "" && stamp[0] == '\t'
    ensures ReadText(left + stamp) == HeaderText(left, stamp)
  {
    TabSplits(left, stamp);
    assert (left + stamp)[|left|] == '\t';
  }

  lemma RightOfBoth(left: string, stamp: string)
    requires left != "" && !IsSpace(left[|left| - 1])
    requires stamp != "" ==> !IsSpace(stamp[|stamp| - 1])
    ensures StripRight(left + stamp) == left + stamp && StripRight(left) == left
  {
    RightStays(left);
    RightStays(left + stamp);
  }

  lemma ReadBoth(left: string, stamp: string)
    requires '\t' !in left && Strip(left) == left && (stamp != "" ==> stamp[0] == '\t')
    ensures ReadText(left + stamp) == HeaderText(left, stamp)
  {
    if stamp == "" {
      assert left + stamp == left;
    } else {
      ReadSplit(left, stamp);
    }
  }

  lemma LeftPart(m: string, stamp: string)
    requires m != "" && !IsSpace(m[|m| - 1]) && '\t' !in m
    requires stamp != "" ==> !IsSpace(stamp[|stamp| - 1])
    ensures var left := StripLeft(m);
            && StripLeft(m + stamp) == left + stamp && StripRight(left + stamp) == left + stamp
            && Strip(left) == left && Strip(m) == left && '\t' !in left
  {
    StripLeftKeepsEnd(m, stamp);
    RightOfBoth(StripLeft(m), stamp);
    TrimIsStripped(StripLeft(m));
  }

  /** Reading a converted header whose name is not empty. */
  lemma ReadConverted(m: string, stamp: string)
    requires m != "" && !IsSpace(m[|m| - 1]) && '\t' !in m
    requires stamp != "" ==> stamp[0] == '\t' && !IsSpace(stamp[|stamp| - 1])
    ensures ReadText(Strip(m + stamp)) == HeaderText(Strip(m), stamp) && Strip(m) == StripLeft(m)
  {
    LeftPart(m, stamp);
    ReadBoth(Strip(m), stamp);
  }

  lemma SlashesSettle(rest: string)
    requires rest != ""
    ensures var m := Slashes(rest);
            ConvertName(StripLeft(m)) == m <==> BeginsBare(rest)
  {
    var m := Slashes(rest);
    var left := StripLeft(m);
    ConvertIsSlashed(left);
    assert IsSpace(m[0]) <==> IsSpace(rest[0]);
    if !IsSpace(m[0]) {
      assert left == m && Slashes(m) == m;
      assert HasSide(m) <==> (rest[0] == 'a' || rest[0] == 'b') && |rest| > 1 && IsSlash(rest[1]) by { SideStarts(m); }
    } else {
      assert |Behind(left)| <= |left| < |m|;
    }
  }

  lemma SideStarts(m: string)
    ensures HasSide(m) <==> |m| > 1 && (m[0] == 'a' || m[0] == 'b') && m[1] == '/'
  {
    assert "a/"[0] == 'a' && "a/"[1] == '/' && "b/"[0] == 'b' && "b/"[1] == '/';
  }

  /** Converting a name with its stamp again. */
  lemma NameTwice(h: HeaderText, prefix: string)
    requires |prefix| == 4 && IsRead(h) && !IsMarker(h.name)
    ensures var c := prefix + (ConvertName(h.name) + h.stamp);
            |c| >= 4 && (ConvertHeader(c) == c <==> IsSettled(h))
  {
    ConvertIsSlashed(h.name);
    if Behind(h.name) != "" { FullNameTwice(h, prefix); } else { EmptyNameTwice(h, prefix); }
  }

  lemma Again(prefix: string, text: string, again: HeaderText)
    requires |prefix| == 4 && ReadText(Strip(text)) == again
    ensures var c := prefix + text;
            && |c| >= 4
            && (ConvertHeader(c) == c <==> IsMarker(again.name) || ConvertName(again.name) + again.stamp == text)
  {
    var c := prefix + text;
    assert c[4..] == text && c[..4] == prefix;
    SamePrefix(prefix, ConvertName(again.name) + again.stamp, text);
  }

  lemma AgainWithStamp(prefix: string, m: string, stamp: string)
    requires |prefix| == 4 && ReadText(Strip(m + stamp)) == HeaderText(Strip(m), stamp)
    ensures var c := prefix + (m + stamp);
            |c| >= 4 && (ConvertHeader(c) == c <==> IsMarker(Strip(m)) || ConvertName(Strip(m)) == m)
  {
    Again(prefix, m + stamp, HeaderText(Strip(m), stamp));
    SameSuffix(ConvertName(Strip(m)), m, stamp);
  }

  lemma FullNameTwice(h: HeaderText, prefix: string)
    requires |prefix| == 4 && IsRead(h) && !IsMarker(h.name) && Behind(h.name) != ""
    ensures var c := prefix + (Slashes(Behind(h.name)) + h.stamp);
            |c| >= 4 && (ConvertHeader(c) == c <==> IsSettled(h))
  {
    var rest := Behind(h.name);
    BehindEnds(h.name);
    ReadConverted(Slashes(rest), h.stamp);
    AgainWithStamp(prefix, Slashes(rest), h.stamp);
    SlashesSettle(rest);
  }

  lemma SameSuffix(a: string, b: string, c: string)
    ensures a + c == b + c <==> a == b
  {
    if a + c == b + c {
      assert |a| == |b| && (a + c)[..|a|] == a && (b + c)[..|b|] == b;
    }
  }

  lemma EmptyNameTwice(h: HeaderText, prefix: string)
    requires |prefix| == 4 && IsRead(h) && !IsMarker(h.name) && Behind(h.name) == ""
    ensures var c := prefix + (Slashes("") + h.stamp);
            |c| >= 4 && (ConvertHeader(c) == c <==> IsSettled(h))
  {
    var stamp := h.stamp;
    assert Slashes("") + stamp == stamp;
    Again(prefix, stamp, ReadText(Strip(stamp)));
    if stamp == "" {
      EmptyConverts();
    } else {
      StampShrinks(stamp);
    }
  }

  lemma StampShrinks(stamp: string)
    requires stamp != "" && stamp[0] == '\t'
    ensures var again := ReadText(Strip(stamp));
            |ConvertName(again.name) + again.stamp| < |stamp|
  {
    assert |StripLeft(stamp)| < |stamp|;
    StripRightShrinks(StripLeft(stamp));
    StripIsTrim(stamp);
    ReadTextGives(Strip(stamp));
    ConvertShrinks(ReadText(Strip(stamp)).name);
  }

  lemma EmptyConverts()
    ensures ConvertName("") == ""
  {
    assert |"a/"| == 2 && |"b/"| == 2 && |"/"| == 1 && |"/workspace/"| == 11;
  }

  lemma ConvertShrinks(name: string)
    ensures |ConvertName(name)| <= |name|
  {
    ConvertIsSlashed(name);
  }

  lemma StripRightShrinks(s: string)
    ensures |StripRight(s)| <= |s|
  {
  }

  /** A header line converted twice. */
  lemma HeaderTwice(line: string)
    requires |line| >= 4
    ensures var c := ConvertHeader(line);
            |c| >= 4 && c[..4] == line[..4] && (ConvertHeader(c) == c <==> IsSettled(ReadHeader(line)))
  {
    ReadHeaderGives(line);
    if !IsMarker(ReadHeader(line).name) { NameTwice(ReadHeader(line), line[..4]); }
  }

  // ---- The pass ----

  /** Every file header outside hunks is settled. */
  ghost predicate AllSettled(lines: seq<string>) {
    forall k {:trigger SettledAt(lines, k)} :: 0 <= k < |lines| ==> SettledAt(lines, k)
  }

  predicate SettledAt(lines: seq<string>, k: int)
    requires 0 <= k < |lines|
  {
    SettledIn(HeaderMode(lines, k + 1), lines[k])
  }

  predicate SettledIn(header: bool, line: string) {
    header && IsFileHeader(line) ==> (FileHeaderLength(line); IsSettled(ReadHeader(line)))
  }

  lemma SamePrefixSameKind(a: string, b: string)
    requires IsFileHeader(a) && |b| >= 4 && b[..4] == a[..4]
    ensures IsFileHeader(b) && !StartsWith(b, "@@") && !IsGitLine(b) && !StartsWith(a, "@@") && !IsGitLine(a)
  {
    FileHeaderLength(a);
    assert "--- " <= a ==> a[..4] == "--- ";
    assert "+++ " <= a ==> a[..4] == "+++ ";
    assert a[0] == a[..4][0] && b[0] == b[..4][0];
    assert b == b[..4] + b[4..];
    assert "@@"[0] == '@' && "diff --git"[0] == 'd' && "--- "[0] == '-' && "+++ "[0] == '+';
  }

  predicate SameKind(a: string, b: string) {
    (StartsWith(a, "@@") <==> StartsWith(b, "@@")) && (IsGitLine(a) <==> IsGitLine(b))
  }

  /** A converted line is of the same kind. */
  lemma ConvertedKind(lines: seq<string>, k: nat)
    requires k < |lines|
    ensures SameKind(ConvertedLine(lines, k), lines[k])
  {
    if HeaderMode(lines, k + 1) && IsFileHeader(lines[k]) {
      FileHeaderLength(lines[k]);
      HeaderTwice(lines[k]);
      SamePrefixSameKind(lines[k], ConvertHeader(lines[k]));
    }
  }

  lemma {:induction false} SameKindsSameMode(a: seq<string>, b: seq<string>, n: nat)
    requires n <= |a| == |b| && forall k :: 0 <= k < n ==> SameKind(a[k], b[k])
    ensures HeaderMode(a, n) == HeaderMode(b, n)
  {
    if n > 0 {
      assert SameKind(a[n - 1], b[n - 1]);
      SameKindsSameMode(a, b, n - 1);
    }
  }

  lemma SameMode(lines: seq<string>, n: nat)
    requires n <= |lines|
    ensures HeaderMode(Converted(lines, |lines|), n) == HeaderMode(lines, n)
  {
    var c := Converted(lines, |lines|);
    forall k | 0 <= k < n ensures SameKind(c[k], lines[k]) {
      ConvertedAt(lines, |lines|, k);
      ConvertedKind(lines, k);
    }
    SameKindsSameMode(c, lines, n);
  }

  /** What the pass makes of one line. */
  function LineIn(header: bool, line: string): string {
    if header && IsFileHeader(line) then (FileHeaderLength(line); ConvertHeader(line)) else line
  }

  lemma LineInTwice(header: bool, line: string)
    ensures var c := LineIn(header, line);
            LineIn(header, c) == c <==> SettledIn(header, line)
  {
    if header && IsFileHeader(line) {
      FileHeaderLength(line);
      HeaderTwice(line);
      SamePrefixSameKind(line, ConvertHeader(line));
    }
  }

  lemma ConvertedIsLineIn(lines: seq<string>, k: nat)
    requires k < |lines|
    ensures Converted(lines, |lines|)[k] == LineIn(HeaderMode(lines, k + 1), lines[k])
  {
    ConvertedAt(lines, |lines|, k);
  }

  lemma ConvertedTwiceAt(lines: seq<string>, c: seq<string>, k: nat)
    requires k < |lines| && c == Converted(lines, |lines|)
    ensures Converted(c, |c|)[k] == LineIn(HeaderMode(lines, k + 1), c[k])
  {
    ConvertedIsLineIn(c, k);
    SameMode(lines, k + 1);
  }

  lemma LineTwice(lines: seq<string>, k: nat)
    requires k < |lines|
    ensures var c := Converted(lines, |lines|);
            Converted(c, |c|)[k] == c[k] <==> SettledAt(lines, k)
  {
    ConvertedIsLineIn(lines, k);
    ConvertedTwiceAt(lines, Converted(lines, |lines|), k);
    LineInTwice(HeaderMode(lines, k + 1), lines[k]);
  }

  lemma LinesTwiceIff(lines: seq<string>)
    ensures var c := Converted(lines, |lines|);
            Converted(c, |c|) == c <==> AllSettled(lines)
  {
    var c := Converted(lines, |lines|);
    var d := Converted(c, |c|);
    forall k | 0 <= k < |lines| ensures d[k] == c[k] <==> SettledAt(lines, k) { LineTwice(lines, k); }
    if AllSettled(lines) {
      forall k | 0 <= k < |lines| ensures d[k] == c[k] { assert SettledAt(lines, k); }
    }
  }

  lemma DifferentLinesDifferentTexts(a: seq<string>, b: seq<string>)
    requires a != [] && b != [] && AreLines(a) && AreLines(b)
    ensures Unsplit(a) == Unsplit(b) <==> a == b
  {
    SplitUnsplit(a);
    SplitUnsplit(b);
  }

  /** The converted lines, and that the last one is empty exactly when the patch's last one is. */
  lemma ConvertedLines(patch: string)
    ensures var lines := SplitLines(patch);
            var c := Converted(lines, |lines|);
            && AreLines(c) && ConvertPaths(patch) == Unsplit(c)
            && (lines != [] ==> (c[|c| - 1] == "" <==> lines[|lines| - 1] == ""))
  {
    var lines := SplitLines(patch);
    UnsplitSplitLines(patch);
    ConvertedAreLines(lines, |lines|);
    if lines != [] {
      ConvertedAt(lines, |lines|, |lines| - 1);
      ConvertedLineStays(lines, |lines| - 1);
      ConvertedKind(lines, |lines| - 1);
      BlankIsNoHeader(lines[|lines| - 1]);
    }
  }

  lemma BlankIsNoHeader(line: string)
    ensures IsFileHeader(line) ==> line != ""
  {
    assert |"--- "| == 4 && |"+++ "| == 4;
  }

  /** Reading the joined lines again, unless the last one is blank. */
  lemma ReadAgain(c: seq<string>)
    requires AreLines(c) && (c != [] ==> c[|c| - 1] != "")
    ensures ConvertPaths(Unsplit(c)) == Unsplit(c) <==> Converted(c, |c|) == c
  {
    SplitLinesUnsplit(c);
    ConvertedAreLines(c, |c|);
    if c != [] { DifferentLinesDifferentTexts(Converted(c, |c|), c); }
  }

  /** A blank line at the end is lost. */
  lemma BlankIsLost(c: seq<string>)
    requires AreLines(c) && |c| > 1 && c[|c| - 1] == ""
    ensures ConvertPaths(Unsplit(c)) != Unsplit(c)
  {
    var shorter := c[..|c| - 1];
    SplitLinesUnsplit(c);
    ConvertedAreLines(shorter, |shorter|);
    DifferentLinesDifferentTexts(Converted(shorter, |shorter|), c);
  }

  lemma OneBlankLine()
    ensures Converted([""], 1) == [""] && AllSettled([""]) && Unsplit([""]) == "" && ConvertPaths("") == ""
  {
    BlankIsNoHeader("");
    assert Split("") == [""];
  }

  /**
   Converting a converted patch changes nothing exactly when the patch does not end in a blank line
   and every file header outside its hunks is settled: behind its first side and the slash or
   "/workspace/" after it there is no second side or slash.
   */
  lemma ConvertTwiceIff(patch: string)
    ensures ConvertPaths(ConvertPaths(patch)) == ConvertPaths(patch) <==> !EndsInBlankLine(patch) && AllSettled(SplitLines(patch))
  {
    var lines := SplitLines(patch);
    ConvertedLines(patch);
    BlankLast(patch);
    if EndsInBlankLine(patch) {
      BlankIsLost(Converted(lines, |lines|));
    } else if lines == [""] {
      OneBlankLine();
    } else {
      LinesTwiceIff(lines);
      ReadAgain(Converted(lines, |lines|));
    }
  }

  lemma HeaderAtStart(line: string)
    requires IsFileHeader(line)
    ensures |line| >= 4 && Converted([line], 1) == [ConvertHeader(line)]
  {
    FileHeaderLength(line);
    SamePrefixSameKind(line, line);
    assert HeaderMode([line], 0);
    assert HeaderMode([line], 1);
  }

  lemma OneLineConverts(line: string)
    requires IsLine(line) && IsFileHeader(line)
    ensures |line| >= 4 && ConvertPaths(line) == ConvertHeader(line)
  {
    HeaderAtStart(line);
    SplitLine(line);
    BlankIsNoHeader(line);
  }

  lemma HeaderLineIsLine(newFile: bool, path: string)
    requires IsLine(path)
    ensures IsLine(HeaderLine(newFile, path)) && IsFileHeader(HeaderLine(newFile, path))
  {
    HeaderLineParts(newFile, path);
  }

  lemma OneHeaderConverts(newFile: bool, path: string)
    requires IsLine(path) && '\t' !in path
    ensures ConvertPaths(HeaderLine(newFile, path)) == Prefix(newFile) + Relative(Slashes(StripRight(path)))
  {
    HeaderLineIsLine(newFile, path);
    OneLineConverts(HeaderLine(newFile, path));
    ConvertHeaderLine(newFile, path);
  }

  lemma NoSlashStays(path: string)
    requires path != "" && path[0] != '/'
    ensures Relative(path) == path
  {
    assert "/"[0] == '/' && "/workspace/"[0] == '/';
  }

  lemma SmallHeaderConverts(path: string)
    requires IsLine(path) && '\t' !in path && '\\' !in path && path != "" && path[0] != '/' && !IsSpace(path[|path| - 1])
    ensures ConvertPaths("--- a/" + path) == "--- " + path
  {
    NoSlashStays(path);
    assert Slashes(path) == path;
    OneHeaderConverts(false, path);
  }

  lemma SmallHeaders()
    ensures "--- a/" + "a/x" == "--- a/a/x" && "--- a/" + "x" == "--- a/x"
    ensures "--- " + "a/x" == "--- a/x" && "--- " + "x" == "--- x"
  {
  }

  /** A path behind two sides loses one with each pass. */
  lemma SecondSideGoesToo()
    ensures ConvertPaths("--- a/a/x") == "--- a/x" && ConvertPaths("--- a/x") == "--- x"
  {
    SmallHeaders();
    assert ConvertPaths("--- a/" + "a/x") == "--- " + "a/x" by { SmallHeaderConverts("a/x"); }
    assert ConvertPaths("--- a/" + "x") == "--- " + "x" by { SmallHeaderConverts("x"); }
  }
}
