/**
 The paths in file headers: `_convert_absolute_paths_to_relative`, `_normalize_patch_prefixes` and
 `_validate_patch_paths` (services/dev_agent/service.py:362-409, 477-507 and 332-360).
 */
module PatchPaths {
  import opened HeaderRepair
  import opened Lines
  import opened Options
  import opened Seqs
  import opened Text

  // ---- Header lines ----

  function BeforeTab(s: string): string {
    if s == "" || s[0] == '\t' then "" else [s[0]] + BeforeTab(s[1..])
  }

  function FromTab(s: string): string {
    if s == "" || s[0] == '\t' then s else FromTab(s[1..])
  }

  /** What a file header says: its name and, from the first tab on, its time stamp. */
  datatype HeaderText = HeaderText(name: string, stamp: string)

  function ReadText(rest: string): HeaderText {
    if '\t' in rest then HeaderText(Strip(BeforeTab(rest)), FromTab(rest)) else HeaderText(rest, "")
  }

  function ReadHeader(line: string): HeaderText
    requires |line| >= 4
  {
    ReadText(Strip(line[4..]))
  }

  const MARKERS: set<string> := {"/dev/null", "nul", "null"}

  predicate IsMarker(name: string) {
    Lower(name) in MARKERS
  }

  predicate HasSide(name: string) {
    StartsWith(name, "a/") || StartsWith(name, "b/")
  }

  function WithoutSide(name: string): string {
    if HasSide(name) then name[2..] else name
  }

  /** Backslashes become slashes. */
  function Slashes(name: string): (r: string)
    ensures |r| == |name| && forall i :: 0 <= i < |r| ==> r[i] == (if name[i] == '\\' then '/' else name[i])
  {
    seq(|name|, i requires 0 <= i < |name| => if name[i] == '\\' then '/' else name[i])
  }

  function Relative(norm: string): string {
    if StartsWith(norm, "/workspace/") then norm[11..]
    else if StartsWith(norm, "/") then norm[1..]
    else norm
  }

  function ConvertName(name: string): string {
    Relative(Slashes(WithoutSide(name)))
  }

  function ConvertHeader(line: string): string
    requires |line| >= 4
  {
    var h := ReadHeader(line);
    if IsMarker(h.name) then line else line[..4] + (ConvertName(h.name) + h.stamp)
  }

  function NormalizeHeader(line: string): string
    requires |line| >= 4
  {
    var h := ReadHeader(line);
    if IsMarker(h.name) then line
    else if HasSide(h.name) then line[..4] + (h.name + h.stamp)
    else line[..4] + ((if StartsWith(line, "---") then "a/" else "b/") + (h.name + h.stamp))
  }

  datatype PathError = Absolute(part: string) | Unsafe(part: string)

  function CheckHeader(line: string): Option<PathError>
    requires |line| >= 4
  {
    var name := ReadHeader(line).name;
    if IsMarker(name) then None
    else
      var part := WithoutSide(name);
      if StartsWith(Slashes(part), "/") then Some(Absolute(part))
      else if ".." in SplitOn(Slashes(part), '/') then Some(Unsafe(part))
      else None
  }

  // ---- The passes ----

  /** Whether the lines after the first `n` stand in a file's header, before its hunks. */
  predicate HeaderMode(lines: seq<string>, n: nat)
    requires n <= |lines|
  {
    n == 0 || (!StartsWith(lines[n - 1], "@@") && (IsGitLine(lines[n - 1]) || HeaderMode(lines, n - 1)))
  }

  lemma FileHeaderLength(line: string)
    requires IsFileHeader(line)
    ensures |line| >= 4
  {
    assert |"--- "| == 4 && |"+++ "| == 4;
  }

  function ConvertedLine(lines: seq<string>, k: nat): string
    requires k < |lines|
  {
    if HeaderMode(lines, k + 1) && IsFileHeader(lines[k]) then (FileHeaderLength(lines[k]); ConvertHeader(lines[k])) else lines[k]
  }

  function Converted(lines: seq<string>, n: nat): (r: seq<string>)
    requires n <= |lines|
    ensures |r| == n
  {
    if n == 0 then [] else Converted(lines, n - 1) + [ConvertedLine(lines, n - 1)]
  }

  function NormalizedLine(line: string): string {
    if IsFileHeader(line) then (FileHeaderLength(line); NormalizeHeader(line)) else line
  }

  function Normalized(lines: seq<string>, n: nat): (r: seq<string>)
    requires n <= |lines|
    ensures |r| == n
  {
    if n == 0 then [] else Normalized(lines, n - 1) + [NormalizedLine(lines[n - 1])]
  }

  function CheckedLine(lines: seq<string>, k: nat): Option<PathError>
    requires k < |lines|
  {
    if HeaderMode(lines, k + 1) && IsFileHeader(lines[k]) then (FileHeaderLength(lines[k]); CheckHeader(lines[k])) else None
  }

  function Checks(lines: seq<string>, n: nat): (r: seq<Option<PathError>>)
    requires n <= |lines|
    ensures |r| == n
  {
    if n == 0 then [] else Checks(lines, n - 1) + [CheckedLine(lines, n - 1)]
  }

  lemma {:induction false} CheckAt(lines: seq<string>, n: nat, k: nat)
    requires k < n <= |lines|
    ensures Checks(lines, n)[k] == CheckedLine(lines, k)
  {
    if k < n - 1 { CheckAt(lines, n - 1, k); }
  }

  function FirstSome<T>(es: seq<Option<T>>, k: nat): Option<T>
    requires k <= |es|
    decreases |es| - k
  {
    if k == |es| then None else if es[k].Some? then es[k] else FirstSome(es, k + 1)
  }

  /** The first refused file header. */
  function FirstError(lines: seq<string>): Option<PathError> {
    FirstSome(Checks(lines, |lines|), 0)
  }

  /** `_convert_absolute_paths_to_relative` */
  function ConvertPaths(patch: string): string {
    var lines := SplitLines(patch);
    Unsplit(Converted(lines, |lines|))
  }

  /** `_normalize_patch_prefixes` */
  function NormalizePrefixes(patch: string): string {
    var lines := SplitLines(patch);
    Unsplit(Normalized(lines, |lines|))
  }

  method ConvertAbsolutePathsToRelative(patch: string) returns (r: string)
    ensures r == ConvertPaths(patch)
  {
    var lines := SplitLines(patch);
    var out: seq<string> := [];
    var inHeader := true;
    for i := 0 to |lines|
      invariant out == Converted(lines, i) && inHeader == HeaderMode(lines, i)
    {
      var line := lines[i];
      if StartsWith(line, "@@") {
        inHeader := false;
      } else if IsGitLine(line) {
        inHeader := true;
      }
      if inHeader && IsFileHeader(line) {
        FileHeaderLength(line);
        line := ConvertHeader(line);
      }
      out := out + [line];
    }
    r := Unsplit(out);
  }

  method NormalizePatchPrefixes(patch: string) returns (r: string)
    ensures r == NormalizePrefixes(patch)
  {
    var lines := SplitLines(patch);
    var out: seq<string> := [];
    for i := 0 to |lines|
      invariant out == Normalized(lines, i)
    {
      var line := lines[i];
      if IsFileHeader(line) {
        FileHeaderLength(line);
        line := NormalizeHeader(line);
      }
      out := out + [line];
    }
    r := Unsplit(out);
  }

  method ValidatePatchPaths(patch: string) returns (error: Option<PathError>)
    ensures error == FirstError(SplitLines(patch))
  {
    var lines := SplitLines(patch);
    ghost var es := Checks(lines, |lines|);
    var inHeader := true;
    for i := 0 to |lines|
      invariant inHeader == HeaderMode(lines, i) && FirstSome(es, 0) == FirstSome(es, i)
    {
      var e;
      e, inHeader := ValidateLine(lines, i, inHeader);
      if e.Some? {
        return e;
      }
    }
    error := None;
  }

  /** The body of the loop. */
  method ValidateLine(lines: seq<string>, i: nat, inHeader: bool) returns (e: Option<PathError>, stillInHeader: bool)
    requires i < |lines| && inHeader == HeaderMode(lines, i)
    ensures e == Checks(lines, |lines|)[i] && stillInHeader == HeaderMode(lines, i + 1)
  {
    var line := lines[i];
    CheckAt(lines, |lines|, i);
    GitLineIsNoHeader(line);
    if StartsWith(line, "@@") {
      return None, false;
    }
    if IsGitLine(line) {
      return None, true;
    }
    if !inHeader || !IsFileHeader(line) {
      return None, inHeader;
    }
    FileHeaderLength(line);
    return CheckHeader(line), true;
  }

  lemma GitLineIsNoHeader(line: string)
    ensures IsGitLine(line) ==> !IsFileHeader(line)
  {
    assert "diff --git"[0] == 'd' && "--- "[0] == '-' && "+++ "[0] == '+';
  }

  // ---- Names ----

  lemma RelativeLength(norm: string)
    ensures |Relative(norm)| <= |norm|
    ensures StartsWith(norm, "/") ==> |Relative(norm)| < |norm|
    ensures !StartsWith(norm, "/") ==> Relative(norm) == norm
  {
    assert "/" <= "/workspace/";
  }

  /** A repository path that survives conversion and normalization. */
  predicate IsPlainPath(path: string) {
    && Strip(path) == path && '\\' !in path
    && !HasSide(path) && !StartsWith(path, "/") && !IsMarker(path)
  }

  function HeaderLine(newFile: bool, path: string): string {
    if newFile then "+++ b/" + path else "--- a/" + path
  }

  lemma HeaderLineParts(newFile: bool, path: string)
    ensures var line := HeaderLine(newFile, path);
            && |line| >= 6 && IsFileHeader(line) && line[4..] == (if newFile then "b/" else "a/") + path
            && line == line[..4] + line[4..] && (StartsWith(line, "---") <==> !newFile)
  {
    var line := HeaderLine(newFile, path);
    if newFile {
      assert "+++ " <= "+++ b/" <= line;
      assert line[4..] == "b/" + path;
      assert "---"[0] == '-' && line[0] == '+';
    } else {
      assert "--- " <= "--- a/" <= line;
      assert line[4..] == "a/" + path;
      assert "---" <= "--- a/" <= line;
    }
  }

  lemma {:induction false} StripRightAfter(head: string, s: string)
    requires head != "" && !IsSpace(head[|head| - 1])
    ensures StripRight(head + s) == head + StripRight(s)
  {
    if s == "" {
      assert head + s == head;
    } else if IsSpace(s[|s| - 1]) {
      assert (head + s)[..|head + s| - 1] == head + s[..|s| - 1];
      StripRightAfter(head, s[..|s| - 1]);
    }
  }

  lemma {:induction false} StripsShrink(s: string)
    ensures |Strip(s)| <= |s| && (|Strip(s)| == |s| ==> Strip(s) == s)
  {
    if s != "" && !IsSpace(s[0]) { assert StripLeft(s) == s; }
  }

  lemma StrippedRight(s: string)
    ensures Strip(s) == s ==> StripRight(s) == s
  {
    StripsShrink(s);
    if s != "" && IsSpace(s[0]) { assert |StripLeft(s)| < |s|; }
  }

  /** How a header line for the path reads. */
  lemma ReadHeaderLine(newFile: bool, path: string)
    requires '\t' !in path
    ensures var line := HeaderLine(newFile, path);
            |line| >= 4 && ReadHeader(line) == HeaderText((if newFile then "b/" else "a/") + StripRight(path), "")
  {
    var side := if newFile then "b/" else "a/";
    HeaderLineParts(newFile, path);
    var rest := side + path;
    assert !IsSpace(rest[0]) && StripLeft(rest) == rest;
    StripRightAfter(side, path);
    NoTabStripped(path);
  }

  lemma {:induction false} NoTabStripped(path: string)
    requires '\t' !in path
    ensures '\t' !in StripRight(path)
  {
    if path != "" && IsSpace(path[|path| - 1]) { NoTabStripped(path[..|path| - 1]); }
  }

  function Prefix(newFile: bool): string {
    if newFile then "+++ " else "--- "
  }

  function Side(newFile: bool): string {
    if newFile then "b/" else "a/"
  }

  lemma SideIsNoMarker(newFile: bool, path: string)
    ensures !IsMarker(Side(newFile) + path) && HasSide(Side(newFile) + path) && WithoutSide(Side(newFile) + path) == path
  {
    var name := Side(newFile) + path;
    assert Lower(name)[1] == '/' && "/dev/null"[1] == 'd' && "nul"[1] == 'u' && "null"[1] == 'u';
    assert Side(newFile) <= name;
    assert name[2..] == path;
  }

  lemma ConvertHeaderLine(newFile: bool, path: string)
    requires '\t' !in path
    ensures var line := HeaderLine(newFile, path);
            |line| >= 4 && ConvertHeader(line) == Prefix(newFile) + Relative(Slashes(StripRight(path)))
  {
    var line, name := HeaderLine(newFile, path), Side(newFile) + StripRight(path);
    ReadHeaderLine(newFile, path);
    SideIsNoMarker(newFile, StripRight(path));
    assert line[..4] == Prefix(newFile);
    assert ConvertName(name) + "" == ConvertName(name);
  }

  lemma NormalizePrefixed(newFile: bool, r: string)
    requires '\t' !in r
    ensures var line, name := Prefix(newFile) + r, Strip(r);
            |line| >= 4 && NormalizeHeader(line) ==
              if IsMarker(name) then line
              else if HasSide(name) then Prefix(newFile) + name
              else HeaderLine(newFile, name)
  {
    var line, name := Prefix(newFile) + r, Strip(r);
    assert line[4..] == r && line[..4] == Prefix(newFile);
    NoTabAnywhere(r);
    assert ReadHeader(line) == HeaderText(name, "");
    assert name + "" == name;
    assert StartsWith(line, "---") <==> !newFile by {
      if newFile { assert line[0] == '+' && "---"[0] == '-'; } else { assert "---" <= "--- " <= line; }
    }
    assert HeaderLine(newFile, name) == Prefix(newFile) + (Side(newFile) + name) by {
      if newFile {
        ConcatAssoc("+++ ", "b/", name);
        assert "+++ " + "b/" == "+++ b/";
      } else {
        ConcatAssoc("--- ", "a/", name);
        assert "--- " + "a/" == "--- a/";
      }
    }
  }

  lemma NoTabAnywhere(s: string)
    requires '\t' !in s
    ensures '\t' !in Strip(s)
  {
    var head, tail := StripParts(s);
    forall i | 0 <= i < |Strip(s)| ensures Strip(s)[i] != '\t' {
      assert (head + Strip(s) + tail)[|head| + i] == Strip(s)[i];
    }
  }

  lemma PlainConverts(path: string)
    requires IsPlainPath(path)
    ensures StripRight(path) == path && Slashes(path) == path && Relative(path) == path
  {
    StrippedRight(path);
    RelativeLength(path);
  }

  lemma ConvertedShrinks(path: string)
    ensures var r := Relative(Slashes(StripRight(path)));
            && |Strip(r)| <= |path|
            && (Strip(r) == path ==> Strip(path) == path && '\\' !in path && !StartsWith(path, "/"))
  {
    var q := StripRight(path);
    var norm := Slashes(q);
    var r := Relative(norm);
    StripsShrink(r);
    RelativeLength(norm);
    if Strip(r) == path {
      assert |r| == |norm| && |q| == |path|;
      assert r == norm == path;
      assert '\\' !in norm;
    }
  }

  lemma HeaderLengths(newFile: bool, path: string)
    ensures HeaderLine(newFile, path) == Prefix(newFile) + (Side(newFile) + path)
  {
    if newFile {
      ConcatAssoc("+++ ", "b/", path);
      assert "+++ " + "b/" == "+++ b/";
    } else {
      ConcatAssoc("--- ", "a/", path);
      assert "--- " + "a/" == "--- a/";
    }
  }

  lemma SamePrefix(p: string, a: string, b: string)
    ensures p + a == p + b <==> a == b
  {
    if p + a == p + b {
      assert (p + a)[|p|..] == a && (p + b)[|p|..] == b;
    }
  }

  /**
   Converting and then normalizing a header line "--- a/path" or "+++ b/path" gives it back exactly
   for a plain path.
   */
  lemma HeaderRoundTripIff(newFile: bool, path: string)
    requires '\t' !in path
    ensures var line := HeaderLine(newFile, path);
            |line| >= 4 && |ConvertHeader(line)| >= 4
            && (NormalizeHeader(ConvertHeader(line)) == line <==> IsPlainPath(path))
  {
    var r := Relative(Slashes(StripRight(path)));
    ConvertHeaderLine(newFile, path);
    NoTabConverted(path);
    NormalizePrefixed(newFile, r);
    ConvertedShrinks(path);
    var name := Strip(r);
    HeaderLengths(newFile, path);
    HeaderLengths(newFile, name);
    SamePrefix(Side(newFile), name, path);
    SamePrefix(Prefix(newFile), Side(newFile) + name, Side(newFile) + path);
    SamePrefix(Prefix(newFile), name, Side(newFile) + path);
    SamePrefix(Prefix(newFile), r, Side(newFile) + path);
    if IsPlainPath(path) {
      PlainConverts(path);
    } else if IsMarker(name) {
      if r == Side(newFile) + path {
        StripSide(newFile, path);
        SideIsNoMarker(newFile, StripRight(path));
      }
    }
  }

  lemma StripSide(newFile: bool, path: string)
    ensures Strip(Side(newFile) + path) == Side(newFile) + StripRight(path)
  {
    var s := Side(newFile) + path;
    assert !IsSpace(s[0]) && StripLeft(s) == s;
    StripRightAfter(Side(newFile), path);
  }

  lemma NoTabConverted(path: string)
    requires '\t' !in path
    ensures '\t' !in Relative(Slashes(StripRight(path)))
  {
    NoTabStripped(path);
    var norm := Slashes(StripRight(path));
    var r := Relative(norm);
    forall i | 0 <= i < |r| ensures r[i] != '\t' { assert r[i] == norm[i + |norm| - |r|]; }
  }

  /** A header line for a plain path is accepted exactly when no part of the path is "..". */
  lemma PlainHeaderAccepted(newFile: bool, path: string)
    requires IsPlainPath(path) && '\t' !in path
    ensures var line := HeaderLine(newFile, path);
            |line| >= 4 && (CheckHeader(line).None? <==> ".." !in SplitOn(path, '/'))
  {
    ReadHeaderLine(newFile, path);
    PlainConverts(path);
    SideIsNoMarker(newFile, path);
  }

  /** The headers the header pass inserts are those of the path, old side first, and stay as they are in the passes after it. */
  lemma InsertedHeadersStand(path: string)
    requires Strip(path) == path && '\t' !in path
    ensures var pair := HeaderPair(path);
            && pair == [HeaderLine(false, path)] + [HeaderLine(true, path)]
            && NormalizedLine(pair[0]) == pair[0] && NormalizedLine(pair[1]) == pair[1]
  {
    StrippedRight(path);
    InsertedHeaderStands(false, path);
    InsertedHeaderStands(true, path);
  }

  lemma InsertedHeaderStands(newFile: bool, path: string)
    requires StripRight(path) == path && '\t' !in path
    ensures NormalizedLine(HeaderLine(newFile, path)) == HeaderLine(newFile, path)
  {
    var line, name := HeaderLine(newFile, path), Side(newFile) + path;
    HeaderLineParts(newFile, path);
    ReadHeaderLine(newFile, path);
    SideIsNoMarker(newFile, path);
    assert name + "" == name;
  }

  lemma BeforeTabAfterSide(newFile: bool, q: string)
    ensures BeforeTab(Side(newFile) + q) == Side(newFile) + BeforeTab(q)
  {
    var s := Side(newFile) + q;
    assert s[1..][1..] == q && s[1..][0] == '/';
    assert Side(newFile) + BeforeTab(q) == [s[0]] + (['/'] + BeforeTab(q));
  }

  /** Reading a header keeps the side of its name. */
  lemma SideIsRead(newFile: bool, rest: string)
    ensures HasSide(ReadText(Strip(Side(newFile) + rest)).name)
  {
    var q := StripRight(rest);
    StripSide(newFile, rest);
    SideIsNoMarker(newFile, q);
    BeforeTabAfterSide(newFile, q);
    StripSide(newFile, BeforeTab(q));
    SideIsNoMarker(newFile, StripRight(BeforeTab(q)));
  }

  lemma WholeHeader(line: string, text: string)
    requires |line| >= 4
    ensures line[..4] + text == line <==> line[4..] == text
  {
    SamePrefix(line[..4], text, line[4..]);
    assert line == line[..4] + line[4..];
  }

  /**
   The prefix pass leaves a line that looks like a file header alone exactly when its name is a null
   marker, or has its side and no spaces around it.
   */
  lemma NormalizedStaysIff(line: string)
    requires IsFileHeader(line)
    ensures |line| >= 4
    ensures var h := ReadHeader(line);
            NormalizedLine(line) == line <==> IsMarker(h.name) || (HasSide(h.name) && line[4..] == h.name + h.stamp)
  {
    FileHeaderLength(line);
    var h := ReadHeader(line);
    var newFile := !StartsWith(line, "---");
    WholeHeader(line, h.name + h.stamp);
    WholeHeader(line, Side(newFile) + (h.name + h.stamp));
    if line[4..] == Side(newFile) + (h.name + h.stamp) { SideIsRead(newFile, h.name + h.stamp); }
  }

  // ---- Lines stay lines ----

  lemma {:induction false} TabPartsAreLines(s: string)
    requires IsLine(s)
    ensures IsLine(BeforeTab(s)) && IsLine(FromTab(s))
  {
    if s != "" && s[0] != '\t' { TabPartsAreLines(s[1..]); }
  }

  lemma ReadHeaderIsLine(line: string)
    requires |line| >= 4 && IsLine(line)
    ensures IsLine(ReadHeader(line).name) && IsLine(ReadHeader(line).stamp)
  {
    var rest := Strip(line[4..]);
    StripIsLine(line[4..]);
    TabPartsAreLines(rest);
    StripIsLine(BeforeTab(rest));
  }

  lemma ConvertNameIsLine(name: string)
    requires IsLine(name)
    ensures IsLine(ConvertName(name))
  {
    var norm := Slashes(WithoutSide(name));
    assert IsLine(norm);
  }

  lemma JoinedIsLine(a: string, b: string, c: string)
    requires IsLine(a) && IsLine(b) && IsLine(c)
    ensures IsLine(a + (b + c)) && |a + (b + c)| >= |a|
  {
  }

  lemma ConvertedHeaderStays(line: string)
    requires |line| >= 4 && IsLine(line)
    ensures IsLine(ConvertHeader(line)) && ConvertHeader(line) != ""
  {
    var h := ReadHeader(line);
    ReadHeaderIsLine(line);
    ConvertNameIsLine(h.name);
    JoinedIsLine(line[..4], ConvertName(h.name), h.stamp);
  }

  lemma NormalizedHeaderStays(line: string)
    requires |line| >= 4 && IsLine(line)
    ensures IsLine(NormalizeHeader(line)) && NormalizeHeader(line) != ""
  {
    var h := ReadHeader(line);
    ReadHeaderIsLine(line);
    JoinedIsLine("", h.name, h.stamp);
    JoinedIsLine(line[..4], h.name, h.stamp);
    JoinedIsLine(line[..4], "a/", h.name + h.stamp);
    JoinedIsLine(line[..4], "b/", h.name + h.stamp);
  }

  lemma ConvertedLineStays(lines: seq<string>, k: nat)
    requires k < |lines| && IsLine(lines[k])
    ensures IsLine(ConvertedLine(lines, k)) && (lines[k] != "" ==> ConvertedLine(lines, k) != "")
  {
    if IsFileHeader(lines[k]) {
      FileHeaderLength(lines[k]);
      ConvertedHeaderStays(lines[k]);
    }
  }

  lemma NormalizedLineStays(line: string)
    requires IsLine(line)
    ensures IsLine(NormalizedLine(line)) && (line != "" ==> NormalizedLine(line) != "")
  {
    if IsFileHeader(line) {
      FileHeaderLength(line);
      NormalizedHeaderStays(line);
    }
  }

  lemma ConvertedAreLines(lines: seq<string>, n: nat)
    requires n <= |lines| && AreLines(lines)
    ensures AreLines(Converted(lines, n))
  {
    forall k | 0 <= k < n ensures IsLine(Converted(lines, n)[k]) {
      ConvertedAt(lines, n, k);
      ConvertedLineStays(lines, k);
    }
  }

  lemma NormalizedAreLines(lines: seq<string>, n: nat)
    requires n <= |lines| && AreLines(lines)
    ensures AreLines(Normalized(lines, n))
  {
    forall k | 0 <= k < n ensures IsLine(Normalized(lines, n)[k]) {
      NormalizedAt(lines, n, k);
      NormalizedLineStays(lines[k]);
    }
  }

  lemma {:induction false} ConvertedAt(lines: seq<string>, n: nat, k: nat)
    requires k < n <= |lines|
    ensures Converted(lines, n)[k] == ConvertedLine(lines, k)
  {
    if k < n - 1 { ConvertedAt(lines, n - 1, k); }
  }

  lemma {:induction false} NormalizedAt(lines: seq<string>, n: nat, k: nat)
    requires k < n <= |lines|
    ensures Normalized(lines, n)[k] == NormalizedLine(lines[k])
  {
    if k < n - 1 { NormalizedAt(lines, n - 1, k); }
  }
}
