/** When the passes of `apply_patch` leave a well-formed diff as it is, and what they spoil. */
module DiffsKept {
  import opened Decimal
  import opened HunkCounts
  import opened LineNumbers
  import opened Lines
  import opened Options
  import opened PatchPaths
  import opened PatchPipeline
  import opened Text
  import opened WellFormedDiff
  import HeaderRepair
  import PatchCleanup

  // ---- What becomes of a line ----

  /** The same line, or two file headers that begin the same. */
  predicate Alike(a: string, b: string) {
    a == b || (HeaderRepair.IsFileHeader(a) && |a| >= 4 && |b| >= 4 && b[..4] == a[..4])
  }

  lemma AlikeHeaders(a: string, b: string, c: string)
    requires Alike(a, b) && Alike(b, c)
    ensures Alike(a, c)
  {
  }

  lemma ConvertedAlike(lines: seq<string>, k: nat)
    requires k < |lines|
    ensures Alike(lines[k], Converted(lines, |lines|)[k])
  {
    ConvertedAt(lines, |lines|, k);
    if HeaderMode(lines, k + 1) && HeaderRepair.IsFileHeader(lines[k]) {
      FileHeaderLength(lines[k]);
      HeaderBegins(lines[k]);
    }
  }

  lemma HeaderBegins(line: string)
    requires |line| >= 4
    ensures |ConvertHeader(line)| >= 4 && ConvertHeader(line)[..4] == line[..4]
    ensures |NormalizeHeader(line)| >= 4 && NormalizeHeader(line)[..4] == line[..4]
  {
  }

  lemma NormalizedAlike(lines: seq<string>, k: nat)
    requires k < |lines|
    ensures Alike(lines[k], Normalized(lines, |lines|)[k])
  {
    NormalizedAt(lines, |lines|, k);
    if HeaderRepair.IsFileHeader(lines[k]) {
      FileHeaderLength(lines[k]);
      HeaderBegins(lines[k]);
    }
  }

  /** When the header pass adds no line, the passes before the counts change the tails of file headers only. */
  lemma PreparedAlike(lines: seq<string>, k: nat)
    requires |PreparedLines(lines)| == |lines| && k < |lines|
    ensures Alike(lines[k], PreparedLines(lines)[k])
  {
    var converted := Converted(lines, |lines|);
    HeaderRepair.NothingAddedIff(converted);
    ConvertedAlike(lines, k);
    NormalizedAlike(converted, k);
    AlikeHeaders(lines[k], converted[k], PreparedLines(lines)[k]);
  }

  // ---- Copied line numbers ----

  lemma LabelFirst(s: string)
    requires LabelRest(s).Some?
    ensures s != "" && (IsSpace(s[0]) || IsDigit(s[0]))
  {
  }

  lemma FileHeaderSigns(s: string)
    requires HeaderRepair.IsFileHeader(s)
    ensures |s| >= 4 && (s[1] == '-' || s[1] == '+') && s[0] == s[1]
  {
    FileHeaderLength(s);
    assert "--- "[0] == "--- "[1] == '-' && "+++ "[0] == "+++ "[1] == '+';
  }

  /** How a line that carries a number differs from the cleaned one. */
  lemma CleanedBegins(line: string)
    requires IsLine(line) && !PatchCleanup.IsHeading(line) && PatchCleanup.Unnumbered(line).Some?
    ensures var c := PatchCleanup.CleanLine(line);
            && c != "" && PatchCleanup.IsSign(c[0]) && |c| < |line|
            && (c[0] == ' ' || (c[0] == line[0] && |line| > 1 && (IsSpace(line[1]) || IsDigit(line[1]))))
  {
    PatchCleanup.CleanLineFacts(line);
    if line != "" && PatchCleanup.IsSign(line[0]) {
      LabelFirst(line[1..]);
    }
  }

  lemma NumberedChanges(line: string, c: string, f: string)
    requires c != "" && PatchCleanup.IsSign(c[0]) && |c| < |line| && Alike(c, f)
    requires c[0] == ' ' || (c[0] == line[0] && |line| > 1 && (IsSpace(line[1]) || IsDigit(line[1])))
    ensures f != line && !StartsWith(f, "@@")
  {
    if c != f {
      FileHeaderSigns(c);
      assert f[0] == f[..4][0] && f[1] == f[..4][1];
    }
    assert "@@"[0] == '@';
  }

  /** A line that loses its number never comes back. */
  lemma ContaminatedChanges(lines: seq<string>)
    requires AreLines(lines) && PatchCleanup.IsContaminated(lines)
    ensures Repaired(PreparedLines(CleanedLines(lines))) != lines
  {
    var k := PatchCleanup.SomeNumbered(lines, |lines|);
    var cleaned := CleanedLines(lines);
    var prepared := PreparedLines(cleaned);
    if |prepared| == |lines| {
      PreparedAlike(cleaned, k);
      PatchCleanup.CleanedAt(lines, |lines|, k);
      CleanedBegins(lines[k]);
      NumberedChanges(lines[k], cleaned[k], prepared[k]);
      NoHeaderHere(prepared, k);
    }
  }

  // ---- Body lines that look like file headers ----

  lemma AlikeClass(a: string, b: string)
    requires Alike(a, b)
    ensures var x, y := ClassOf(a), ClassOf(b); x.stops == y.stops && x.old_ == y.old_ && x.new_ == y.new_
  {
    if a != b {
      FileHeaderSigns(a);
      SameStart(a, b);
      OneSign(a);
      OneSign(b);
    }
  }

  lemma SameStart(a: string, b: string)
    requires HeaderRepair.IsFileHeader(a) && |a| >= 4 && |b| >= 4 && b[..4] == a[..4]
    ensures HeaderRepair.IsFileHeader(b) && a[0] == b[0]
  {
    assert |"--- "| == 4 && |"+++ "| == 4;
    assert "--- " <= a ==> a[..4] == "--- ";
    assert "+++ " <= a ==> a[..4] == "+++ ";
    assert b == b[..4] + b[4..];
    assert a[0] == a[..4][0] && b[0] == b[..4][0];
  }

  ghost predicate AllAlike(a: seq<string>, b: seq<string>) {
    |a| == |b| && forall k {:trigger Alike(a[k], b[k])} :: 0 <= k < |a| ==> Alike(a[k], b[k])
  }

  lemma AlikeClasses(a: seq<string>, b: seq<string>, k: nat)
    requires AllAlike(a, b) && k < |a|
    ensures var x, y := Classes(a)[k], Classes(b)[k]; x.stops == y.stops && x.old_ == y.old_ && x.new_ == y.new_
  {
    assert Alike(a[k], b[k]);
    ClassAt(a, k);
    ClassAt(b, k);
    AlikeClass(a[k], b[k]);
  }

  lemma BodySeenAlike(a: seq<string>, b: seq<string>, k: nat, body: seq<HunkLine>)
    requires AllAlike(a, b) && BodyClasses(Classes(a), k, body)
    ensures BodyClasses(Classes(b), k, body)
  {
    var cs := Classes(b);
    forall i | 0 <= i < |body|
      ensures
        && cs[k + i].stops == LooksLikeFileHeader(body[i])
        && cs[k + i].old_ == (if body[i].Context? || body[i].Removed? then 1 else 0)
        && cs[k + i].new_ == (if body[i].Context? || body[i].Added? then 1 else 0)
    {
      AlikeClasses(a, b, k + i);
    }
  }

  lemma EndSeenAlike(a: seq<string>, b: seq<string>, end: nat)
    requires AllAlike(a, b) && end <= |a| && (end == |a| || Classes(a)[end].stops)
    ensures end == |b| || Classes(b)[end].stops
  {
    if end < |a| { AlikeClasses(a, b, end); }
  }

  lemma HunkSeenAlike(a: seq<string>, b: seq<string>, k: nat, h: HunkHeader, body: seq<HunkLine>)
    requires AllAlike(a, b) && HunkSeen(Classes(a), k, h, body) && Classes(b)[k].header == Some(h)
    ensures HunkSeen(Classes(b), k, h, body)
  {
    BodySeenAlike(a, b, k + 1, body);
    EndSeenAlike(a, b, k + 1 + |body|);
  }

  /** The hunk in which a body line stands. */
  lemma {:induction false} HunkOf(d: seq<DiffLine>, j: nat) returns (i: nat)
    requires WellFormed(d) && j < |d| && d[j].Body?
    ensures i < j && d[i].HunkStart? && forall k :: i < k <= j ==> d[k].Body?
  {
    assert j > 0 && FollowsAt(d, j);
    if d[j - 1].HunkStart? {
      i := j - 1;
    } else {
      i := HunkOf(d, j - 1);
    }
  }

  lemma HunkLineStays(d: seq<DiffLine>, i: nat, n: seq<string>)
    requires WellFormed(d) && i < |d| && d[i].HunkStart? && AllAlike(Rendered(d), n)
    ensures n[i] == Rendered(d)[i]
  {
    assert LineOk(d[i]);
    LooksRight(d, i);
    assert Alike(Rendered(d)[i], n[i]);
  }

  lemma SpoiledHeader(d: seq<DiffLine>, i: nat, j: nat, n: seq<string>)
    requires WellFormed(d) && i < j < |d| && d[i].HunkStart? && (forall k :: i < k <= j ==> d[k].Body?) && !PlainAt(d[j])
    requires AllAlike(Rendered(d), n)
    ensures Repaired(n)[i] != Rendered(d)[i]
  {
    var body := BodyFrom(d, i + 1);
    HunkStands(d, i, Rendered(d), body);
    HunkLineStays(d, i, n);
    HunkIsSeen(Rendered(d), i, body);
    HeaderAt(n, i);
    HunkSeenAlike(Rendered(d), n, i, ParseHeader(n[i]).value, body);
    assert j - (i + 1) < |body| && d[j] == Body(body[j - (i + 1)]);
    HeaderStands(d, i);
    RepairedAt(n, i);
    CountsRightSeen(n[i], Classes(n), i, ParseHeader(n[i]).value, body);
  }

  /** The header of the hunk in which the line stands does not keep its counts. */
  lemma LookalikeChanges(d: seq<DiffLine>, j: nat)
    requires WellFormed(d) && j < |d| && !PlainAt(d[j])
    ensures Repaired(PreparedLines(Rendered(d))) != Rendered(d)
  {
    var lines := Rendered(d);
    var prepared := PreparedLines(lines);
    var i := HunkOf(d, j);
    if |prepared| == |lines| {
      forall k | 0 <= k < |lines| ensures Alike(lines[k], prepared[k]) { PreparedAlike(lines, k); }
      SpoiledHeader(d, i, j, prepared);
    }
  }

  // ---- The whole ----

  lemma LinesKeptIff(d: seq<DiffLine>)
    requires WellFormed(d)
    ensures Repaired(PreparedLines(CleanedLines(Rendered(d)))) == Rendered(d) <==>
              !PatchCleanup.IsContaminated(Rendered(d)) && NoLookalikes(d) && HunksNearHeaders(d)
  {
    var lines := Rendered(d);
    RenderedLooks(d);
    if PatchCleanup.IsContaminated(lines) {
      ContaminatedChanges(lines);
    } else if !NoLookalikes(d) {
      var j :| 0 <= j < |d| && !PlainAt(d[j]);
      LookalikeChanges(d, j);
    } else {
      PlainDiffKept(d);
    }
  }

  /**
   The pipeline hands a well-formed diff on as it is, less its final line break, exactly when fewer
   than six in ten body lines look numbered, no body line looks like a file header, every hunk has a
   file header among the three lines before it, and no path climbs with "..".
   */
  lemma PipelineKeepsDiffIff(d: seq<DiffLine>)
    requires WellFormed(d)
    ensures Pipeline(Unsplit(Rendered(d)) + "\n") == Ready(Unsplit(Rendered(d))) <==>
              !PatchCleanup.IsContaminated(Rendered(d)) && NoLookalikes(d) && HunksNearHeaders(d) && NoDotDot(d)
  {
    CountedDiff(d);
    LinesKeptIff(d);
    if NoLookalikes(d) {
      RenderedLooks(d);
      FilledTwice(Rendered(d));
      AcceptedIff(d);
    }
  }

  // ---- What is spoiled ----

  /** A removed comment "-- note" is not only miscounted: the prefix pass gives it a side. */
  lemma RemovedCommentRewritten()
    ensures NormalizedLine(RenderLine(Removed("-- note"))) == RenderLine(Removed("-- a/note"))
  {
    NormalizePrefixed(false, "note");
    PlainNote();
    NoteLines();
  }

  lemma PlainNote()
    ensures Strip("note") == "note" && !IsMarker("note") && !HasSide("note")
  {
    assert StripLeft("note") == "note" && StripRight("note") == "note";
    assert Lower("note")[1] == 'o' && "/dev/null"[1] == 'd' && "nul"[1] == 'u' && "null"[1] == 'u';
    assert "note"[0] == 'n' && "a/"[0] == 'a' && "b/"[0] == 'b';
  }

  lemma NoteLines()
    ensures RenderLine(Removed("-- note")) == "--- " + "note" && HeaderRepair.IsFileHeader("--- " + "note")
    ensures RenderLine(Removed("-- a/note")) == HeaderLine(false, "note")
  {
    assert "--- " <= "--- " + "note";
  }

  /** A correct diff of one file with two hunks, the first of two lines. */
  const TWO_HUNKS: seq<DiffLine> := [
    Git("f", "f"), OldFile(Some("f")), NewFile(Some("f")),
    HunkStart(1, 1, ""), Body(Context("x")), Body(Added("y")),
    HunkStart(9, 10, ""), Body(Added("z"))]

  lemma SmallPathOk()
    ensures PathOk("f")
  {
    assert Strip("f") == "f" by { assert StripLeft("f") == "f" && StripRight("f") == "f"; }
    assert |Lower("f")| == 1 && |"/dev/null"| == 9 && |"nul"| == 3 && |"null"| == 4;
    assert |"a/"| == 2 && |"b/"| == 2 && "/"[0] == '/' && "f"[0] == 'f';
  }

  lemma TwoHunksAreOk(i: nat)
    requires i < 8
    ensures LineOk(TWO_HUNKS[i])
  {
    SmallPathOk();
  }

  lemma TwoHunksFollow(i: nat)
    requires 0 < i < 8
    ensures FollowsAt(TWO_HUNKS, i)
  {
  }

  lemma TwoHunksWellFormed()
    ensures WellFormed(TWO_HUNKS)
  {
    var d := TWO_HUNKS;
    assert |d| == 8 && d[0].Git? && d[7].Body?;
    forall i | 0 <= i < |d| ensures LineOk(d[i]) { TwoHunksAreOk(i); }
    forall i | 0 < i < |d| ensures FollowsAt(d, i) { TwoHunksFollow(i); }
  }

  lemma TwoHunksPlainAt(i: nat)
    requires i < 8
    ensures PlainAt(TWO_HUNKS[i])
    ensures var x := TWO_HUNKS[i]; IsFileLine(x) ==> x.path == Some("f")
  {
  }

  lemma TwoHunksPlain()
    ensures NoLookalikes(TWO_HUNKS) && NoDotDot(TWO_HUNKS)
  {
    var d := TWO_HUNKS;
    assert |d| == 8;
    forall i | 0 <= i < |d| ensures PlainAt(d[i]) && (IsFileLine(d[i]) ==> d[i].path == Some("f")) { TwoHunksPlainAt(i); }
    SplitNowhere("f", '/');
  }

  lemma SecondHunkIsFar()
    ensures !HunksNearHeaders(TWO_HUNKS)
  {
    var d := TWO_HUNKS;
    assert |d| == 8 && d[6].HunkStart? && d[5].Body? && d[3].HunkStart?;
    assert !NearHeader(d, 6);
  }

  /** The second hunk of a correct diff gets a second pair of file headers. */
  lemma SecondHunkSpoilsDiff()
    ensures WellFormed(TWO_HUNKS) && NoLookalikes(TWO_HUNKS) && NoDotDot(TWO_HUNKS)
    ensures Pipeline(Unsplit(Rendered(TWO_HUNKS)) + "\n") != Ready(Unsplit(Rendered(TWO_HUNKS)))
  {
    TwoHunksWellFormed();
    TwoHunksPlain();
    SecondHunkIsFar();
    KeptMeansNear(TWO_HUNKS);
  }

  lemma KeptMeansNear(d: seq<DiffLine>)
    requires WellFormed(d)
    ensures Pipeline(Unsplit(Rendered(d)) + "\n") == Ready(Unsplit(Rendered(d))) ==> HunksNearHeaders(d)
  {
    PipelineKeepsDiffIff(d);
  }
}
