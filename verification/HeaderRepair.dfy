/** Missing file headers: `_repair_patch_headers` (services/dev_agent/service.py:412-474). */
module HeaderRepair {
  import opened Lines
  import opened Options
  import opened Text

  // ---- One insertion ----

  predicate IsFileHeader(line: string) {
    StartsWith(line, "--- ") || StartsWith(line, "+++ ")
  }

  predicate IsGitLine(line: string) {
    StartsWith(line, "diff --git")
  }

  /** `@@`, but not the `@@@` of a combined diff. */
  predicate StartsHunk(line: string) {
    StartsWith(line, "@@") && !StartsWith(line, "@@@")
  }

  /** A file header among the last three lines. */
  predicate HeaderNear(out: seq<string>) {
    exists j :: |out| - 3 <= j < |out| && 0 <= j && IsFileHeader(out[j])
  }

  function WithoutA(name: string): string {
    if StartsWith(name, "a/") then name[2..] else name
  }

  /** The path a `diff --git a/path b/path` line names; "" when it has fewer than four words. */
  function GitPath(line: string): string {
    var parts := Words(line);
    if |parts| >= 4 then WithoutA(parts[2]) else ""
  }

  /** The path of the last `diff --git` line among the first `n`. */
  function NearestPath(out: seq<string>, n: nat): string
    requires n <= |out|
  {
    if n == 0 then "" else if IsGitLine(out[n - 1]) then GitPath(out[n - 1]) else NearestPath(out, n - 1)
  }

  predicate LooksLikePath(stripped: string) {
    Contains(stripped, "/") && !StartsWith(stripped, "#") && |stripped| < 200
  }

  /** What a line hints at as a path. */
  function Hint(line: string): Option<string> {
    if LooksLikePath(Strip(line)) then Some(Strip(StripLeftOf(Strip(line), "# "))) else None
  }

  /** The nearest hint in the last `k` lines before `n`. */
  function Candidate(out: seq<string>, n: nat, k: nat): string
    requires n <= |out|
  {
    if n == 0 || k == 0 then ""
    else
      var hint := Hint(out[n - 1]);
      if hint.Some? then hint.value else Candidate(out, n - 1, k - 1)
  }

  function PathFor(out: seq<string>): string {
    var named := NearestPath(out, |out|);
    if named != "" then named else Candidate(out, |out|, 4)
  }

  function HeaderPair(path: string): seq<string> {
    ["--- a/" + path] + ["+++ b/" + path]
  }

  /** What goes before a hunk that would follow these lines. */
  function Insertion(out: seq<string>): (ins: seq<string>)
    ensures |ins| == 0 || |ins| == 2
  {
    if HeaderNear(out) || PathFor(out) == "" then [] else HeaderPair(PathFor(out))
  }

  // ---- The pass ----

  function Repaired(lines: seq<string>, n: nat): (out: seq<string>)
    requires n <= |lines|
    ensures |out| >= n
  {
    if n == 0 then []
    else
      var out := Repaired(lines, n - 1);
      out + (if StartsHunk(lines[n - 1]) then Insertion(out) else []) + [lines[n - 1]]
  }

  /** `_repair_patch_headers` */
  function RepairHeaders(patch: string): string {
    var lines := SplitLines(patch);
    Unsplit(Repaired(lines, |lines|))
  }

  method RepairPatchHeaders(patch: string) returns (r: string)
    ensures r == RepairHeaders(patch)
  {
    var lines := SplitLines(patch);
    if lines == [] {
      EmptyPatch(patch);
      return patch;
    }
    var out: seq<string> := [];
    for i := 0 to |lines|
      invariant out == Repaired(lines, i)
    {
      var line := lines[i];
      if StartsHunk(line) {
        var ins := HeadersToInsert(out);
        out := out + ins;
      }
      out := out + [line];
    }
    r := Unsplit(out);
  }

  lemma EmptyPatch(patch: string)
    requires SplitLines(patch) == []
    ensures patch == ""
  {
    UnsplitSplitLines(patch);
    LastPart(patch);
    SplitParts(patch);
    assert Split(patch) == [""];
  }

  method HeadersToInsert(out: seq<string>) returns (ins: seq<string>)
    ensures ins == Insertion(out)
  {
    var hasHeader := HasHeader(out);
    if hasHeader {
      return [];
    }
    var path := FindPath(out);
    if path == "" {
      path := FindCandidate(out);
    }
    ins := if path != "" then HeaderPair(path) else [];
  }

  method HasHeader(out: seq<string>) returns (found: bool)
    ensures found <==> HeaderNear(out)
  {
    var first := if |out| >= 3 then |out| - 3 else 0;
    found := false;
    for j := first to |out|
      invariant !found && forall k :: first <= k < j ==> !IsFileHeader(out[k])
    {
      if IsFileHeader(out[j]) {
        return true;
      }
    }
  }

  method FindPath(out: seq<string>) returns (path: string)
    ensures path == NearestPath(out, |out|)
  {
    path := "";
    var j: nat := |out|;
    while j > 0
      invariant j <= |out| && NearestPath(out, |out|) == NearestPath(out, j)
    {
      j := j - 1;
      if IsGitLine(out[j]) {
        return GitPath(out[j]);
      }
    }
  }

  method FindCandidate(out: seq<string>) returns (candidate: string)
    ensures candidate == Candidate(out, |out|, 4)
  {
    candidate := "";
    var j: nat, left: nat := |out|, 4;
    while j > 0 && left > 0
      invariant j <= |out| && Candidate(out, |out|, 4) == Candidate(out, j, left)
      decreases j
    {
      j, left := j - 1, left - 1;
      var hint := Hint(out[j]);
      if hint.Some? {
        return hint.value;
      }
    }
  }

  // ---- Only insertions ----

  /** The first `m` lines of `out` are the first `n` of `lines` with header pairs put in before some hunks. */
  ghost predicate OnlyInserts(lines: seq<string>, n: nat, out: seq<string>, m: nat)
    requires n <= |lines| && m <= |out|
  {
    if n == 0 then m == 0
    else
      && m > 0 && out[m - 1] == lines[n - 1]
      && (|| OnlyInserts(lines, n - 1, out, m - 1)
          || (StartsHunk(lines[n - 1]) && m >= 3 && IsHeaderPair(out[m - 3], out[m - 2]) && OnlyInserts(lines, n - 1, out, m - 3)))
  }

  ghost predicate IsHeaderPair(a: string, b: string) {
    exists path :: path != "" && [a] + [b] == HeaderPair(path)
  }

  lemma {:induction false} OnlyInsertsPrefix(lines: seq<string>, n: nat, a: seq<string>, b: seq<string>, m: nat)
    requires n <= |lines| && m <= |a| && a <= b && OnlyInserts(lines, n, a, m)
    ensures OnlyInserts(lines, n, b, m)
  {
    if n > 0 {
      assert b[m - 1] == a[m - 1];
      if OnlyInserts(lines, n - 1, a, m - 1) {
        OnlyInsertsPrefix(lines, n - 1, a, b, m - 1);
      } else {
        assert b[m - 3] == a[m - 3] && b[m - 2] == a[m - 2];
        OnlyInsertsPrefix(lines, n - 1, a, b, m - 3);
      }
    }
  }

  lemma {:induction false} RepairOnlyInserts(lines: seq<string>, n: nat)
    requires n <= |lines|
    ensures var out := Repaired(lines, n); OnlyInserts(lines, n, out, |out|)
  {
    if n > 0 {
      var before, out := Repaired(lines, n - 1), Repaired(lines, n);
      RepairOnlyInserts(lines, n - 1);
      assert before <= out;
      OnlyInsertsPrefix(lines, n - 1, before, out, |before|);
      var m := |out|;
      if m > |before| + 1 {
        var path := PathFor(before);
        assert [out[m - 3]] + [out[m - 2]] == HeaderPair(path);
      }
    }
  }

  // ---- Idempotence ----

  /** Nothing would go in before any hunk. */
  ghost predicate Stable(out: seq<string>) {
    forall k :: 0 <= k < |out| && StartsHunk(out[k]) ==> Insertion(out[..k]) == []
  }

  lemma PairLines(path: string)
    ensures var pair := HeaderPair(path);
            |pair| == 2 && !StartsHunk(pair[0]) && !StartsHunk(pair[1]) && IsFileHeader(pair[1])
  {
    assert ("--- a/" + path)[0] == '-' && ("+++ b/" + path)[0] == '+' && "@@"[0] == '@';
    assert "+++ " <= "+++ b/" <= "+++ b/" + path;
  }

  lemma InsertedIsNear(out: seq<string>, ins: seq<string>)
    requires ins == Insertion(out) && ins != []
    ensures HeaderNear(out + ins) && !StartsHunk(ins[0]) && !StartsHunk(ins[1])
  {
    PairLines(PathFor(out));
    assert (out + ins)[|out| + 1] == ins[1];
  }

  lemma StableSnoc(out: seq<string>, line: string)
    requires Stable(out) && (StartsHunk(line) ==> Insertion(out) == [])
    ensures Stable(out + [line])
  {
    var next := out + [line];
    forall k | 0 <= k < |next| && StartsHunk(next[k]) ensures Insertion(next[..k]) == [] {
      assert next[..k] == out[..k];
      if k == |out| { assert out[..k] == out; }
    }
  }

  lemma StableStep(out: seq<string>, line: string)
    requires Stable(out)
    ensures Stable(out + (if StartsHunk(line) then Insertion(out) else []) + [line])
  {
    var ins := if StartsHunk(line) then Insertion(out) else [];
    if ins == [] {
      assert out + ins == out;
    } else {
      InsertedIsNear(out, ins);
      StableSnoc(out, ins[0]);
      StableSnoc(out + [ins[0]], ins[1]);
      assert out + [ins[0]] + [ins[1]] == out + ins;
    }
    StableSnoc(out + ins, line);
  }

  lemma {:induction false} RepairIsStable(lines: seq<string>, n: nat)
    requires n <= |lines|
    ensures Stable(Repaired(lines, n))
  {
    if n > 0 {
      RepairIsStable(lines, n - 1);
      StableStep(Repaired(lines, n - 1), lines[n - 1]);
    }
  }

  lemma {:induction false} StableIsKept(out: seq<string>, n: nat)
    requires Stable(out) && n <= |out|
    ensures Repaired(out, n) == out[..n]
  {
    if n > 0 {
      StableIsKept(out, n - 1);
      assert out[..n] == out[..n - 1] + [out[n - 1]];
      assert out[..n - 1] + [] == out[..n - 1];
    }
  }

  /** Repairing repaired lines changes nothing. */
  lemma RepairTwice(lines: seq<string>)
    ensures var out := Repaired(lines, |lines|); Repaired(out, |out|) == out
  {
    var out := Repaired(lines, |lines|);
    RepairIsStable(lines, |lines|);
    StableIsKept(out, |out|);
    assert out[..|out|] == out;
  }

  lemma {:induction false} GrowthKept(lines: seq<string>, m: nat, n: nat)
    requires m <= n <= |lines|
    ensures |Repaired(lines, n)| - n >= |Repaired(lines, m)| - m
  {
    if m < n { GrowthKept(lines, m, n - 1); }
  }

  lemma {:induction false} SameLengthSameLines(lines: seq<string>, n: nat)
    requires n <= |lines| && |Repaired(lines, n)| == n
    ensures Repaired(lines, n) == lines[..n]
  {
    if n > 0 {
      SameLengthSameLines(lines, n - 1);
      assert lines[..n] == lines[..n - 1] + [lines[n - 1]];
    }
  }

  /** The pass adds no line exactly when nothing would go in before any hunk; then it changes nothing. */
  lemma NothingAddedIff(lines: seq<string>)
    ensures |Repaired(lines, |lines|)| == |lines| <==> Stable(lines)
    ensures Stable(lines) ==> Repaired(lines, |lines|) == lines
  {
    if |Repaired(lines, |lines|)| == |lines| {
      forall k | 0 <= k < |lines| && StartsHunk(lines[k]) ensures Insertion(lines[..k]) == [] {
        GrowthKept(lines, k, |lines|);
        GrowthKept(lines, k + 1, |lines|);
        SameLengthSameLines(lines, k);
      }
    }
    if Stable(lines) {
      StableIsKept(lines, |lines|);
      assert lines[..|lines|] == lines;
    }
  }

  /** Afterwards every hunk whose nearest `diff --git` line names a path has a file header among the three lines before it. */
  lemma NamedHunksHaveHeaders(lines: seq<string>)
    ensures var out := Repaired(lines, |lines|);
            forall k :: 0 <= k < |out| && StartsHunk(out[k]) && NearestPath(out[..k], k) != "" ==> HeaderNear(out[..k])
  {
    var out := Repaired(lines, |lines|);
    RepairIsStable(lines, |lines|);
    forall k | 0 <= k < |out| && StartsHunk(out[k]) && NearestPath(out[..k], k) != "" ensures HeaderNear(out[..k]) {
      assert Insertion(out[..k]) == [];
      assert PathFor(out[..k]) != "";
    }
  }

  // ---- On texts ----

  lemma {:induction false} StripLeftOfIsLine(s: string, chars: string)
    requires IsLine(s)
    ensures IsLine(StripLeftOf(s, chars))
  {
    if s != [] && s[0] in chars { StripLeftOfIsLine(s[1..], chars); }
  }

  lemma StripIsLine(s: string)
    requires IsLine(s)
    ensures IsLine(Strip(s))
  {
    var head, tail := StripParts(s);
    forall i | 0 <= i < |Strip(s)| ensures Strip(s)[i] != '\n' {
      assert (head + Strip(s) + tail)[|head| + i] == Strip(s)[i];
    }
  }

  lemma HintIsLine(line: string)
    requires IsLine(line) && Hint(line).Some?
    ensures IsLine(Hint(line).value)
  {
    StripIsLine(line);
    StripLeftOfIsLine(Strip(line), "# ");
    StripIsLine(StripLeftOf(Strip(line), "# "));
  }

  lemma GitPathIsLine(line: string)
    ensures IsLine(GitPath(line))
  {
    var parts := Words(line);
    WordsAreSolid(line);
    if |parts| >= 4 { assert IsSolid(parts[2]); }
  }

  lemma {:induction false} NearestIsLine(out: seq<string>, n: nat)
    requires n <= |out|
    ensures IsLine(NearestPath(out, n))
  {
    if n > 0 {
      if IsGitLine(out[n - 1]) { GitPathIsLine(out[n - 1]); } else { NearestIsLine(out, n - 1); }
    }
  }

  lemma {:induction false} CandidateIsLine(out: seq<string>, n: nat, k: nat)
    requires n <= |out| && AreLines(out)
    ensures IsLine(Candidate(out, n, k))
  {
    if n > 0 && k > 0 {
      if Hint(out[n - 1]).Some? { HintIsLine(out[n - 1]); } else { CandidateIsLine(out, n - 1, k - 1); }
    }
  }

  lemma {:induction false} RepairedAreLines(lines: seq<string>, n: nat)
    requires n <= |lines| && AreLines(lines)
    ensures AreLines(Repaired(lines, n))
  {
    if n > 0 {
      var out := Repaired(lines, n - 1);
      RepairedAreLines(lines, n - 1);
      NearestIsLine(out, |out|);
      CandidateIsLine(out, |out|, 4);
      PairIsLines(PathFor(out));
    }
  }

  lemma PairIsLines(path: string)
    requires IsLine(path)
    ensures AreLines(HeaderPair(path))
  {
  }

  predicate EndsInBlankLine(patch: string) {
    |patch| >= 2 && patch[|patch| - 1] == '\n' && patch[|patch| - 2] == '\n'
  }

  lemma BlankLast(patch: string)
    ensures var lines := SplitLines(patch);
            EndsInBlankLine(patch) <==> |lines| >= 2 && lines[|lines| - 1] == ""
  {
    var lines := SplitLines(patch);
    UnsplitSplitLines(patch);
    LastPart(patch);
    var body := Unsplit(lines);
    LastPart(body);
    if lines != [] { SplitUnsplit(lines); }
    if |lines| >= 2 { UnsplitFirst(lines); }
  }

  lemma {:induction false} LastStays(lines: seq<string>, n: nat)
    requires 0 < n <= |lines|
    ensures var out := Repaired(lines, n); out[|out| - 1] == lines[n - 1]
    ensures n >= 2 ==> |Repaired(lines, n)| >= 2
  {
  }

  /** Repairing a repaired text changes nothing exactly when the patch does not end in a blank line: joining drops one. */
  lemma RepairTextTwiceIff(patch: string)
    ensures RepairHeaders(RepairHeaders(patch)) == RepairHeaders(patch) <==> !EndsInBlankLine(patch)
  {
    var lines := SplitLines(patch);
    var out := Repaired(lines, |lines|);
    UnsplitSplitLines(patch);
    RepairedAreLines(lines, |lines|);
    BlankLast(patch);
    SplitLinesUnsplit(out);
    RepairIsStable(lines, |lines|);
    if lines != [] { LastStays(lines, |lines|); }
    if EndsInBlankLine(patch) {
      var before := out[..|out| - 1];
      assert out == before + [""];
      UnsplitConcat(before, [""]);
      assert Unsplit(out) == Unsplit(before) + "\n";
      StablePrefix(out, |out| - 1);
      StableIsKept(before, |before|);
      assert before[..|before|] == before;
    } else {
      RepairTwice(lines);
      SingleBlank(lines, out);
    }
  }

  lemma StablePrefix(out: seq<string>, n: nat)
    requires Stable(out) && n <= |out|
    ensures Stable(out[..n])
  {
    var before := out[..n];
    forall k | 0 <= k < n && StartsHunk(before[k]) ensures Insertion(before[..k]) == [] {
      assert before[..k] == out[..k];
    }
  }

  /** One blank line alone joins to nothing. */
  lemma SingleBlank(lines: seq<string>, out: seq<string>)
    requires out == Repaired(lines, |lines|) && AreLines(out)
    requires |lines| < 2 || lines[|lines| - 1] != ""
    ensures Unsplit(Repaired(SplitLines(Unsplit(out)), |SplitLines(Unsplit(out))|)) == Unsplit(out)
  {
    SplitLinesUnsplit(out);
    if lines == [] {
      assert out == [];
    } else {
      LastStays(lines, |lines|);
      if lines[|lines| - 1] == "" {
        assert !StartsHunk(lines[0]);
        assert out == [""];
        assert out[..0] == [];
      } else {
        RepairTwice(lines);
      }
    }
  }
}
