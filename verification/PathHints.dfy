/** Which line above a bare hunk gives its path (services/dev_agent/service.py:435-471). */
module PathHints {
  import opened HeaderRepair
  import opened Options
  import opened Text
  import PathsTwice

  /** It has a slash, is no comment, and is shorter than 200 characters, spaces at the ends apart. */
  predicate IsPathLike(line: string) {
    var s := Strip(line);
    '/' in s && s[0] != '#' && |s| < 200
  }

  lemma OneCharContains(s: string, c: char)
    ensures Contains(s, [c]) <==> c in s
  {
    if c in s {
      var i :| 0 <= i < |s| && s[i] == c;
      assert s[i..i + 1] == [c];
      assert OccursAt(s, [c], i);
    }
    if i :| 0 <= i <= |s| && OccursAt(s, [c], i) { assert s[i..i + 1][0] == s[i]; }
  }

  lemma NothingLeading(s: string)
    requires s != "" && s[0] != '#' && !IsSpace(s[0])
    ensures StripLeftOf(s, "# ") == s
  {
  }

  lemma CommentStarts(s: string)
    ensures StartsWith(s, "#") <==> s != "" && s[0] == '#'
  {
  }

  /** What such a line hints at is its text without the spaces around it; a comment hints at nothing. */
  lemma HintIs(line: string)
    ensures Hint(line) == if IsPathLike(line) then Some(Strip(line)) else None
  {
    var s := Strip(line);
    OneCharContains(s, '/');
    CommentStarts(s);
    PathsTwice.StripIsTrim(line);
    if IsPathLike(line) {
      NothingLeading(s);
      PathsTwice.TrimIsStripped(s);
    }
  }

  lemma {:induction false} CandidateIs(out: seq<string>, n: nat, k: nat, j: nat)
    requires j < n <= |out| && n <= j + k && IsPathLike(out[j])
    requires forall i :: j < i < n ==> !IsPathLike(out[i])
    ensures Candidate(out, n, k) == Strip(out[j])
  {
    HintIs(out[n - 1]);
    if j < n - 1 { CandidateIs(out, n - 1, k - 1, j); }
  }

  lemma {:induction false} NoCandidate(out: seq<string>, n: nat, k: nat)
    requires n <= |out| && forall i :: 0 <= i < n && n - k <= i ==> !IsPathLike(out[i])
    ensures Candidate(out, n, k) == ""
  {
    if n > 0 && k > 0 {
      HintIs(out[n - 1]);
      NoCandidate(out, n - 1, k - 1);
    }
  }

  /**
   A bare hunk for which no diff --git line names a path gets the headers of the nearest line among
   the four before it that looks like a path.
   */
  lemma BareHunkTakesHint(out: seq<string>, j: nat)
    requires !HeaderNear(out) && NearestPath(out, |out|) == ""
    requires j < |out| <= j + 4 && IsPathLike(out[j]) && forall i :: j < i < |out| ==> !IsPathLike(out[i])
    ensures Insertion(out) == ["--- a/" + Strip(out[j])] + ["+++ b/" + Strip(out[j])]
  {
    CandidateIs(out, |out|, 4, j);
    PathLikeIsText(out[j]);
    InsertsCandidate(out, Strip(out[j]));
  }

  lemma PathLikeIsText(line: string)
    requires IsPathLike(line)
    ensures Strip(line) != ""
  {
  }

  lemma InsertsCandidate(out: seq<string>, path: string)
    requires !HeaderNear(out) && NearestPath(out, |out|) == "" && Candidate(out, |out|, 4) == path
    ensures Insertion(out) == if path == "" then [] else ["--- a/" + path] + ["+++ b/" + path]
  {
  }

  lemma LastPathLike(out: seq<string>, n: nat, k: nat) returns (j: nat)
    requires n <= |out| && exists i :: 0 <= i < n && n - k <= i && IsPathLike(out[i])
    ensures j < n <= j + k && IsPathLike(out[j]) && forall i :: j < i < n ==> !IsPathLike(out[i])
  {
    if IsPathLike(out[n - 1]) {
      j := n - 1;
    } else {
      j := LastPathLike(out, n - 1, k - 1);
    }
  }

  /** `@@` begins the line, and no third `@` follows. */
  predicate IsHunk(line: string) {
    |line| >= 2 && line[0] == '@' && line[1] == '@' && (|line| == 2 || line[2] != '@')
  }

  /** Headers go before hunks only, not before those of a combined diff, and every line stays. */
  lemma HeadersGoBeforeHunks(lines: seq<string>, n: nat)
    requires n < |lines|
    ensures var out := Repaired(lines, n);
            Repaired(lines, n + 1) == out + (if IsHunk(lines[n]) then Insertion(out) else []) + [lines[n]]
  {
    HunkStarts(lines[n]);
  }

  lemma HunkStarts(line: string)
    ensures StartsHunk(line) <==> IsHunk(line)
  {
    assert "@@" <= line <==> |line| >= 2 && line[0] == '@' && line[1] == '@';
    assert "@@@" <= line <==> |line| >= 3 && line[0] == '@' && line[1] == '@' && line[2] == '@';
  }

  /** Headers are inserted exactly before a hunk without a file header near it whose path is named or hinted at. */
  lemma InsertsIff(out: seq<string>)
    ensures Insertion(out) != [] <==>
              !HeaderNear(out)
              && (NearestPath(out, |out|) != "" || exists i :: 0 <= i < |out| && |out| - 4 <= i && IsPathLike(out[i]))
  {
    if exists i :: 0 <= i < |out| && |out| - 4 <= i && IsPathLike(out[i]) {
      var j := LastPathLike(out, |out|, 4);
      CandidateIs(out, |out|, 4, j);
      PathLikeIsText(out[j]);
    } else {
      NoCandidate(out, |out|, 4);
    }
  }

  /** A path given as a comment, the case the scan was written for, is passed over. */
  lemma CommentIsNoHint()
    ensures Insertion(["# src/x.py"]) == []
  {
    var line := "# src/x.py";
    assert StripLeft(line) == line && StripRight(line) == line;
    assert !IsPathLike(line);
    NoGitLine(line);
    NoCandidate([line], 1, 4);
  }

  lemma NoGitLine(line: string)
    requires line != "" && line[0] == '#'
    ensures NearestPath([line], 1) == ""
  {
    assert "diff --git"[0] == 'd';
    assert NearestPath([line], 0) == "";
  }
}
