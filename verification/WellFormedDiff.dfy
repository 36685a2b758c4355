/** Well-formed diffs, and what the passes make of them. */
module WellFormedDiff {
  import opened HunkCounts
  import opened Lines
  import opened Options
  import opened PatchPipeline
  import opened Seqs
  import opened Text
  import HeaderRepair
  import PatchCleanup
  import PatchPaths

  /**
   The lines of a diff as git writes it. `Extended` is an extended header line such as "index …"; a
   file header without a path names /dev/null; a hunk's counts are those of its body.
   */
  datatype DiffLine =
    | Git(oldPath: string, newPath: string)
    | Extended(text: string)
    | OldFile(path: Option<string>)
    | NewFile(path: Option<string>)
    | HunkStart(oldStart: nat, newStart: nat, section: string)
    | Body(line: HunkLine)

  // ---- Rendering ----

  /** The body lines from `i` on. */
  function BodyFrom(d: seq<DiffLine>, i: nat): (body: seq<HunkLine>)
    requires i <= |d|
    ensures i + |body| <= |d|
    ensures forall k :: 0 <= k < |body| ==> d[i + k] == Body(body[k])
    ensures i + |body| < |d| ==> !d[i + |body|].Body?
    decreases |d| - i
  {
    if i < |d| && d[i].Body? then [d[i].line] + BodyFrom(d, i + 1) else []
  }

  function FileLine(newFile: bool, path: Option<string>): string {
    if path.Some? then PatchPaths.HeaderLine(newFile, path.value)
    else if newFile then "+++ /dev/null" else "--- /dev/null"
  }

  function Render(d: seq<DiffLine>, i: nat): string
    requires i < |d|
  {
    match d[i]
    case Git(p, q) => "diff --git" + (" a/" + (p + (" b/" + q)))
    case Extended(t) => t
    case OldFile(p) => FileLine(false, p)
    case NewFile(p) => FileLine(true, p)
    case HunkStart(o, n, section) =>
      var body := BodyFrom(d, i + 1);
      FormatHeader(o, |OldLines(body)|, n, |NewLines(body)|, section)
    case Body(l) => RenderLine(l)
  }

  function RenderedUpTo(d: seq<DiffLine>, n: nat): (lines: seq<string>)
    requires n <= |d|
    ensures |lines| == n
  {
    if n == 0 then [] else RenderedUpTo(d, n - 1) + [Render(d, n - 1)]
  }

  function Rendered(d: seq<DiffLine>): (lines: seq<string>)
    ensures |lines| == |d|
  {
    RenderedUpTo(d, |d|)
  }

  lemma {:induction false} RenderedPrefix(d: seq<DiffLine>, n: nat, k: nat)
    requires k < n <= |d|
    ensures RenderedUpTo(d, n)[k] == RenderedUpTo(d, k + 1)[k]
  {
    if k < n - 1 { RenderedPrefix(d, n - 1, k); }
  }

  lemma RenderedAt(d: seq<DiffLine>, k: nat)
    requires k < |d|
    ensures Rendered(d)[k] == Render(d, k)
  {
    RenderedPrefix(d, |d|, k);
  }

  // ---- Well-formed diffs ----

  predicate PathOk(path: string) {
    path != "" && IsPlainLine(path) && '\t' !in path && PatchPaths.IsPlainPath(path)
  }

  predicate BodyTextOk(l: HunkLine) {
    l.NoNewline? || IsPlainLine(l.text)
  }

  predicate LineOk(x: DiffLine) {
    match x
    case Git(p, q) => PathOk(p) && PathOk(q)
    case Extended(t) =>
      t != "" && IsPlainLine(t) && !StartsWith(t, "@@") && !HeaderRepair.IsGitLine(t) && !HeaderRepair.IsFileHeader(t)
    case OldFile(p) => p.Some? ==> PathOk(p.value)
    case NewFile(p) => p.Some? ==> PathOk(p.value)
    case HunkStart(_, _, section) => IsPlainLine(section)
    case Body(l) => BodyTextOk(l)
  }

  /** Which line may come after which. */
  predicate MayFollow(a: DiffLine, b: DiffLine) {
    match b
    case Git(_, _) => a.Git? || a.Extended? || a.Body?
    case Extended(_) => a.Git? || a.Extended?
    case OldFile(_) => a.Git? || a.Extended?
    case NewFile(_) => a.OldFile?
    case HunkStart(_, _, _) => a.NewFile? || a.Body?
    case Body(_) => a.HunkStart? || a.Body?
  }

  predicate FollowsAt(d: seq<DiffLine>, i: int)
    requires 0 < i < |d|
  {
    MayFollow(d[i - 1], d[i])
  }

  ghost predicate WellFormed(d: seq<DiffLine>) {
    && d != [] && d[0].Git?
    && (forall i {:trigger LineOk(d[i])} :: 0 <= i < |d| ==> LineOk(d[i]))
    && (forall i {:trigger FollowsAt(d, i)} :: 0 < i < |d| ==> FollowsAt(d, i))
    && !d[|d| - 1].OldFile? && !d[|d| - 1].NewFile? && !d[|d| - 1].HunkStart?
  }

  predicate PlainAt(x: DiffLine) {
    x.Body? ==> !LooksLikeFileHeader(x.line)
  }

  /** No removed line begins with "-- " and no added one with "++ ". */
  ghost predicate NoLookalikes(d: seq<DiffLine>) {
    forall i {:trigger PlainAt(d[i])} :: 0 <= i < |d| ==> PlainAt(d[i])
  }

  ghost predicate PlainDiff(d: seq<DiffLine>) {
    WellFormed(d) && NoLookalikes(d)
  }

  /** The hunk is its file's first, or the second after a body of one line. */
  predicate NearHeader(d: seq<DiffLine>, i: int)
    requires 0 < i < |d|
  {
    d[i - 1].NewFile? || (i >= 3 && d[i - 3].NewFile?)
  }

  /** Every file has one hunk, or two of which the first has a body of one line. */
  ghost predicate HunksNearHeaders(d: seq<DiffLine>) {
    forall i {:trigger NearHeader(d, i)} :: 0 < i < |d| && d[i].HunkStart? ==> NearHeader(d, i)
  }

  // ---- What the passes see of the lines ----

  predicate IsFileLine(x: DiffLine) {
    x.OldFile? || x.NewFile?
  }

  /** A file line, or a body line that looks like one. */
  predicate SeemsFile(x: DiffLine) {
    IsFileLine(x) || !PlainAt(x)
  }

  /** How a line looks to the passes. */
  ghost predicate Looks(s: string, x: DiffLine) {
    && IsLine(s) && s != "" && s[|s| - 1] != '\r'
    && (HeaderRepair.IsFileHeader(s) <==> SeemsFile(x))
    && (StartsWith(s, "@@") <==> x.HunkStart?)
    && (HeaderRepair.StartsHunk(s) <==> x.HunkStart?)
    && (HeaderRepair.IsGitLine(s) <==> x.Git?)
  }

  lemma PlainIsLine(s: string)
    requires IsPlainLine(s)
    ensures IsLine(s) && (s != "" ==> s[|s| - 1] != '\r')
  {
  }

  /** A line's first character rules out the beginnings it does not have. */
  lemma FirstChar(s: string)
    requires s != ""
    ensures HeaderRepair.IsFileHeader(s) ==> s[0] == '-' || s[0] == '+'
    ensures StartsWith(s, "@@") ==> s[0] == '@'
    ensures HeaderRepair.IsGitLine(s) ==> s[0] == 'd'
  {
    assert "--- "[0] == '-' && "+++ "[0] == '+' && "@@"[0] == '@' && "diff --git"[0] == 'd';
  }

  lemma GitLooks(p: string, q: string)
    requires PathOk(p) && PathOk(q)
    ensures Looks("diff --git" + (" a/" + (p + (" b/" + q))), Git(p, q))
  {
    var rest := " a/" + (p + (" b/" + q));
    var s := "diff --git" + rest;
    PlainIsLine(p);
    PlainIsLine(q);
    assert s[0] == "diff --git"[0] == 'd';
    FirstChar(s);
    assert s[|s| - 1] == q[|q| - 1];
  }

  lemma ExtendedLooks(t: string)
    requires LineOk(Extended(t))
    ensures Looks(t, Extended(t))
  {
    PlainIsLine(t);
  }

  lemma FileLooks(newFile: bool, path: Option<string>)
    requires path.Some? ==> PathOk(path.value)
    ensures Looks(FileLine(newFile, path), if newFile then NewFile(path) else OldFile(path))
  {
    var s := FileLine(newFile, path);
    if path.Some? {
      PlainIsLine(path.value);
      PatchPaths.HeaderLineParts(newFile, path.value);
      assert s[|s| - 1] == path.value[|path.value| - 1];
    } else {
      assert "+++ " <= "+++ /dev/null" && "--- " <= "--- /dev/null";
    }
    FirstChar(s);
    assert s[0] == '-' || s[0] == '+';
  }

  lemma BodyEnds(l: HunkLine)
    requires BodyTextOk(l)
    ensures var s := RenderLine(l); IsLine(s) && s != "" && s[|s| - 1] != '\r'
  {
    var s := RenderLine(l);
    if !l.NoNewline? {
      PlainIsLine(l.text);
      if l.text != "" { assert s[|s| - 1] == l.text[|l.text| - 1]; }
    } else {
      NoteIsLine();
    }
  }

  lemma BodyBegins(l: HunkLine)
    ensures var s := RenderLine(l); s != "" && (s[0] == ' ' || s[0] == '-' || s[0] == '+' || s[0] == '\\')
  {
  }

  lemma BodyStopsAsFile(s: string)
    requires s != "" && s[0] != '@' && s[0] != 'd'
    ensures StopsBody(s) <==> HeaderRepair.IsFileHeader(s)
  {
    assert "@@"[0] == '@' && "diff "[0] == 'd';
  }

  lemma BodyLooks(l: HunkLine)
    requires BodyTextOk(l)
    ensures Looks(RenderLine(l), Body(l))
  {
    BodyEnds(l);
    BodyBegins(l);
    RenderStops(l);
    BodyStopsAsFile(RenderLine(l));
    FirstChar(RenderLine(l));
  }

  lemma NoteIsLine()
    ensures var s := RenderLine(NoNewline); IsLine(s) && s[|s| - 1] == 'e'
  {
  }

  lemma HunkLooks(o: nat, oc: nat, n: nat, nc: nat, section: string)
    requires IsPlainLine(section)
    ensures Looks(FormatHeader(o, oc, n, nc, section), HunkStart(o, n, section))
  {
    PlainIsLine(section);
    FormatIsLine(o, oc, n, nc, section);
    FormatBegins(o, oc, n, nc, section);
    FormatEnds(o, oc, n, nc, section);
    AtsLook(FormatHeader(o, oc, n, nc, section), HunkStart(o, n, section));
  }

  lemma FormatBegins(o: nat, oc: nat, n: nat, nc: nat, section: string)
    ensures StartsWith(FormatHeader(o, oc, n, nc, section), "@@")
  {
    ParseFormat(o, oc, n, nc, section);
    HeaderStops(FormatHeader(o, oc, n, nc, section));
  }

  lemma AtsLook(s: string, x: DiffLine)
    requires x.HunkStart? && IsLine(s) && StartsWith(s, "@@") && |s| > 2 && s[2] == ' ' && s[|s| - 1] != '\r'
    ensures Looks(s, x)
  {
    assert s[0] == "@@"[0] == '@' && "@@@"[2] == '@';
    FirstChar(s);
  }

  lemma FormatEnds(o: nat, oc: nat, n: nat, nc: nat, section: string)
    requires section != "" ==> section[|section| - 1] != '\r'
    ensures var s := FormatHeader(o, oc, n, nc, section);
            |s| > 2 && s[2] == ' ' && s[|s| - 1] != '\r'
  {
    FillEnds(HUNK_PATTERN.next, [(o, oc), (n, nc)], section);
  }

  lemma {:induction false} FillEnds(pattern: Pattern, spans: seq<(nat, nat)>, rest: string)
    requires rest != "" ==> rest[|rest| - 1] != '\r'
    requires Separated(pattern, |spans|) && NoReturns(pattern)
    ensures var s := Fill(pattern, spans, rest); s == "" || s[|s| - 1] != '\r'
    decreases pattern
  {
    match pattern
    case Rest =>
    case Literal(t, next) => FillEnds(next, spans, rest);
    case SpanThen(next) =>
      FillEnds(next, spans[1..], rest);
      FillBegins(next, spans[1..], rest);
  }

  predicate NoReturns(pattern: Pattern) {
    match pattern
    case Rest => true
    case Literal(t, next) => t != "" && t[|t| - 1] != '\r' && NoReturns(next)
    case SpanThen(next) => NoReturns(next)
  }

  lemma LooksRight(d: seq<DiffLine>, i: nat)
    requires i < |d| && LineOk(d[i])
    ensures Looks(Rendered(d)[i], d[i])
  {
    RenderedAt(d, i);
    match d[i]
    case Git(p, q) => GitLooks(p, q);
    case Extended(t) => ExtendedLooks(t);
    case OldFile(p) => FileLooks(false, p);
    case NewFile(p) => FileLooks(true, p);
    case HunkStart(o, n, section) =>
      var body := BodyFrom(d, i + 1);
      HunkLooks(o, |OldLines(body)|, n, |NewLines(body)|, section);
    case Body(l) => BodyLooks(l);
  }

  /** The lines look to the passes as the diff's lines say. */
  ghost predicate AllLook(lines: seq<string>, d: seq<DiffLine>) {
    |lines| == |d| && forall i {:trigger Looks(lines[i], d[i])} :: 0 <= i < |lines| ==> Looks(lines[i], d[i])
  }

  lemma RenderedLooks(d: seq<DiffLine>)
    requires WellFormed(d)
    ensures AllLook(Rendered(d), d) && Filled(Rendered(d))
  {
    var lines := Rendered(d);
    forall i | 0 <= i < |lines| ensures Looks(lines[i], d[i]) { LooksRight(d, i); }
  }

  // ---- The fence pass ----

  lemma {:induction false} UnsplitEnds(lines: seq<string>)
    requires Filled(lines)
    ensures var s := Unsplit(lines);
            s != "" && s[|s| - 1] == lines[|lines| - 1][|lines[|lines| - 1]| - 1]
            && (lines[0] != "" ==> s[0] == lines[0][0])
  {
    if |lines| > 1 {
      UnsplitFirst(lines);
      UnsplitEnds(lines[1..]);
    }
  }

  lemma FencesKeep(lines: seq<string>)
    requires Filled(lines) && lines[0] != "" && lines[0][0] == 'd'
    requires var last := lines[|lines| - 1]; last[|last| - 1] != '\r'
    ensures PatchCleanup.StripFences(Unsplit(lines) + "\n") == Unsplit(lines) + "\n"
  {
    var s := Unsplit(lines);
    UnsplitEnds(lines);
    assert (s + "\n")[0] == 'd' && StripLeft(s + "\n") == s + "\n";
    assert "```"[0] == '`';
    BreakStripped(s);
    var last := lines[|lines| - 1];
    assert s[|s| - 1] == last[|last| - 1];
  }

  lemma BreakStripped(s: string)
    requires s != "" && s[|s| - 1] != '\r' && s[|s| - 1] != '\n'
    ensures StripRightOf(s + "\n", "\r\n") == s
  {
    assert (s + "\n")[..|s + "\n"| - 1] == s;
    assert "\r\n"[0] == '\r' && "\r\n"[1] == '\n';
    assert s[|s| - 1] !in "\r\n";
  }

  // ---- The path passes ----

  lemma {:induction false} ModeAt(lines: seq<string>, d: seq<DiffLine>, i: nat)
    requires WellFormed(d) && AllLook(lines, d) && i < |d|
    requires d[i].Git? || d[i].Extended? || IsFileLine(d[i])
    ensures PatchPaths.HeaderMode(lines, i + 1)
  {
    assert Looks(lines[i], d[i]);
    if !d[i].Git? {
      assert FollowsAt(d, i);
      ModeAt(lines, d, i - 1);
    }
  }

  /** A file line is converted to the bare path and normalized back. */
  lemma FileLineRoundTrip(newFile: bool, path: Option<string>)
    requires path.Some? ==> PathOk(path.value)
    ensures var l := FileLine(newFile, path);
            && |l| >= 4
            && Looks(PatchPaths.ConvertHeader(l), if newFile then NewFile(path) else OldFile(path))
            && PatchPaths.NormalizedLine(PatchPaths.ConvertHeader(l)) == l
  {
    if path.Some? {
      PatchPaths.ConvertHeaderLine(newFile, path.value);
      PatchPaths.PlainConverts(path.value);
      PatchPaths.HeaderRoundTripIff(newFile, path.value);
      BareLooks(newFile, path.value);
    } else {
      DevNullStays(newFile);
      FileLooks(newFile, path);
    }
  }

  lemma BareLooks(newFile: bool, path: string)
    requires PathOk(path)
    ensures Looks(PatchPaths.Prefix(newFile) + path, if newFile then NewFile(Some(path)) else OldFile(Some(path)))
  {
    var s := PatchPaths.Prefix(newFile) + path;
    PlainIsLine(path);
    assert PatchPaths.Prefix(newFile) <= s;
    FirstChar(s);
    assert s[|s| - 1] == path[|path| - 1];
  }

  lemma DevNullStays(newFile: bool)
    ensures var l := FileLine(newFile, None);
            |l| >= 4 && PatchPaths.ConvertHeader(l) == l && PatchPaths.NormalizeHeader(l) == l && PatchPaths.CheckHeader(l).None?
  {
    var l, name := FileLine(newFile, None), "/dev/null";
    assert l[4..] == name;
    assert Strip(name) == name by {
      assert StripLeft(name) == name && StripRight(name) == name;
    }
    assert '\t' !in name;
    assert Lower(name) == name;
  }

  lemma ConvertedFile(lines: seq<string>, d: seq<DiffLine>, i: nat)
    requires PlainDiff(d) && AllLook(lines, d) && i < |d| && lines[i] == Render(d, i)
    ensures var c := PatchPaths.ConvertedLine(lines, i);
            && Looks(c, d[i]) && PatchPaths.NormalizedLine(c) == lines[i]
            && (!IsFileLine(d[i]) ==> c == lines[i])
  {
    assert Looks(lines[i], d[i]) && LineOk(d[i]) && PlainAt(d[i]);
    if IsFileLine(d[i]) {
      ModeAt(lines, d, i);
      FileLineRoundTrip(d[i].NewFile?, d[i].path);
    }
  }

  /** Converting makes other file lines of the same kinds, and normalizing undoes it. */
  lemma PathPasses(d: seq<DiffLine>)
    requires PlainDiff(d)
    ensures var lines := Rendered(d);
            var c := PatchPaths.Converted(lines, |lines|);
            && AllLook(c, d) && PatchPaths.Normalized(c, |c|) == lines
            && forall i :: 0 <= i < |d| && d[i].Git? ==> c[i] == Render(d, i)
  {
    var lines := Rendered(d);
    var c := PatchPaths.Converted(lines, |lines|);
    RenderedLooks(d);
    forall i | 0 <= i < |d|
      ensures Looks(c[i], d[i]) && PatchPaths.Normalized(c, |c|)[i] == lines[i] && (d[i].Git? ==> c[i] == Render(d, i))
    {
      RenderedAt(d, i);
      PatchPaths.ConvertedAt(lines, |lines|, i);
      ConvertedFile(lines, d, i);
      PatchPaths.NormalizedAt(c, |c|, i);
    }
  }

  // ---- The header pass ----

  lemma {:induction false} WordsCons(w: string, s: string)
    requires w != "" && IsSolid(w)
    ensures Words(w + (" " + s)) == [w] + Words(s)
  {
    var t := w + (" " + s);
    if |w| == 1 {
      assert t[1..] == " " + s && (" " + s)[1..] == s;
      assert w == [w[0]];
    } else {
      assert t[1..] == w[1..] + (" " + s);
      WordsCons(w[1..], s);
      assert t[1] == w[1];
      assert ([w[1..]] + Words(s))[1..] == Words(s);
      assert [w[0]] + w[1..] == w;
    }
  }

  lemma WordsBegin(s: string)
    requires s != "" && !IsSpace(s[0])
    ensures Words(s) != [] && Words(s)[0] != "" && Words(s)[0][0] == s[0]
    ensures |s| > 1 && !IsSpace(s[1]) ==> Words(s)[0] == [s[0]] + Words(s[1..])[0]
    decreases |s|
  {
    if |s| > 1 && !IsSpace(s[1]) { WordsBegin(s[1..]); }
  }

  lemma {:induction false} TwoWords(u: string, v: string)
    requires u != "" && !IsSpace(u[0]) && v != "" && !IsSpace(v[0])
    ensures |Words(u + (" " + v))| >= 2
    decreases |u|
  {
    var s := u + (" " + v);
    WordsBegin(s);
    WordsBegin(v);
    if |u| == 1 {
      assert s[1..] == " " + v && (" " + v)[1..] == v;
    } else if IsSpace(u[1]) {
      assert s[1..] == u[1..] + (" " + v);
      SomeWordAfter(u[1..], v);
    } else {
      assert s[1..] == u[1..] + (" " + v);
      TwoWords(u[1..], v);
    }
  }

  lemma {:induction false} SomeWordAfter(u: string, v: string)
    requires v != "" && !IsSpace(v[0])
    ensures |Words(u + (" " + v))| >= 1
    decreases |u|
  {
    var s := u + (" " + v);
    if u == "" {
      assert s == " " + v && s[1..] == v;
      WordsBegin(v);
    } else if IsSpace(u[0]) {
      assert s[1..] == u[1..] + (" " + v);
      SomeWordAfter(u[1..], v);
    } else {
      WordsBegin(s);
    }
  }

  lemma GitPathNamed(p: string, q: string)
    requires PathOk(p) && PathOk(q)
    ensures HeaderRepair.GitPath("diff --git" + (" a/" + (p + (" b/" + q)))) != ""
  {
    var line := "diff --git" + (" a/" + (p + (" b/" + q)));
    var paths := "a/" + (p + (" b/" + q));
    StripsBegin(p);
    GitWords(line, paths);
    var u := "a/" + p;
    assert paths == u + (" " + ("b/" + q)) by {
      ConcatAssoc("a/", p, " b/" + q);
      assert " b/" + q == " " + ("b/" + q);
    }
    TwoWords(u, "b/" + q);
    ThirdWord(paths);
    assert HeaderRepair.WithoutA(Words(paths)[0]) != "";
  }

  /** A `diff --git` line names its old path, if that has no spaces. */
  lemma GitPathIs(p: string, q: string)
    requires p != "" && IsSolid(p)
    ensures HeaderRepair.GitPath("diff --git" + (" a/" + (p + (" b/" + q)))) == p
  {
    var line := "diff --git" + (" a/" + (p + (" b/" + q)));
    var paths := "a/" + (p + (" b/" + q));
    var u := "a/" + p;
    GitWords(line, paths);
    assert paths == u + (" " + ("b/" + q)) by {
      ConcatAssoc("a/", p, " b/" + q);
      assert " b/" + q == " " + ("b/" + q);
    }
    assert IsSolid(u);
    WordsCons(u, "b/" + q);
    WordsBegin("b/" + q);
    assert "a/" <= u && u[2..] == p;
  }

  lemma {:induction false} NearestIs(out: seq<string>, k: nat, n: nat)
    requires k < n <= |out| && HeaderRepair.IsGitLine(out[k])
    requires forall j :: k < j < n ==> !HeaderRepair.IsGitLine(out[j])
    ensures HeaderRepair.NearestPath(out, n) == HeaderRepair.GitPath(out[k])
  {
    if k < n - 1 { NearestIs(out, k, n - 1); }
  }

  /** A bare hunk after a `diff --git` line gets the headers of that line's old path. */
  lemma BareHunkGetsHeaders(out: seq<string>, k: nat, p: string, q: string)
    requires p != "" && IsSolid(p) && k < |out| && out[k] == "diff --git" + (" a/" + (p + (" b/" + q)))
    requires (forall j :: k < j < |out| ==> !HeaderRepair.IsGitLine(out[j])) && !HeaderRepair.HeaderNear(out)
    ensures HeaderRepair.Insertion(out) == [PatchPaths.HeaderLine(false, p)] + [PatchPaths.HeaderLine(true, p)]
  {
    GitPathIs(p, q);
    assert "diff --git" <= out[k];
    NearestIs(out, k, |out|);
  }

  lemma StripsBegin(p: string)
    requires p != "" && Strip(p) == p
    ensures !IsSpace(p[0])
  {
    PatchPaths.StripsShrink(p);
    assert IsSpace(p[0]) ==> |StripLeft(p)| < |p|;
  }

  lemma GitWords(line: string, paths: string)
    requires line == "diff --git" + (" " + paths)
    ensures Words(line) == ["diff"] + (["--git"] + Words(paths))
  {
    var rest := "--git" + (" " + paths);
    assert line == "diff" + (" " + rest) by {
      assert "diff --git" == "diff" + (" " + "--git");
      ConcatAssoc("diff", " " + "--git", " " + paths);
      ConcatAssoc(" ", "--git", " " + paths);
    }
    WordsCons("diff", rest);
    WordsCons("--git", paths);
  }

  lemma ThirdWord(s: string)
    requires |s| >= 3 && s[0] == 'a' && s[1] == '/' && !IsSpace(s[2])
    ensures Words(s) != [] && |Words(s)[0]| >= 3
  {
    WordsBegin(s);
    WordsBegin(s[1..]);
    WordsBegin(s[2..]);
    assert s[1..][1..] == s[2..];
  }

  /** Git lines keep their words; every line looks as it should. */
  ghost predicate Named(lines: seq<string>, d: seq<DiffLine>) {
    AllLook(lines, d) && forall i :: 0 <= i < |d| && d[i].Git? ==> lines[i] == Render(d, i)
  }

  lemma {:induction false} PathKnown(lines: seq<string>, d: seq<DiffLine>, n: nat)
    requires WellFormed(d) && Named(lines, d) && 0 < n <= |d|
    ensures HeaderRepair.NearestPath(lines, n) != ""
  {
    assert Looks(lines[n - 1], d[n - 1]);
    if d[n - 1].Git? {
      assert LineOk(d[n - 1]);
      GitPathNamed(d[n - 1].oldPath, d[n - 1].newPath);
    } else {
      PathKnown(lines, d, n - 1);
    }
  }

  lemma {:induction false} NearestInPrefix(lines: seq<string>, n: nat, k: nat)
    requires k <= n <= |lines|
    ensures HeaderRepair.NearestPath(lines[..n], k) == HeaderRepair.NearestPath(lines, k)
  {
    if k > 0 { NearestInPrefix(lines, n, k - 1); }
  }

  lemma NearIffFileLine(lines: seq<string>, d: seq<DiffLine>, i: nat)
    requires PlainDiff(d) && AllLook(lines, d) && 0 < i < |d| && d[i].HunkStart?
    ensures HeaderRepair.HeaderNear(lines[..i]) <==> NearHeader(d, i)
  {
    var out := lines[..i];
    forall j | 0 <= j < i ensures HeaderRepair.IsFileHeader(out[j]) <==> IsFileLine(d[j]) {
      assert Looks(lines[j], d[j]) && PlainAt(d[j]);
    }
    assert FollowsAt(d, i);
    if d[i - 1].NewFile? { assert HeaderRepair.IsFileHeader(out[i - 1]); }
    if i >= 2 { assert FollowsAt(d, i - 1); }
    if i >= 3 {
      assert FollowsAt(d, i - 2);
      if d[i - 3].NewFile? { assert HeaderRepair.IsFileHeader(out[i - 3]); }
    }
  }

  lemma InsertionAt(lines: seq<string>, d: seq<DiffLine>, i: nat)
    requires PlainDiff(d) && Named(lines, d) && 0 < i < |d| && d[i].HunkStart?
    ensures HeaderRepair.Insertion(lines[..i]) == [] <==> NearHeader(d, i)
  {
    NearIffFileLine(lines, d, i);
    PathKnown(lines, d, i);
    NearestInPrefix(lines, i, i);
    InsertsUnlessNear(lines[..i]);
  }

  lemma KindAt(lines: seq<string>, d: seq<DiffLine>, i: nat)
    requires AllLook(lines, d) && i < |d|
    ensures HeaderRepair.StartsHunk(lines[i]) <==> d[i].HunkStart?
  {
    assert Looks(lines[i], d[i]);
  }

  /** Nothing is inserted exactly when every hunk has a file header among the three lines before it. */
  lemma InsertionIff(lines: seq<string>, d: seq<DiffLine>)
    requires PlainDiff(d) && Named(lines, d)
    ensures HeaderRepair.Stable(lines) <==> HunksNearHeaders(d)
  {
    if HeaderRepair.Stable(lines) {
      forall i | 0 < i < |d| && d[i].HunkStart? ensures NearHeader(d, i) {
        KindAt(lines, d, i);
        assert HeaderRepair.Insertion(lines[..i]) == [];
        InsertionAt(lines, d, i);
      }
    }
    if HunksNearHeaders(d) {
      forall k | 0 <= k < |d| && HeaderRepair.StartsHunk(lines[k]) ensures HeaderRepair.Insertion(lines[..k]) == [] {
        KindAt(lines, d, k);
        assert NearHeader(d, k);
        InsertionAt(lines, d, k);
      }
    }
  }

  lemma InsertsUnlessNear(out: seq<string>)
    requires HeaderRepair.NearestPath(out, |out|) != ""
    ensures HeaderRepair.Insertion(out) == [] <==> HeaderRepair.HeaderNear(out)
  {
    assert |HeaderRepair.HeaderPair(HeaderRepair.PathFor(out))| == 2;
  }

  // ---- The count pass ----

  lemma BodyStands(d: seq<DiffLine>, i: nat, k: nat)
    requires i < |d| && k < |BodyFrom(d, i + 1)|
    ensures Rendered(d)[i + 1 + k] == RenderLine(BodyFrom(d, i + 1)[k])
  {
    assert d[i + 1 + k] == Body(BodyFrom(d, i + 1)[k]);
    RenderedAt(d, i + 1 + k);
  }

  lemma NextAfterBody(d: seq<DiffLine>, i: nat, end: nat)
    requires WellFormed(d) && i < |d| && d[i].HunkStart?
    requires end == i + 1 + |BodyFrom(d, i + 1)| && end < |d|
    ensures d[end].Git? || d[end].HunkStart?
  {
    var body := BodyFrom(d, i + 1);
    assert FollowsAt(d, i + 1);
    assert d[i + 1 + (|body| - 1)] == Body(body[|body| - 1]);
    assert FollowsAt(d, end);
  }

  lemma StopsThere(d: seq<DiffLine>, k: nat)
    requires WellFormed(d) && k < |d| && (d[k].Git? || d[k].HunkStart?)
    ensures StopsBody(Rendered(d)[k])
  {
    assert LineOk(d[k]);
    LooksRight(d, k);
    StopsAtNext(Rendered(d)[k], d[k]);
  }

  lemma HeaderLineIs(d: seq<DiffLine>, i: nat, body: seq<HunkLine>)
    requires i < |d| && d[i].HunkStart? && body == BodyFrom(d, i + 1)
    ensures Rendered(d)[i] == FormatHeader(d[i].oldStart, |OldLines(body)|, d[i].newStart, |NewLines(body)|, d[i].section)
  {
    RenderedAt(d, i);
  }

  lemma HeaderStands(d: seq<DiffLine>, i: nat)
    requires i < |d| && d[i].HunkStart?
    ensures var body := BodyFrom(d, i + 1);
            && Rendered(d)[i] == FormatHeader(d[i].oldStart, |OldLines(body)|, d[i].newStart, |NewLines(body)|, d[i].section)
            && ParseHeader(Rendered(d)[i]) == Some(HunkHeader(Span(d[i].oldStart, Some(|OldLines(body)|)),
                                                             Span(d[i].newStart, Some(|NewLines(body)|)), d[i].section))
  {
    var body := BodyFrom(d, i + 1);
    HeaderLineIs(d, i, body);
    ParseFormat(d[i].oldStart, |OldLines(body)|, d[i].newStart, |NewLines(body)|, d[i].section);
  }

  lemma HunkStandsThere(d: seq<DiffLine>, i: nat, lines: seq<string>, body: seq<HunkLine>)
    requires i < |d| && d[i].HunkStart? && lines == Rendered(d) && body == BodyFrom(d, i + 1)
    requires i + 1 + |body| == |d| || StopsBody(lines[i + 1 + |body|])
    ensures HunkAt(lines, i, body)
  {
    forall k | 0 <= k < |body| ensures lines[i + 1 + k] == RenderLine(body[k]) {
      BodyStands(d, i, k);
    }
    HeaderStands(d, i);
  }

  lemma StopsAtNext(s: string, x: DiffLine)
    requires Looks(s, x) && (x.Git? || x.HunkStart?)
    ensures StopsBody(s)
  {
    if x.Git? { assert "diff " <= "diff --git" <= s; }
  }

  lemma AfterBody(d: seq<DiffLine>, i: nat, end: nat)
    requires WellFormed(d) && i < |d| && d[i].HunkStart? && end == i + 1 + |BodyFrom(d, i + 1)|
    ensures end == |d| || StopsBody(Rendered(d)[end])
  {
    if end < |d| {
      NextAfterBody(d, i, end);
      StopsThere(d, end);
    }
  }

  lemma HunkStands(d: seq<DiffLine>, i: nat, lines: seq<string>, body: seq<HunkLine>)
    requires WellFormed(d) && i < |d| && d[i].HunkStart? && lines == Rendered(d) && body == BodyFrom(d, i + 1)
    ensures HunkAt(lines, i, body)
  {
    var end := i + 1 + |body|;
    assert end == |d| || StopsBody(lines[end]) by { AfterBody(d, i, end); }
    HunkStandsThere(d, i, lines, body);
  }

  lemma PlainBody(d: seq<DiffLine>, i: nat, k: nat)
    requires PlainDiff(d) && i <= |d| && k < |BodyFrom(d, i)|
    ensures !LooksLikeFileHeader(BodyFrom(d, i)[k])
  {
    assert d[i + k] == Body(BodyFrom(d, i)[k]);
    assert PlainAt(d[i + k]);
  }

  lemma HunkCountsStand(d: seq<DiffLine>, i: nat, body: seq<HunkLine>)
    requires i < |d| && d[i].HunkStart? && body == BodyFrom(d, i + 1)
    requires HunkAt(Rendered(d), i, body) && forall k :: 0 <= k < |body| ==> !LooksLikeFileHeader(body[k])
    ensures HunkCounts.Repaired(Rendered(d))[i] == Rendered(d)[i]
  {
    HeaderStands(d, i);
    CountsRightIff(Rendered(d), i, body);
  }

  lemma CountsStand(d: seq<DiffLine>, i: nat)
    requires PlainDiff(d) && i < |d|
    ensures HunkCounts.Repaired(Rendered(d))[i] == Rendered(d)[i]
  {
    if d[i].HunkStart? {
      var body := BodyFrom(d, i + 1);
      HunkStands(d, i, Rendered(d), body);
      forall k | 0 <= k < |body| ensures !LooksLikeFileHeader(body[k]) { PlainBody(d, i + 1, k); }
      HunkCountsStand(d, i, body);
    } else {
      NotAHunk(d, i);
      NoHeaderHere(Rendered(d), i);
    }
  }

  lemma NotAHunk(d: seq<DiffLine>, i: nat)
    requires WellFormed(d) && i < |d| && !d[i].HunkStart?
    ensures !StartsWith(Rendered(d)[i], "@@")
  {
    assert LineOk(d[i]);
    LooksRight(d, i);
  }

  lemma CountsKeep(d: seq<DiffLine>)
    requires PlainDiff(d)
    ensures HunkCounts.Repaired(Rendered(d)) == Rendered(d)
  {
    forall i | 0 <= i < |d| ensures HunkCounts.Repaired(Rendered(d))[i] == Rendered(d)[i] { CountsStand(d, i); }
  }

  lemma NoHeaderHere(lines: seq<string>, i: nat)
    requires i < |lines| && !StartsWith(lines[i], "@@")
    ensures HunkCounts.Repaired(lines)[i] == lines[i]
  {
    if ParseHeader(lines[i]).Some? { HeaderStops(lines[i]); }
    RepairIsIdempotent(lines);
  }

  // ---- The whole ----

  /** No path in a file header climbs with "..". */
  ghost predicate NoDotDot(d: seq<DiffLine>) {
    forall i :: 0 <= i < |d| && IsFileLine(d[i]) && d[i].path.Some? ==> ".." !in SplitOn(d[i].path.value, '/')
  }

  lemma CheckedIff(d: seq<DiffLine>, i: nat)
    requires PlainDiff(d) && i < |d|
    ensures PatchPaths.CheckedLine(Rendered(d), i).None? <==>
              (IsFileLine(d[i]) && d[i].path.Some? ==> ".." !in SplitOn(d[i].path.value, '/'))
  {
    var lines := Rendered(d);
    RenderedLooks(d);
    assert Looks(lines[i], d[i]) && LineOk(d[i]) && PlainAt(d[i]);
    if IsFileLine(d[i]) {
      RenderedAt(d, i);
      ModeAt(lines, d, i);
      if d[i].path.Some? {
        PatchPaths.PlainHeaderAccepted(d[i].NewFile?, d[i].path.value);
      } else {
        DevNullStays(d[i].NewFile?);
      }
    }
  }

  lemma {:induction false} NoErrorIff<T>(es: seq<Option<T>>, k: nat)
    requires k <= |es|
    ensures PatchPaths.FirstSome(es, k).None? <==> forall i :: k <= i < |es| ==> es[i].None?
    decreases |es| - k
  {
    if k < |es| { NoErrorIff(es, k + 1); }
  }

  lemma AcceptedIff(d: seq<DiffLine>)
    requires PlainDiff(d)
    ensures PatchPaths.FirstError(Rendered(d)).None? <==> NoDotDot(d)
  {
    var lines := Rendered(d);
    var es := PatchPaths.Checks(lines, |lines|);
    NoErrorIff(es, 0);
    forall i | 0 <= i < |d|
      ensures es[i].None? <==> (IsFileLine(d[i]) && d[i].path.Some? ==> ".." !in SplitOn(d[i].path.value, '/'))
    {
      PatchPaths.CheckAt(lines, |lines|, i);
      CheckedIff(d, i);
    }
  }

  /** The lines counted: those of the diff exactly when nothing was inserted, more of them otherwise. */
  lemma PreparedDiff(d: seq<DiffLine>)
    requires PlainDiff(d)
    ensures var lines, r := Rendered(d), PreparedLines(Rendered(d));
            && (HunksNearHeaders(d) ==> r == lines)
            && (!HunksNearHeaders(d) ==> |r| > |lines|)
  {
    var lines := Rendered(d);
    var c := PatchPaths.Converted(lines, |lines|);
    PathPasses(d);
    InsertionIff(c, d);
    HeaderRepair.NothingAddedIff(c);
  }

  lemma FirstLineIsGit(d: seq<DiffLine>)
    requires WellFormed(d)
    ensures Rendered(d)[0] != "" && Rendered(d)[0][0] == 'd'
  {
    RenderedAt(d, 0);
    assert "diff --git"[0] == 'd';
  }

  lemma FencesKeepDiff(d: seq<DiffLine>)
    requires WellFormed(d)
    ensures PatchCleanup.StripFences(Unsplit(Rendered(d)) + "\n") == Unsplit(Rendered(d)) + "\n"
  {
    RenderedLooks(d);
    FirstLineIsGit(d);
    assert Looks(Rendered(d)[|d| - 1], d[|d| - 1]);
    FencesKeep(Rendered(d));
  }

  lemma NotBlank(lines: seq<string>)
    requires Filled(lines) && lines[0] != "" && !IsSpace(lines[0][0])
    ensures Strip(Unsplit(lines) + "\n") != ""
  {
    UnsplitEnds(lines);
    var s := Unsplit(lines) + "\n";
    assert s[0] == lines[0][0] && StripLeft(s) == s;
    KeepsFirst(s);
  }

  lemma {:induction false} KeepsFirst(s: string)
    requires s != "" && !IsSpace(s[0])
    ensures StripRight(s) != ""
  {
    if IsSpace(s[|s| - 1]) { KeepsFirst(s[..|s| - 1]); }
  }

  /** What the pipeline makes of a well-formed diff, before the path check. */
  lemma CountedDiff(d: seq<DiffLine>)
    requires WellFormed(d)
    ensures var lines, text := Rendered(d), Unsplit(Rendered(d)) + "\n";
            && PatchCleanup.StripFences(text) == text && Strip(text) != ""
            && (RepairCounts(Prepared(text)) == Unsplit(lines)
                <==> HunkCounts.Repaired(PreparedLines(CleanedLines(lines))) == lines)
  {
    var lines := Rendered(d);
    var text := Unsplit(lines) + "\n";
    var prepared := PreparedLines(CleanedLines(lines));
    RenderedLooks(d);
    FencesKeepDiff(d);
    FirstLineIsGit(d);
    NotBlank(lines);
    PreparedOnLines(lines);
    FilledTwice(prepared);
    CountedLines(Prepared(text), prepared);
    FilledTwice(lines);
    SplitParts(RepairCounts(Prepared(text)));
  }

  /** Without copied line numbers and lines that look like file headers the insertion decides. */
  lemma PlainDiffKept(d: seq<DiffLine>)
    requires PlainDiff(d) && !PatchCleanup.IsContaminated(Rendered(d))
    ensures HunkCounts.Repaired(PreparedLines(CleanedLines(Rendered(d)))) == Rendered(d) <==> HunksNearHeaders(d)
  {
    PreparedDiff(d);
    if HunksNearHeaders(d) { CountsKeep(d); }
  }
}
