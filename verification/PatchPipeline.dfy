/** The passes one after the other, as `apply_patch` runs them (services/dev_agent/service.py:745-778). */
module PatchPipeline {
  import opened Lines
  import opened Options
  import opened Text
  import HeaderRepair
  import HunkCounts
  import PatchCleanup
  import PatchPaths

  /** What `apply_patch` has before it asks git. */
  datatype Outcome = EmptyPatch | BadPath(error: PatchPaths.PathError) | Ready(patch: string)

  /** The text whose hunk counts are repaired. */
  function Prepared(raw: string): string {
    PatchPaths.NormalizePrefixes(HeaderRepair.RepairHeaders(PatchPaths.ConvertPaths(PatchCleanup.StripNumbers(raw))))
  }

  function Pipeline(patchText: string): Outcome {
    var raw := PatchCleanup.StripFences(patchText);
    if Strip(raw) == "" then EmptyPatch
    else
      var repaired := HunkCounts.RepairCounts(Prepared(raw));
      var error := PatchPaths.FirstError(SplitLines(repaired));
      if error.Some? then BadPath(error.value) else Ready(repaired)
  }

  method ApplyPatch(patchText: string) returns (outcome: Outcome)
    ensures outcome == Pipeline(patchText)
  {
    var raw := PatchCleanup.StripFences(patchText);
    if Strip(raw) == "" {
      return EmptyPatch;
    }
    raw := PatchCleanup.StripLineNumberPrefixes(raw);
    raw := PatchPaths.ConvertAbsolutePathsToRelative(raw);
    raw := HeaderRepair.RepairPatchHeaders(raw);
    raw := PatchPaths.NormalizePatchPrefixes(raw);
    raw := HunkCounts.RepairHunkCounts(raw);
    var error := PatchPaths.ValidatePatchPaths(raw);
    outcome := if error.Some? then BadPath(error.value) else Ready(raw);
  }

  // ---- The passes on lines ----

  /** Lines whose last one is not empty: joined and split again they are the same. */
  predicate Filled(lines: seq<string>) {
    AreLines(lines) && lines != [] && lines[|lines| - 1] != ""
  }

  lemma FilledTwice(lines: seq<string>)
    requires Filled(lines)
    ensures Split(Unsplit(lines)) == lines && SplitLines(Unsplit(lines)) == lines
  {
    SplitUnsplit(lines);
  }

  function CleanedLines(lines: seq<string>): seq<string> {
    if PatchCleanup.IsContaminated(lines) then PatchCleanup.Cleaned(lines, |lines|) else lines
  }

  /** All passes before the counts. */
  function PreparedLines(lines: seq<string>): seq<string> {
    var converted := PatchPaths.Converted(lines, |lines|);
    var headed := HeaderRepair.Repaired(converted, |converted|);
    PatchPaths.Normalized(headed, |headed|)
  }

  /** A text that is lines and one line break: the form the fence pass leaves. */
  lemma FencesLeaveFilled(raw: string)
    requires |raw| >= 2 && raw[|raw| - 1] == '\n' && raw[|raw| - 2] != '\n'
    ensures Filled(SplitLines(raw)) && raw == Unsplit(SplitLines(raw)) + "\n"
  {
    var lines := SplitLines(raw);
    UnsplitSplitLines(raw);
    HeaderRepair.BlankLast(raw);
    assert Unsplit(lines) != "" && Unsplit([]) == "" && Unsplit([""]) == "";
    assert |lines| == 1 ==> lines == [lines[0]];
  }

  lemma {:induction false} CleanedPrefix(lines: seq<string>, more: seq<string>, n: nat)
    requires n <= |lines| && lines <= more
    ensures PatchCleanup.Cleaned(more, n) == PatchCleanup.Cleaned(lines, n)
    ensures PatchCleanup.BodyCount(more, n) == PatchCleanup.BodyCount(lines, n)
    ensures PatchCleanup.NumberedCount(more, n) == PatchCleanup.NumberedCount(lines, n)
  {
    if n > 0 {
      CleanedPrefix(lines, more, n - 1);
      assert more[n - 1] == lines[n - 1];
    }
  }

  lemma BlankStays()
    ensures PatchCleanup.CleanLine("") == ""
  {
    assert StripLeft("") == "";
  }

  lemma LastBlank(more: seq<string>, n: nat)
    requires |more| == n + 1 && more[n] == ""
    ensures PatchCleanup.Cleaned(more, n + 1) == PatchCleanup.Cleaned(more, n) + [""]
    ensures PatchCleanup.BodyCount(more, n + 1) == PatchCleanup.BodyCount(more, n)
    ensures PatchCleanup.NumberedCount(more, n + 1) == PatchCleanup.NumberedCount(more, n)
  {
    BlankStays();
  }

  lemma BlankIsNotCounted(lines: seq<string>)
    ensures PatchCleanup.IsContaminated(lines + [""]) == PatchCleanup.IsContaminated(lines)
    ensures PatchCleanup.Cleaned(lines + [""], |lines| + 1) == PatchCleanup.Cleaned(lines, |lines|) + [""]
  {
    CleanedPrefix(lines, lines + [""], |lines|);
    LastBlank(lines + [""], |lines|);
  }

  lemma CleanedStaysFilled(lines: seq<string>)
    requires Filled(lines)
    ensures Filled(CleanedLines(lines))
  {
    if PatchCleanup.IsContaminated(lines) {
      PatchCleanup.CleanedAreLines(lines, |lines|);
      PatchCleanup.CleanedAt(lines, |lines|, |lines| - 1);
    }
  }

  lemma StripNumbersOnLines(lines: seq<string>)
    requires Filled(lines)
    ensures PatchCleanup.StripNumbers(Unsplit(lines) + "\n") == Unsplit(CleanedLines(lines)) + "\n"
  {
    SplitWithBreak(lines);
    BlankIsNotCounted(lines);
    if PatchCleanup.IsContaminated(lines) {
      var cleaned := PatchCleanup.Cleaned(lines, |lines|);
      UnsplitConcat(cleaned, [""]);
      assert "\n" + Unsplit([""]) == "\n";
    }
  }

  lemma PreparedStaysFilled(lines: seq<string>)
    requires Filled(lines)
    ensures var converted := PatchPaths.Converted(lines, |lines|);
            var headed := HeaderRepair.Repaired(converted, |converted|);
            Filled(converted) && Filled(headed) && Filled(PreparedLines(lines))
  {
    var converted := PatchPaths.Converted(lines, |lines|);
    PatchPaths.ConvertedAreLines(lines, |lines|);
    HeaderRepair.RepairedAreLines(converted, |converted|);
    HeaderRepair.LastStays(converted, |converted|);
    var headed := HeaderRepair.Repaired(converted, |converted|);
    PatchPaths.NormalizedAreLines(headed, |headed|);
    PatchPaths.ConvertedAt(lines, |lines|, |lines| - 1);
    PatchPaths.ConvertedLineStays(lines, |lines| - 1);
    PatchPaths.NormalizedAt(headed, |headed|, |headed| - 1);
    PatchPaths.NormalizedLineStays(headed[|headed| - 1]);
  }

  /** On lines and one line break the passes do to the text what they do to the lines, and the break goes. */
  lemma PreparedOnLines(lines: seq<string>)
    requires Filled(lines)
    ensures Prepared(Unsplit(lines) + "\n") == Unsplit(PreparedLines(CleanedLines(lines)))
    ensures Filled(PreparedLines(CleanedLines(lines)))
  {
    var cleaned := CleanedLines(lines);
    CleanedStaysFilled(lines);
    StripNumbersOnLines(lines);
    SplitWithBreak(cleaned);
    PreparedStaysFilled(cleaned);
    var converted := PatchPaths.Converted(cleaned, |cleaned|);
    FilledTwice(converted);
    FilledTwice(HeaderRepair.Repaired(converted, |converted|));
  }

  lemma NotEmptyEnds(patchText: string)
    requires Strip(PatchCleanup.StripFences(patchText)) != ""
    ensures var raw := PatchCleanup.StripFences(patchText);
            |raw| >= 2 && raw[|raw| - 1] == '\n' && raw[|raw| - 2] != '\n'
  {
    PatchCleanup.OneBreakAtEnd(patchText);
    assert Strip("") == "";
  }

  lemma PreparedLinesOf(raw: string)
    requires |raw| >= 2 && raw[|raw| - 1] == '\n' && raw[|raw| - 2] != '\n'
    ensures var lines := SplitLines(raw);
            Filled(lines) && Split(Prepared(raw)) == PreparedLines(CleanedLines(lines)) && Filled(PreparedLines(CleanedLines(lines)))
  {
    FencesLeaveFilled(raw);
    PreparedOnLines(SplitLines(raw));
    FilledTwice(PreparedLines(CleanedLines(SplitLines(raw))));
  }

  /**
   The lines whose hunks are counted are the patch's own lines after the passes: a patch that is not
   empty never gets an empty last line, which would count as one more line of context.
   */
  lemma NoPhantomLine(patchText: string)
    requires Strip(PatchCleanup.StripFences(patchText)) != ""
    ensures var raw := PatchCleanup.StripFences(patchText);
            && Filled(SplitLines(raw))
            && Split(Prepared(raw)) == PreparedLines(CleanedLines(SplitLines(raw)))
            && Filled(Split(Prepared(raw)))
  {
    NotEmptyEnds(patchText);
    PreparedLinesOf(PatchCleanup.StripFences(patchText));
  }

  lemma CountedStayFilled(lines: seq<string>)
    requires Filled(lines)
    ensures HunkCounts.Repaired(lines) != [] && HunkCounts.Repaired(lines)[|lines| - 1] != ""
    ensures |HunkCounts.Repaired(lines)| == |lines|
  {
    HunkCounts.RepairedStaysFilled(lines, |lines| - 1);
  }

  lemma LastLineStands(text: string, lines: seq<string>)
    requires Split(text) == lines && lines != [] && lines[|lines| - 1] != ""
    ensures SplitLines(text) == lines && !EndsInBreak(text)
  {
    LastPart(text);
  }

  lemma CountedLines(text: string, lines: seq<string>)
    requires Split(text) == lines && Filled(lines)
    ensures var counted := HunkCounts.RepairCounts(text);
            && Split(counted) == HunkCounts.Repaired(lines) && SplitLines(counted) == HunkCounts.Repaired(lines)
            && !EndsInBreak(counted)
  {
    HunkCounts.RepairTextTwice(text);
    CountedStayFilled(lines);
    LastLineStands(HunkCounts.RepairCounts(text), HunkCounts.Repaired(lines));
  }

  /** What the pipeline hands on has the lines counted, with their headers repaired. */
  lemma ReadyLines(patchText: string)
    requires Strip(PatchCleanup.StripFences(patchText)) != ""
    ensures var raw := PatchCleanup.StripFences(patchText);
            var lines := PreparedLines(CleanedLines(SplitLines(raw)));
            && Split(HunkCounts.RepairCounts(Prepared(raw))) == HunkCounts.Repaired(lines)
            && SplitLines(HunkCounts.RepairCounts(Prepared(raw))) == HunkCounts.Repaired(lines)
            && !EndsInBreak(HunkCounts.RepairCounts(Prepared(raw)))
  {
    var raw := PatchCleanup.StripFences(patchText);
    NotEmptyEnds(patchText);
    PreparedLinesOf(raw);
    CountedLines(Prepared(raw), PreparedLines(CleanedLines(SplitLines(raw))));
  }
}
