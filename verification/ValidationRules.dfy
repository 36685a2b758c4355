/**
 The rules behind the verdict of `validate_goal`, in terms of the actions alone: which tools a plan
 step needs, where its verify words must occur, which step is named next, and which path is reported
 missing (services/logic_engine/service.py:53-96 and 549-670).
 */
module ValidationRules {
  import opened GoalValidation
  import opened Seqs
  import opened TaskGraph
  import opened Text

  // ---- The tools a step needs ----

  predicate UsesOneOf(actions: seq<Action>, tools: set<string>) {
    exists a <- actions :: a.tool in tools
  }

  lemma UsesIff(actions: seq<Action>, tools: set<string>)
    ensures ToolsUsed(actions) * tools != {} <==> UsesOneOf(actions, tools)
  {
    if t :| t in ToolsUsed(actions) * tools {
      var a :| a in actions && a.tool == t;
      assert a.tool in tools;
    }
    if a :| a in actions && a.tool in tools { assert a.tool in ToolsUsed(actions) * tools; }
  }

  /**
   A step that names a tool needs an action with it, which for an install must not be one that only
   reads. Without a name the wording decides: an install needs a shell or an edit, an implementation
   an edit, a worktree or a diff, an exploration something that reads; any other step needs what an
   implementation does if the request is one, and else any action.
   */
  ghost predicate ToolRule(step: PlanStep, actions: seq<Action>, isImplementation: bool) {
    if step.tool != "" then
      && (exists a <- actions :: Lower(a.tool) == step.tool)
      && (step.installWording ==> step.tool !in {"grep", "read_file", "list_dir", "find_files", "browse_url"})
    else if step.installWording then UsesOneOf(actions, {"bash", "edit_file", "write_file"})
    else if step.implWording || (isImplementation && !step.exploreWording) then
      UsesOneOf(actions, {"create_worktree", "write_file", "edit_file", "get_diff"})
    else if step.exploreWording then UsesOneOf(actions, {"grep", "read_file", "list_dir", "find_files", "browse_url"})
    else actions != []
  }

  lemma ToolUsedIff(step: PlanStep, actions: seq<Action>, isImplementation: bool)
    ensures StepToolUsed(step, actions, isImplementation) <==> ToolRule(step, actions, isImplementation)
  {
    UsesIff(actions, INSTALL_TOOLS);
    UsesIff(actions, EDIT_TOOLS);
    UsesIff(actions, READ_TOOLS);
  }

  /** A code change is an action with one of these tools. */
  lemma CodeChangesIff(actions: seq<Action>)
    ensures HasCodeChanges(actions) <==>
              exists a <- actions :: a.tool in {"create_worktree", "write_file", "edit_file", "apply_patch", "get_diff"}
  {
    UsesIff(actions, CHANGE_TOOLS);
  }

  // ---- The words a step is verified by ----

  /** Which of the first `n` words occur in the text. */
  function FoundIn(words: seq<string>, n: nat, text: string): set<int>
    requires n <= |words|
  {
    set i {:trigger words[i]} | 0 <= i < n && Contains(text, words[i])
  }

  lemma {:induction false} MatchedIsFound(words: seq<string>, n: nat, text: string)
    requires n <= |words|
    ensures Matched(words[..n], text) == |FoundIn(words, n, text)|
  {
    if n == 0 {
      assert FoundIn(words, 0, text) == {};
    } else {
      MatchedIsFound(words, n - 1, text);
      assert words[..n][..n - 1] == words[..n - 1];
      FoundStep(words, n - 1, text);
    }
  }

  lemma FoundStep(words: seq<string>, k: nat, text: string)
    requires k < |words|
    ensures |FoundIn(words, k + 1, text)| == |FoundIn(words, k, text)| + if Contains(text, words[k]) then 1 else 0
  {
    var a, b := FoundIn(words, k, text), FoundIn(words, k + 1, text);
    var c := if Contains(text, words[k]) then a + {k} else a;
    assert k !in a;
    forall x ensures x in b <==> x in c {
      if 0 <= x < k + 1 { assert x in b <==> Contains(text, words[x]); }
    }
    assert b == c;
  }

  predicate NoSpaceIn(word: string) {
    word != "" && ' ' !in word
  }

  lemma OccursChar(s: string, word: string, i: int, k: int)
    requires OccursAt(s, word, i) && i <= k < i + |word|
    ensures 0 <= k < |s| && s[k] == word[k - i]
  {
    assert s[i..i + |word|][k - i] == s[k];
  }

  lemma OccursInPart(a: string, b: string, word: string, i: int)
    requires NoSpaceIn(word) && OccursAt(a + (" " + b), word, i)
    ensures i + |word| <= |a| || i > |a|
    ensures i + |word| <= |a| ==> OccursAt(a, word, i)
    ensures i > |a| ==> OccursAt(b, word, i - |a| - 1)
  {
    var s := a + (" " + b);
    assert s[|a|] == ' ';
    if i <= |a| < i + |word| {
      OccursChar(s, word, i, |a|);
    } else if i + |word| <= |a| {
      assert s[i..i + |word|] == a[i..i + |word|];
    } else {
      assert s[i..i + |word|] == b[i - |a| - 1..i - |a| - 1 + |word|];
    }
  }

  lemma OccursInWhole(a: string, b: string, word: string)
    ensures Contains(a, word) ==> Contains(a + (" " + b), word)
    ensures Contains(b, word) ==> Contains(a + (" " + b), word)
  {
    var s := a + (" " + b);
    if Contains(a, word) { ContainsPrefix(a, s, word); }
    if i :| 0 <= i <= |b| && OccursAt(b, word, i) {
      assert s[i + |a| + 1..i + |a| + 1 + |word|] == b[i..i + |word|];
      assert OccursAt(s, word, i + |a| + 1);
    }
  }

  lemma ContainsEither(a: string, b: string, word: string)
    requires NoSpaceIn(word)
    ensures Contains(a + (" " + b), word) <==> Contains(a, word) || Contains(b, word)
  {
    OccursInWhole(a, b, word);
    if i :| 0 <= i <= |a + (" " + b)| && OccursAt(a + (" " + b), word, i) {
      OccursInPart(a, b, word, i);
    }
  }

  lemma {:induction false} ContainsJoined(parts: seq<string>, word: string)
    requires NoSpaceIn(word)
    ensures Contains(Join(parts, " "), word) <==> exists p <- parts :: Contains(p, word)
  {
    if |parts| <= 1 {
      assert |parts| == 1 ==> parts[0] in parts;
    } else {
      ConcatAssoc(parts[0], " ", Join(parts[1..], " "));
      ContainsEither(parts[0], Join(parts[1..], " "), word);
      ContainsJoined(parts[1..], word);
      assert parts == [parts[0]] + parts[1..];
    }
  }

  lemma LowerConcat(a: string, b: string)
    ensures Lower(a + b) == Lower(a) + Lower(b)
  {
  }

  function LowerEach(parts: seq<string>): (r: seq<string>)
    ensures |r| == |parts| && forall i :: 0 <= i < |r| ==> r[i] == Lower(parts[i])
  {
    seq(|parts|, i requires 0 <= i < |parts| => Lower(parts[i]))
  }

  lemma {:induction false} LowerJoined(parts: seq<string>)
    ensures Lower(Join(parts, " ")) == Join(LowerEach(parts), " ")
  {
    if |parts| > 1 {
      LowerConcat(parts[0] + " ", Join(parts[1..], " "));
      LowerConcat(parts[0], " ");
      LowerJoined(parts[1..]);
      assert LowerEach(parts)[1..] == LowerEach(parts[1..]);
      assert Lower(" ") == " ";
    }
  }

  /** A word without a space is found in the outputs exactly when the output of one action has it, in whatever case. */
  lemma FoundInOneOutput(actions: seq<Action>, word: string)
    requires NoSpaceIn(word)
    ensures Contains(AllOutputs(actions), word) <==> exists a <- actions :: Contains(Lower(a.output), word)
  {
    var parts := LowerEach(Outputs(actions));
    LowerJoined(Outputs(actions));
    ContainsJoined(parts, word);
    if p :| p in parts && Contains(p, word) {
      var i :| 0 <= i < |parts| && parts[i] == p;
      assert actions[i] in actions;
    }
    if a :| a in actions && Contains(Lower(a.output), word) {
      var i :| 0 <= i < |actions| && actions[i] == a;
      assert parts[i] in parts;
    }
  }

  /** The words that some action's output has. */
  ghost function Verified(words: seq<string>, actions: seq<Action>): set<int> {
    set i {:trigger words[i]} | 0 <= i < |words| && exists a <- actions :: Contains(Lower(a.output), words[i])
  }

  lemma VerifiedAreFound(words: seq<string>, actions: seq<Action>)
    requires forall w <- words :: NoSpaceIn(w)
    ensures Matched(words, AllOutputs(actions)) == |Verified(words, actions)|
  {
    MatchedIsFound(words, |words|, AllOutputs(actions));
    assert words[..|words|] == words;
    forall i | 0 <= i < |words|
      ensures Contains(AllOutputs(actions), words[i]) <==> exists a <- actions :: Contains(Lower(a.output), words[i])
    {
      assert words[i] in words;
      FoundInOneOutput(actions, words[i]);
    }
    assert FoundIn(words, |words|, AllOutputs(actions)) == Verified(words, actions);
  }

  /** What a plan step needs: its tools, and more than three in ten of its words in some action's output. */
  ghost predicate Satisfied(step: PlanStep, actions: seq<Action>, isImplementation: bool) {
    && ToolRule(step, actions, isImplementation)
    && (step.verifyWords != [] ==> 10 * |Verified(step.verifyWords, actions)| > 3 * |step.verifyWords|)
  }

  /** The words come from splitting at whitespace, so none has a space. */
  predicate WordsAreSplit(step: PlanStep) {
    forall w <- step.verifyWords :: NoSpaceIn(w)
  }

  /** A step counts as done exactly when it has what it needs. */
  lemma DoneIff(step: PlanStep, actions: seq<Action>, isImplementation: bool)
    requires WordsAreSplit(step)
    ensures StepDone(step, actions, isImplementation) <==> Satisfied(step, actions, isImplementation)
  {
    ToolUsedIff(step, actions, isImplementation);
    VerifiedAreFound(step.verifyWords, actions);
  }

  /** Which of the first `n` steps have what they need. */
  ghost function SatisfiedAmong(steps: seq<PlanStep>, n: nat, actions: seq<Action>, isImplementation: bool): set<int>
    requires n <= |steps|
  {
    set i {:trigger steps[i]} | 0 <= i < n && Satisfied(steps[i], actions, isImplementation)
  }

  function TruesAmong(flags: seq<bool>, n: nat): set<int>
    requires n <= |flags|
  {
    set i {:trigger flags[i]} | 0 <= i < n && flags[i]
  }

  lemma TruesStep(flags: seq<bool>, k: nat)
    requires k < |flags|
    ensures |TruesAmong(flags, k + 1)| == |TruesAmong(flags, k)| + if flags[k] then 1 else 0
  {
    var a, b := TruesAmong(flags, k), TruesAmong(flags, k + 1);
    assert k !in a;
    assert b == if flags[k] then a + {k} else a;
  }

  ghost predicate AreDone(flags: seq<bool>, steps: seq<PlanStep>, actions: seq<Action>, isImplementation: bool) {
    |flags| == |steps| && forall i {:trigger flags[i]} :: 0 <= i < |steps| ==> flags[i] == StepDone(steps[i], actions, isImplementation)
  }

  ghost predicate AreSatisfied(flags: seq<bool>, steps: seq<PlanStep>, actions: seq<Action>, isImplementation: bool) {
    |flags| == |steps| && forall i {:trigger flags[i]} :: 0 <= i < |steps| ==> flags[i] == Satisfied(steps[i], actions, isImplementation)
  }

  lemma DoneCountLast(steps: seq<PlanStep>, actions: seq<Action>, isImplementation: bool, done: bool)
    requires steps != [] && done == StepDone(steps[|steps| - 1], actions, isImplementation)
    ensures DoneCount(steps, actions, isImplementation) ==
              DoneCount(steps[..|steps| - 1], actions, isImplementation) + if done then 1 else 0
  {
  }

  lemma DoneCountTake(steps: seq<PlanStep>, n: nat, actions: seq<Action>, isImplementation: bool, flags: seq<bool>)
    requires 0 < n <= |steps| == |flags| && flags[n - 1] == StepDone(steps[n - 1], actions, isImplementation)
    requires DoneCount(steps[..n - 1], actions, isImplementation) == |TruesAmong(flags, n - 1)|
    ensures DoneCount(steps[..n], actions, isImplementation) == |TruesAmong(flags, n)|
  {
    TruesStep(flags, n - 1);
    DoneCountLast(steps[..n], actions, isImplementation, flags[n - 1]);
    assert steps[..n][..n - 1] == steps[..n - 1];
  }

  lemma {:induction false} DoneCountIsTrues(
    steps: seq<PlanStep>, n: nat, actions: seq<Action>, isImplementation: bool, flags: seq<bool>)
    requires n <= |steps| && AreDone(flags, steps, actions, isImplementation)
    ensures DoneCount(steps[..n], actions, isImplementation) == |TruesAmong(flags, n)|
  {
    if n == 0 {
      assert TruesAmong(flags, 0) == {};
    } else {
      DoneCountIsTrues(steps, n - 1, actions, isImplementation, flags);
      DoneCountTake(steps, n, actions, isImplementation, flags);
    }
  }

  lemma DoneFlags(steps: seq<PlanStep>, actions: seq<Action>, isImplementation: bool) returns (flags: seq<bool>)
    requires forall step <- steps :: WordsAreSplit(step)
    ensures AreDone(flags, steps, actions, isImplementation) && AreSatisfied(flags, steps, actions, isImplementation)
  {
    flags := seq(|steps|, i requires 0 <= i < |steps| => StepDone(steps[i], actions, isImplementation));
    forall i | 0 <= i < |steps|
      ensures flags[i] == StepDone(steps[i], actions, isImplementation) == Satisfied(steps[i], actions, isImplementation)
    {
      assert steps[i] in steps;
      DoneIff(steps[i], actions, isImplementation);
    }
  }

  lemma StepsReported(steps: seq<PlanStep>, actions: seq<Action>, isImplementation: bool)
    requires forall step <- steps :: WordsAreSplit(step)
    ensures DoneCount(steps, actions, isImplementation) == |SatisfiedAmong(steps, |steps|, actions, isImplementation)|
    ensures var next := NextPending(steps, actions, isImplementation);
            && (next < |steps| ==> !Satisfied(steps[next], actions, isImplementation))
            && forall i :: 0 <= i < next ==> Satisfied(steps[i], actions, isImplementation)
  {
    var flags := DoneFlags(steps, actions, isImplementation);
    DoneCountIsTrues(steps, |steps|, actions, isImplementation, flags);
    assert steps[..|steps|] == steps;
    TruesAreSatisfied(steps, actions, isImplementation, flags);
    NextIsFalse(steps, actions, isImplementation, flags);
  }

  lemma IncompleteFields(req: Request, actions: seq<Action>, advisoryAnswer: bool)
    ensures var v, impl := VerdictOf(req, actions, advisoryAnswer), IsImplementation(req);
            v.PlanIncomplete? ==>
              && v.done == DoneCount(req.steps, actions, impl) && v.total == |req.steps|
              && v.next == NextPending(req.steps, actions, impl) < |req.steps|
  {
  }

  /**
   An unfinished plan is reported with the number of steps that have what they need, and names the
   first step that has not.
   */
  lemma PlanIncompleteNames(req: Request, actions: seq<Action>, advisoryAnswer: bool)
    requires forall step <- req.steps :: WordsAreSplit(step)
    ensures var v, impl := VerdictOf(req, actions, advisoryAnswer), IsImplementation(req);
            v.PlanIncomplete? ==>
              && v.done == |SatisfiedAmong(req.steps, |req.steps|, actions, impl)| && v.total == |req.steps|
              && v.next < |req.steps| && !Satisfied(req.steps[v.next], actions, impl)
              && forall i :: 0 <= i < v.next ==> Satisfied(req.steps[i], actions, impl)
  {
    StepsReported(req.steps, actions, IsImplementation(req));
    IncompleteFields(req, actions, advisoryAnswer);
  }

  lemma TruesAreSatisfied(steps: seq<PlanStep>, actions: seq<Action>, isImplementation: bool, flags: seq<bool>)
    requires AreSatisfied(flags, steps, actions, isImplementation)
    ensures TruesAmong(flags, |steps|) == SatisfiedAmong(steps, |steps|, actions, isImplementation)
  {
  }

  lemma NextIsFalse(steps: seq<PlanStep>, actions: seq<Action>, isImplementation: bool, flags: seq<bool>)
    requires AreDone(flags, steps, actions, isImplementation) && AreSatisfied(flags, steps, actions, isImplementation)
    ensures var next := NextPending(steps, actions, isImplementation);
            && (next < |steps| ==> !Satisfied(steps[next], actions, isImplementation))
            && forall i :: 0 <= i < next ==> Satisfied(steps[i], actions, isImplementation)
  {
    var next := NextPending(steps, actions, isImplementation);
    if next < |steps| { assert !flags[next]; }
    forall i | 0 <= i < next ensures Satisfied(steps[i], actions, isImplementation) { assert flags[i]; }
  }

  // ---- What the request is ----

  lemma KeptInMiddle(before: string, text: string, after: string, word: string)
    requires Contains(text, word)
    ensures Contains(before + text + after, word)
  {
    var i :| 0 <= i <= |text| && OccursAt(text, word, i);
    var s := before + text + after;
    assert s[|before| + i..|before| + i + |word|] == text[i..i + |word|];
    assert OccursAt(s, word, |before| + i);
  }

  lemma {:induction false} PartInJoin(parts: seq<string>, k: nat, sep: string, word: string)
    requires k < |parts| && Contains(Lower(parts[k]), word)
    ensures Contains(Lower(Join(parts, sep)), word)
  {
    if |parts| > 1 {
      var rest := Join(parts[1..], sep);
      LowerConcat(parts[0] + sep, rest);
      LowerConcat(parts[0], sep);
      if k == 0 {
        KeptInMiddle("", Lower(parts[0]), Lower(sep) + Lower(rest), word);
        assert "" + Lower(parts[0]) + (Lower(sep) + Lower(rest)) == Lower(parts[0]) + Lower(sep) + Lower(rest);
      } else {
        PartInJoin(parts[1..], k - 1, sep, word);
        KeptInMiddle(Lower(parts[0]) + Lower(sep), Lower(rest), "", word);
        assert Lower(parts[0]) + Lower(sep) + Lower(rest) + "" == Lower(parts[0]) + Lower(sep) + Lower(rest);
      }
    }
  }

  /** The words of the request: its title, its description and its criteria, in whatever case. */
  ghost predicate Mentions(req: Request, word: string) {
    || Contains(Lower(req.goal.title), word) || Contains(Lower(req.goal.description), word)
    || exists k :: 0 <= k < |Criteria(req)| && Contains(Lower(Criteria(req)[k]), word)
  }

  lemma MentionIsThere(req: Request, word: string)
    requires Mentions(req, word)
    ensures Contains(Lower(req.goal.title + " " + req.goal.description + " " + Join(Criteria(req), ";")), word)
  {
    var title, description, rest := req.goal.title, req.goal.description, Join(Criteria(req), ";");
    var whole := title + " " + description + " " + rest;
    LowerConcat(title + " " + description + " ", rest);
    LowerConcat(title + " " + description, " ");
    LowerConcat(title + " ", description);
    LowerConcat(title, " ");
    var t, d, r := Lower(title), Lower(description), Lower(rest);
    assert Lower(" ") == " ";
    if Contains(t, word) {
      KeptInMiddle("", t, " " + d + " " + r, word);
      assert "" + t + (" " + d + " " + r) == Lower(whole);
    } else if Contains(d, word) {
      KeptInMiddle(t + " ", d, " " + r, word);
      assert t + " " + d + (" " + r) == Lower(whole);
    } else {
      var k :| 0 <= k < |Criteria(req)| && Contains(Lower(Criteria(req)[k]), word);
      PartInJoin(Criteria(req), k, ";", word);
      KeptInMiddle(t + " " + d + " ", r, "", word);
      assert t + " " + d + " " + r + "" == Lower(whole);
    }
  }

  /** A request is for an implementation if its intent says so, or if it mentions one of these words anywhere. */
  lemma AsksForImplementation(req: Request, word: string)
    ensures Strip(Lower(req.goal.intent)) in {"fix", "implement"} ==> IsImplementation(req)
    ensures (word in ["implement", "add", "create", "build", "fix", "modify", "update", "enable", "install", "set up",
                      "refactor", "change", "write", "syntax highlight", "highlighting", "highlight "]
             && Mentions(req, word)) ==> IsImplementation(req)
  {
    if word in IMPLEMENTATION_WORDS && Mentions(req, word) { MentionIsThere(req, word); }
  }

  /** The part without the spaces around it, if anything is left. */
  function Trimmed(part: string): seq<string> {
    if Strip(part) == "" then [] else [Strip(part)]
  }

  function NonBlank(parts: seq<string>): seq<string> {
    if parts == [] then [] else NonBlank(parts[..|parts| - 1]) + Trimmed(parts[|parts| - 1])
  }

  lemma {:induction false} NonBlankCons(part: string, parts: seq<string>)
    ensures NonBlank([part] + parts) == Trimmed(part) + NonBlank(parts)
  {
    var all := [part] + parts;
    if parts == [] {
      assert all[..0] == [] && all[0] == part;
    } else {
      var before, last := parts[..|parts| - 1], parts[|parts| - 1];
      assert all[..|all| - 1] == [part] + before && all[|all| - 1] == last;
      NonBlankCons(part, before);
      ConcatAssoc(Trimmed(part), NonBlank(before), Trimmed(last));
    }
  }

  lemma {:induction false} StrippedAreNonBlank(parts: seq<string>)
    ensures NonEmptyStripped(parts) == NonBlank(parts)
  {
    if parts != [] {
      assert parts == [parts[0]] + parts[1..];
      NonBlankCons(parts[0], parts[1..]);
      StrippedAreNonBlank(parts[1..]);
    }
  }

  /** The caller's criteria count as they are; else those of the goal, between semicolons, without blank ones. */
  lemma CriteriaAreParts(req: Request, parts: seq<string>)
    requires parts != [] && (forall i :: 0 <= i < |parts| ==> ';' !in parts[i]) && req.goal.criteria == Join(parts, ";")
    ensures req.successCriteria != [] ==> Criteria(req) == req.successCriteria
    ensures req.successCriteria == [] ==> Criteria(req) == NonBlank(parts)
  {
    SplitJoined(parts, ';');
    StrippedAreNonBlank(parts);
    if req.goal.criteria == "" { BlankParts(parts); }
  }

  lemma BlankParts(parts: seq<string>)
    requires parts != [] && Join(parts, ";") == ""
    ensures NonBlank(parts) == []
  {
    assert |parts| == 1 && parts[0] == "" && parts[..0] == [];
    assert Strip("") == "";
  }

  // ---- Missing paths ----

  /** The actions that failed on this missing path. */
  function FailuresOn(actions: seq<Action>, n: nat, path: string): set<int>
    requires n <= |actions|
  {
    set i {:trigger actions[i]} | 0 <= i < n && MissingPath(actions[i]) == path
  }

  lemma FailuresStep(actions: seq<Action>, k: nat, path: string)
    requires k < |actions|
    ensures |FailuresOn(actions, k + 1, path)| == |FailuresOn(actions, k, path)| + if MissingPath(actions[k]) == path then 1 else 0
  {
    var a, b := FailuresOn(actions, k, path), FailuresOn(actions, k + 1, path);
    assert k !in a;
    assert b == if MissingPath(actions[k]) == path then a + {k} else a;
  }

  lemma {:induction false} FailuresCounted(actions: seq<Action>, n: nat, path: string)
    requires n <= |actions|
    ensures Occurrences(MissingPaths(actions)[..n], path) == |FailuresOn(actions, n, path)|
  {
    if n == 0 {
      assert FailuresOn(actions, 0, path) == {};
    } else {
      FailuresCounted(actions, n - 1, path);
      FailuresStep(actions, n - 1, path);
      OccurrencesTake(MissingPaths(actions), n, path);
    }
  }

  lemma OccurrencesTake(paths: seq<string>, n: nat, path: string)
    requires 0 < n <= |paths|
    ensures Occurrences(paths[..n], path) == Occurrences(paths[..n - 1], path) + if paths[n - 1] == path then 1 else 0
  {
    assert paths[..n][..n - 1] == paths[..n - 1];
  }

  /** A path is reported missing exactly when five actions failed on it, whatever came between. */
  lemma PathIsMissingIff(actions: seq<Action>)
    ensures PathIsMissing(actions) <==> exists path :: path != "" && |FailuresOn(actions, |actions|, path)| >= 5
  {
    assert MissingPaths(actions)[..|actions|] == MissingPaths(actions);
    forall path ensures FailureCount(actions, path) == |FailuresOn(actions, |actions|, path)| {
      FailuresCounted(actions, |actions|, path);
    }
    if path :| path != "" && |FailuresOn(actions, |actions|, path)| >= 5 { assert FailureCount(actions, path) >= 5; }
  }

  /** The output says that something is missing. */
  predicate SaysMissing(output: string) {
    exists marker <- ["no such file", "not found", "does not exist", "enoent"] :: Contains(Lower(output), marker)
  }

  /** A failed read of a missing path counts for the path it was given; nothing else counts for a path given. */
  lemma GivenPathCounts(a: Action)
    requires NormalizePath(a.path) != ""
    ensures MissingPath(a) ==
              if !a.success && a.tool in {"read_file", "list_dir", "read_worktree_file"} && SaysMissing(a.output)
              then NormalizePath(a.path) else ""
  {
    assert MISSING_MARKERS == ["no such file", "not found", "does not exist", "enoent"];
  }

  /** A path as the tools take it: no spaces around it, relative to the workspace. */
  predicate IsRelativePath(path: string) {
    path != "" && Strip(path) == path && path[0] != '/'
  }

  /** Spelled with or without the workspace in front it is the same path. */
  lemma SpellingsAgree(path: string)
    requires IsRelativePath(path)
    ensures NormalizePath(path) == path && NormalizePath("/workspace/" + path) == path
  {
    assert "/workspace/"[0] == '/' && "/workspace"[0] == '/';
    var long := "/workspace/" + path;
    assert StripLeft(long) == long;
    StripRightKeeps(path);
    EndsSolid("/workspace/", path);
    assert long[11..] == path;
  }

  /** A path that is no spaces keeps a name, and the workspace itself keeps its own. */
  lemma NoPathIsLost(path: string)
    ensures NormalizePath(path) == "" <==> Strip(path) == ""
    ensures Strip(path) == "/workspace" || Strip(path) == "/workspace/" ==> NormalizePath(path) == Strip(path)
  {
    assert Strip("") == "";
    RootIsLeft(Strip(path));
  }

  lemma RootIsLeft(s: string)
    ensures s == "/workspace" ==> !StartsWith(s, "/workspace/") && StripLeftOf(s[10..], "/") == ""
  {
  }

  lemma StripRightKeeps(path: string)
    requires path != "" && Strip(path) == path
    ensures !IsSpace(path[|path| - 1])
  {
  }

  lemma EndsSolid(head: string, path: string)
    requires path != "" && !IsSpace(path[|path| - 1])
    ensures StripRight(head + path) == head + path
  {
  }

  // ---- The path an output names ----

  lemma {:induction false} FirstOccurrence(text: string, part: string, i: nat, at: nat)
    requires i <= at <= |text| && OccursAt(text, part, at) && forall j :: i <= j < at ==> !OccursAt(text, part, j)
    ensures FindFrom(text, part, i) == at
    decreases at - i
  {
    if i < at { FirstOccurrence(text, part, i + 1, at); }
  }

  lemma {:induction false} WordFirst(word: string, rest: string)
    requires IsSolid(word) && (rest == "" || IsSpace(rest[0]))
    ensures FirstWord(word + rest) == word
  {
    if word == "" {
      assert word + rest == rest;
    } else {
      assert (word + rest)[1..] == word[1..] + rest;
      WordFirst(word[1..], rest);
      assert word == [word[0]] + word[1..];
    }
  }

  lemma {:induction false} StripRightBehind(word: string, rest: string)
    requires word != "" && !IsSpace(word[|word| - 1])
    ensures StripRight(word + rest) == word + StripRight(rest)
    ensures StripRight(rest) <= rest
  {
    if rest == "" {
      assert word + rest == word;
    } else if IsSpace(rest[|rest| - 1]) {
      assert (word + rest)[..|word + rest| - 1] == word + rest[..|rest| - 1];
      StripRightBehind(word, rest[..|rest| - 1]);
    }
  }

  /** The word after a marker and a space. */
  lemma WordAfterSpace(word: string, rest: string)
    requires word != "" && IsSolid(word) && (rest == "" || IsSpace(rest[0]))
    ensures FirstWord(Strip(" " + (word + rest))) == word
  {
    var s := " " + (word + rest);
    assert s[1..] == word + rest && StripLeft(s) == StripLeft(word + rest) == word + rest;
    StripRightBehind(word, rest);
    var tail := StripRight(rest);
    assert tail != "" ==> tail[0] == rest[0];
    WordFirst(word, tail);
  }

  predicate IsQuote(q: string) {
    q == "" || q == "'" || q == "\""
  }

  lemma QuotesGo(q: string, path: string)
    requires IsQuote(q) && path != "" && path[0] !in "'\"" && path[|path| - 1] !in "'\""
    ensures StripRightOf(StripLeftOf(q + path + q, "'\""), "'\"") == path
  {
    if q == "" {
      assert q + path + q == path;
    } else {
      var s := q + path + q;
      assert s[1..] == path + q && s[0] in "'\"";
      assert (path + q)[..|path + q| - 1] == path;
    }
  }

  lemma QuotedPath(q: string, path: string, after: string)
    requires IsQuote(q) && path != "" && IsSolid(path) && path[0] !in "'\"" && path[|path| - 1] !in "'\""
    requires after == "" || IsSpace(after[0])
    ensures PathBehind(" " + ((q + path + q) + after)) == NormalizePath(path)
  {
    QuotedIsSolid(q, path);
    WordAfterSpace(q + path + q, after);
    QuotesGo(q, path);
  }

  lemma MarkerThere(before: string, marker: string, rest: string, out: string)
    requires out == before + (marker + rest)
    ensures OccursAt(out, marker, |before|) && out[|before| + |marker|..] == rest
  {
    assert out[|before|..|before| + |marker|] == marker;
  }

  lemma {:induction false} EarlierMarkers(out: string, markers: seq<string>, k: nat)
    requires k <= |markers| && forall i :: 0 <= i < k ==> !Contains(out, markers[i])
    ensures BehindMarker(out, markers) == BehindMarker(out, markers[k..])
    decreases k
  {
    if k == 0 {
      assert markers[0..] == markers;
    } else {
      assert FindFrom(out, markers[0], 0) == -1;
      assert markers[1..][k - 1..] == markers[k..];
      EarlierMarkers(out, markers[1..], k - 1);
    }
  }

  lemma MarkerBegins(out: string, markers: seq<string>, at: nat)
    requires markers != [] && FindFrom(out, markers[0], 0) == at
    ensures BehindMarker(out, markers) == at + |markers[0]|
  {
  }

  lemma QuotedIsSolid(q: string, path: string)
    requires IsQuote(q) && IsSolid(path) && path != ""
    ensures IsSolid(q + path + q) && q + path + q != ""
  {
  }

  lemma MarkerFound(out: string, markers: seq<string>, k: nat, before: string, rest: string)
    requires k < |markers| && out == before + (markers[k] + rest)
    requires forall j :: 0 <= j < k ==> !Contains(out, markers[j])
    requires forall i :: 0 <= i < |before| ==> !OccursAt(out, markers[k], i)
    ensures BehindMarker(out, markers) == |before| + |markers[k]| <= |out| && out[|before| + |markers[k]|..] == rest
  {
    MarkerThere(before, markers[k], rest, out);
    FirstOccurrence(out, markers[k], 0, |before|);
    MarkerBegins(out, markers[k..], |before|);
    EarlierMarkers(out, markers, k);
  }

  lemma PathIsBehind(out: string, at: nat, rest: string)
    requires BehindMarker(out, PATH_MARKERS) == at <= |out| && out[at..] == rest
    ensures PathFromOutput(out) == PathBehind(rest)
  {
  }

  /**
   Without a path of its own a failed action counts for the path its output names: the word behind
   the first marker that occurs, with or without quotes around it.
   */
  lemma PathIsNamed(a: Action, k: nat, before: string, q: string, path: string, after: string)
    requires !a.success && a.tool in {"read_file", "list_dir", "read_worktree_file"} && SaysMissing(a.output)
    requires NormalizePath(a.path) == "" && k < |PATH_MARKERS|
    requires Lower(a.output) == before + (PATH_MARKERS[k] + (" " + ((q + path + q) + after)))
    requires forall j :: 0 <= j < k ==> !Contains(Lower(a.output), PATH_MARKERS[j])
    requires forall i :: 0 <= i < |before| ==> !OccursAt(Lower(a.output), PATH_MARKERS[k], i)
    requires IsQuote(q) && path != "" && IsSolid(path) && path[0] !in "'\"" && path[|path| - 1] !in "'\""
    requires after == "" || IsSpace(after[0])
    ensures MissingPath(a) == NormalizePath(path)
  {
    var out, rest := Lower(a.output), " " + ((q + path + q) + after);
    MarkerFound(out, PATH_MARKERS, k, before, rest);
    QuotedPath(q, path, after);
    PathIsBehind(out, |before| + |PATH_MARKERS[k]|, rest);
    NamedPathCounts(a);
  }

  lemma NamedPathCounts(a: Action)
    requires !a.success && a.tool in {"read_file", "list_dir", "read_worktree_file"} && SaysMissing(a.output)
    requires NormalizePath(a.path) == ""
    ensures MissingPath(a) == PathFromOutput(Lower(a.output))
  {
    assert MISSING_MARKERS == ["no such file", "not found", "does not exist", "enoent"];
  }
}
