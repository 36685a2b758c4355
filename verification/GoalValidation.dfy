/**
 The Observer's verdict: `_infer_plan_step_tool_used` and `validate_goal`
 (services/logic_engine/service.py:53-96 and 482-889).

 The three wording regexes and the advisory markers enter as the booleans they yield; feedback
 texts and confidences are not kept.
 */
module GoalValidation {
  import opened Text
  import opened TaskGraph

  /**
   A plan step: `tool` lower-cased, what the install, implementation and exploration wordings of its
   description say, and the words of `verify`, lower-cased, that are longer than three characters.
   */
  datatype PlanStep = PlanStep(tool: string, installWording: bool, implWording: bool, exploreWording: bool, verifyWords: seq<string>)

  /** The fixed part of a validation: criteria, plan, goal. */
  datatype Request = Request(goal: Goal, successCriteria: seq<string>, steps: seq<PlanStep>)

  const EDIT_TOOLS: set<string> := {"create_worktree", "write_file", "edit_file", "get_diff"}
  const READ_TOOLS: set<string> := {"grep", "read_file", "list_dir", "find_files", "browse_url"}
  const INSTALL_TOOLS: set<string> := {"bash", "edit_file", "write_file"}
  const CHANGE_TOOLS: set<string> := {"create_worktree", "write_file", "edit_file", "apply_patch", "get_diff"}
  const LOOKING_TOOLS: set<string> := {"grep", "read_file", "list_dir", "find_files", "bash", "browse_url"}
  const PATH_TOOLS: set<string> := {"read_file", "list_dir", "read_worktree_file"}

  // ---- Plan steps ----

  function ToolsUsed(actions: seq<Action>): set<string> {
    set a <- actions :: a.tool
  }

  /** `_infer_plan_step_tool_used` */
  predicate StepToolUsed(step: PlanStep, actions: seq<Action>, isImplementation: bool) {
    var used := ToolsUsed(actions);
    if step.tool != "" then
      (exists a <- actions :: Lower(a.tool) == step.tool) && !(step.installWording && step.tool in READ_TOOLS)
    else if step.installWording then used * INSTALL_TOOLS != {}
    else if step.implWording then used * EDIT_TOOLS != {}
    else if step.exploreWording then used * READ_TOOLS != {}
    else if isImplementation then used * EDIT_TOOLS != {}
    else |actions| > 0
  }

  function Outputs(actions: seq<Action>): (r: seq<string>)
    ensures |r| == |actions| && forall i :: 0 <= i < |r| ==> r[i] == actions[i].output
  {
    seq(|actions|, i requires 0 <= i < |actions| => actions[i].output)
  }

  /** `" ".join(outputs).lower()` */
  function AllOutputs(actions: seq<Action>): string {
    Lower(Join(Outputs(actions), " "))
  }

  /** How many of the words occur in the outputs. */
  function Matched(words: seq<string>, outputs: string): (n: nat)
    ensures n <= |words|
  {
    if words == [] then 0
    else Matched(words[..|words| - 1], outputs) + if Contains(outputs, words[|words| - 1]) then 1 else 0
  }

  /** More than three tenths of the verify words found; without words, the tool alone decides. */
  predicate StepDone(step: PlanStep, actions: seq<Action>, isImplementation: bool) {
    && StepToolUsed(step, actions, isImplementation)
    && (step.verifyWords == [] || 10 * Matched(step.verifyWords, AllOutputs(actions)) > 3 * |step.verifyWords|)
  }

  function DoneCount(steps: seq<PlanStep>, actions: seq<Action>, isImplementation: bool): (n: nat)
    ensures n <= |steps|
    ensures n == |steps| <==> forall step <- steps :: StepDone(step, actions, isImplementation)
  {
    if steps == [] then 0
    else
      var before, last := steps[..|steps| - 1], steps[|steps| - 1];
      assert steps == before + [last];
      DoneCount(before, actions, isImplementation) + if StepDone(last, actions, isImplementation) then 1 else 0
  }

  /** The first step that is not done; the number of steps when all are. */
  function NextPending(steps: seq<PlanStep>, actions: seq<Action>, isImplementation: bool): (k: nat)
    ensures k <= |steps| && (k < |steps| ==> !StepDone(steps[k], actions, isImplementation))
    ensures forall i :: 0 <= i < k ==> StepDone(steps[i], actions, isImplementation)
  {
    if steps == [] then 0
    else
      var k, last := NextPending(steps[..|steps| - 1], actions, isImplementation), |steps| - 1;
      if k == last && StepDone(steps[last], actions, isImplementation) then |steps| else k
  }

  // ---- The request ----

  function NonEmptyStripped(parts: seq<string>): seq<string> {
    if parts == [] then []
    else (if Strip(parts[0]) != "" then [Strip(parts[0])] else []) + NonEmptyStripped(parts[1..])
  }

  /** The caller's criteria, or else the goal's, split at semicolons. */
  function Criteria(req: Request): seq<string> {
    if req.successCriteria != [] then req.successCriteria
    else if req.goal.criteria != "" then NonEmptyStripped(SplitOn(req.goal.criteria, ';'))
    else []
  }

  const IMPLEMENTATION_WORDS: seq<string> := [
    "implement", "add", "create", "build", "fix", "modify", "update", "enable", "install", "set up",
    "refactor", "change", "write", "syntax highlight", "highlighting", "highlight "]

  predicate IsImplementation(req: Request) {
    var intent := Strip(Lower(req.goal.intent));
    || intent == "fix" || intent == "implement"
    || ContainsAny(Lower(req.goal.title + " " + req.goal.description + " " + Join(Criteria(req), ";")), IMPLEMENTATION_WORDS)
  }

  // ---- Repeated failures on one path ----

  /** Strip the /workspace prefix, unless nothing would be left. */
  function NormalizePath(p: string): string {
    if p == "" then ""
    else
      var s := Strip(p);
      if StartsWith(s, "/workspace/") then if |s| > 11 then s[11..] else s
      else if StartsWith(s, "/workspace") then
        var rest := StripLeftOf(s[10..], "/");
        if rest != "" then rest else s
      else s
  }

  const MISSING_MARKERS: seq<string> := ["no such file", "not found", "does not exist", "enoent"]
  const PATH_MARKERS: seq<string> := ["file not found:", "path does not exist:", "not found:", "no such file:"]

  /** The first word of the text, without quotes around it. */
  function PathBehind(rest: string): string {
    NormalizePath(StripRightOf(StripLeftOf(FirstWord(Strip(rest)), "'\""), "'\""))
  }

  /** Where the text goes on behind the first of the markers, in their order, that occurs in it; -1 when none does. */
  function BehindMarker(out: string, markers: seq<string>): (r: int)
    ensures -1 <= r <= |out|
  {
    if markers == [] then -1
    else
      var i := FindFrom(out, markers[0], 0);
      if i == -1 then BehindMarker(out, markers[1..]) else i + |markers[0]|
  }

  function PathFromOutput(out: string): string {
    var i := BehindMarker(out, PATH_MARKERS);
    if i == -1 then "" else PathBehind(out[i..])
  }

  /** The path on which the action failed because it does not exist; "" for any other action. */
  function MissingPath(a: Action): string {
    if a.success || a.tool !in PATH_TOOLS || !ContainsAny(Lower(a.output), MISSING_MARKERS) then ""
    else
      var path := NormalizePath(a.path);
      if path != "" then path else PathFromOutput(Lower(a.output))
  }

  function MissingPaths(actions: seq<Action>): (r: seq<string>)
    ensures |r| == |actions| && forall i :: 0 <= i < |r| ==> r[i] == MissingPath(actions[i])
  {
    seq(|actions|, i requires 0 <= i < |actions| => MissingPath(actions[i]))
  }

  function Occurrences(paths: seq<string>, path: string): nat {
    if paths == [] then 0
    else Occurrences(paths[..|paths| - 1], path) + if paths[|paths| - 1] == path then 1 else 0
  }

  function FailureCount(actions: seq<Action>, path: string): nat {
    Occurrences(MissingPaths(actions), path)
  }

  /** Five or more failures on one missing path. */
  ghost predicate PathIsMissing(actions: seq<Action>) {
    exists path :: path != "" && FailureCount(actions, path) >= 5
  }

  // ---- The verdict ----

  predicate HasFailures(actions: seq<Action>) {
    exists a <- actions :: !a.success
  }

  function SuccessCount(actions: seq<Action>): (n: nat)
    ensures n <= |actions|
    ensures n == |actions| <==> !HasFailures(actions)
  {
    if actions == [] then 0
    else
      var before, last := actions[..|actions| - 1], actions[|actions| - 1];
      assert actions == before + [last];
      SuccessCount(before) + if last.success then 1 else 0
  }

  predicate HasCodeChanges(actions: seq<Action>) {
    ToolsUsed(actions) * CHANGE_TOOLS != {}
  }

  predicate OnlyLooking(actions: seq<Action>) {
    ToolsUsed(actions) <= LOOKING_TOOLS
  }

  function LastTool(actions: seq<Action>): string {
    if actions == [] then "" else actions[|actions| - 1].tool
  }

  /** The decision before the advisory-answer check, branch by branch. */
  predicate Heuristic(criteria: seq<string>, actions: seq<Action>, isImplementation: bool) {
    if criteria == [] then
      if isImplementation then
        if !HasCodeChanges(actions) then false
        else LastTool(actions) == "get_diff" && !HasFailures(actions)
      else
        |actions| > 0 && (SuccessCount(actions) == |actions| || LastTool(actions) == "get_diff" || LastTool(actions) == "bash")
    else
      if isImplementation && OnlyLooking(actions) then false
      else if isImplementation && !HasCodeChanges(actions) then false
      else if isImplementation then |actions| > 0 && !HasFailures(actions) && LastTool(actions) == "get_diff"
      else |actions| > 0 && !HasFailures(actions)
  }

  /** `PlanIncomplete` names the first pending step; `Judged` is the return at the end of the function, the only one that adds a completion node. */
  datatype Verdict =
    | NoGoal
    | PathMissing
    | PlanIncomplete(done: nat, total: nat, next: nat)
    | Judged(met: bool, advisoryBlocked: bool, revisePlan: bool)

  predicate GoalMet(v: Verdict) {
    v.PathMissing? || (v.Judged? && v.met)
  }

  /** `advisoryAnswer`: a final answer was proposed that reads like instructions for the user. */
  ghost function VerdictOf(req: Request, actions: seq<Action>, advisoryAnswer: bool): Verdict {
    var isImplementation := IsImplementation(req);
    if PathIsMissing(actions) && !isImplementation then PathMissing
    else
      var done := DoneCount(req.steps, actions, isImplementation);
      if done < |req.steps| then PlanIncomplete(done, |req.steps|, NextPending(req.steps, actions, isImplementation))
      else
        var met := Heuristic(Criteria(req), actions, isImplementation);
        var blocked := met && isImplementation && advisoryAnswer && !HasCodeChanges(actions);
        var met' := met && !blocked;
        Judged(met', blocked, !met' && (blocked || (isImplementation && !HasCodeChanges(actions) && |actions| >= 12)))
  }

  function Actions(nodes: seq<Node>): seq<Action> {
    if nodes == [] then []
    else
      var last := nodes[|nodes| - 1].body;
      Actions(nodes[..|nodes| - 1]) + if last.ActionBody? then [last.action] else []
  }

  /** The dictionary holds how often each path occurs, "" left out. */
  ghost predicate Tallies(pathFailures: map<string, nat>, paths: seq<string>) {
    && (forall p <- pathFailures :: p != "" && pathFailures[p] == Occurrences(paths, p))
    && (forall p :: p != "" && p !in pathFailures ==> Occurrences(paths, p) == 0)
  }

  lemma TallyOne(pathFailures: map<string, nat>, paths: seq<string>, i: nat)
    requires i < |paths| && Tallies(pathFailures, paths[..i])
    ensures var path := paths[i];
            Tallies(if path == "" then pathFailures
                    else pathFailures[path := (if path in pathFailures then pathFailures[path] else 0) + 1],
                    paths[..i + 1])
  {
    assert paths[..i + 1][..i] == paths[..i];
  }

  lemma FiveTallied(pathFailures: map<string, nat>, actions: seq<Action>)
    requires Tallies(pathFailures, MissingPaths(actions))
    ensures PathIsMissing(actions) <==> exists p <- pathFailures :: pathFailures[p] >= 5
  {
    if PathIsMissing(actions) {
      var path :| path != "" && FailureCount(actions, path) >= 5;
      assert path in pathFailures;
    }
    if exists p <- pathFailures :: pathFailures[p] >= 5 {
      var path :| path in pathFailures && pathFailures[path] >= 5;
      assert path != "" && FailureCount(actions, path) >= 5;
    }
  }

  // ---- The methods ----

  class LogicEngineService {
    constructor () {}

    /** Counts the failures per missing path; true when some path has five. */
    method PathFailureHeuristic(actions: seq<Action>) returns (missing: bool)
      ensures missing <==> PathIsMissing(actions)
    {
      var pathFailures: map<string, nat> := map[];
      ghost var paths := MissingPaths(actions);
      for i := 0 to |actions|
        invariant Tallies(pathFailures, paths[..i])
      {
        var path := MissingPath(actions[i]);
        TallyOne(pathFailures, paths, i);
        if path != "" {
          pathFailures := pathFailures[path := (if path in pathFailures then pathFailures[path] else 0) + 1];
        }
      }
      assert paths[..|actions|] == paths;
      FiveTallied(pathFailures, actions);
      missing := exists p <- pathFailures :: pathFailures[p] >= 5;
    }

    /** The loop over the plan steps. */
    method CountDone(steps: seq<PlanStep>, actions: seq<Action>, isImplementation: bool) returns (done: nat, next: nat)
      ensures done == DoneCount(steps, actions, isImplementation) && next == NextPending(steps, actions, isImplementation)
    {
      done, next := 0, 0;
      for i := 0 to |steps|
        invariant done == DoneCount(steps[..i], actions, isImplementation)
        invariant next == NextPending(steps[..i], actions, isImplementation)
      {
        assert steps[..i + 1][..i] == steps[..i];
        if StepDone(steps[i], actions, isImplementation) {
          done := done + 1;
          if next == i {
            next := i + 1;
          }
        }
      }
      assert steps[..|steps|] == steps;
    }

    method CollectActions(graph: ReasoningGraph) returns (actions: seq<Action>)
      ensures actions == Actions(graph.nodes)
    {
      actions := [];
      for i := 0 to |graph.nodes|
        invariant actions == Actions(graph.nodes[..i])
      {
        assert graph.nodes[..i + 1][..i] == graph.nodes[..i];
        if graph.nodes[i].body.ActionBody? {
          actions := actions + [graph.nodes[i].body.action];
        }
      }
      assert graph.nodes[..|graph.nodes|] == graph.nodes;
    }

    /** The decision after the early returns. */
    method Judge(req: Request, actions: seq<Action>, advisoryAnswer: bool) returns (v: Verdict)
      requires DoneCount(req.steps, actions, IsImplementation(req)) == |req.steps|
      requires PathIsMissing(actions) ==> IsImplementation(req)
      ensures v == VerdictOf(req, actions, advisoryAnswer)
    {
      var isImplementation := IsImplementation(req);
      var met := Heuristic(Criteria(req), actions, isImplementation);
      var blocked := false;
      if met && isImplementation && advisoryAnswer {
        if !HasCodeChanges(actions) {
          met, blocked := false, true;
        }
      }
      v := Judged(met, blocked, !met && (blocked || (isImplementation && !HasCodeChanges(actions) && |actions| >= 12)));
    }

    /** `validate_goal` for the goal in the graph, the caller's criteria and plan steps. */
    method ValidateGoal(graph: ReasoningGraph, successCriteria: seq<string>, steps: seq<PlanStep>, advisoryAnswer: bool)
      returns (v: Verdict)
      modifies graph
      ensures v == VerdictIn(old(graph.Abs()), successCriteria, steps, advisoryAnswer)
      ensures graph.Abs() == if v.Judged? then Validate(old(graph.Abs()), v.met) else old(graph.Abs())
    {
      var goals := graph.GetNodesByType(GOAL);
      if goals == [] {
        return NoGoal;
      }
      GoalsAreGoals(graph.nodes, GOAL, goals[0]);
      var req := Request(goals[0].body.goal, successCriteria, steps);
      var actions := CollectActions(graph);
      var isImplementation := IsImplementation(req);
      var missing := PathFailureHeuristic(actions);
      if missing && !isImplementation {
        return PathMissing;
      }
      var done, next := CountDone(steps, actions, isImplementation);
      if done < |steps| {
        return PlanIncomplete(done, |steps|, next);
      }
      v := Judge(req, actions, advisoryAnswer);
      var id := graph.Add(CompletionBody(v.met));
      graph.Link(id, goals[0].id, COMPLETES);
    }
  }

  lemma {:induction false} GoalsAreGoals(nodes: seq<Node>, kind: Kind, n: Node)
    requires n in OfKind(nodes, kind)
    ensures KindOf(n.body) == kind
  {
    if n in OfKind(nodes[..|nodes| - 1], kind) {
      GoalsAreGoals(nodes[..|nodes| - 1], kind, n);
    }
  }

  /** The verdict on a graph: that of its first goal and its actions. */
  ghost function VerdictIn(g: Graph, successCriteria: seq<string>, steps: seq<PlanStep>, advisoryAnswer: bool): Verdict {
    var goals := OfKind(g.nodes, GOAL);
    if goals == [] || !goals[0].body.GoalBody? then NoGoal
    else VerdictOf(Request(goals[0].body.goal, successCriteria, steps), Actions(g.nodes), advisoryAnswer)
  }

  // ---- What a verdict means ----

  lemma GetDiffIsAChange(actions: seq<Action>)
    requires LastTool(actions) == "get_diff"
    ensures actions != [] && HasCodeChanges(actions) && !OnlyLooking(actions)
  {
    assert |LastTool(actions)| == 8;
    assert actions[|actions| - 1] in actions;
    assert "get_diff" in ToolsUsed(actions) * CHANGE_TOOLS;
    assert "get_diff" in ToolsUsed(actions) && "get_diff" !in LOOKING_TOOLS;
  }

  lemma HeuristicMetIff(criteria: seq<string>, actions: seq<Action>)
    ensures Heuristic(criteria, actions, true) <==> !HasFailures(actions) && LastTool(actions) == "get_diff"
    ensures Heuristic(criteria, actions, true) ==> HasCodeChanges(actions)
  {
    if LastTool(actions) == "get_diff" { GetDiffIsAChange(actions); }
  }

  /**
   An implementation request is met exactly when every plan step is done, something was done, no
   action failed and the last one is `get_diff`; the advisory check never blocks it.
   */
  lemma ImplementationMetIff(req: Request, actions: seq<Action>, advisoryAnswer: bool)
    requires IsImplementation(req)
    ensures var v := VerdictOf(req, actions, advisoryAnswer);
            && (GoalMet(v) <==> (forall step <- req.steps :: StepDone(step, actions, true))
                                && !HasFailures(actions) && LastTool(actions) == "get_diff")
            && (v.Judged? ==> !v.advisoryBlocked)
  {
    var done := DoneCount(req.steps, actions, true);
    assert done == |req.steps| <==> forall step <- req.steps :: StepDone(step, actions, true);
    HeuristicMetIff(Criteria(req), actions);
  }

  /** Any other request is met exactly when a path is missing, or the plan is done and the actions ended well. */
  lemma OtherMetIff(req: Request, actions: seq<Action>, advisoryAnswer: bool)
    requires !IsImplementation(req)
    ensures GoalMet(VerdictOf(req, actions, advisoryAnswer)) <==>
              || PathIsMissing(actions)
              || ((forall step <- req.steps :: StepDone(step, actions, false)) && actions != []
                  && (!HasFailures(actions)
                      || (Criteria(req) == [] && (LastTool(actions) == "get_diff" || LastTool(actions) == "bash"))))
  {
  }

  /**
   A new plan is asked for exactly when an implementation request has all its plan steps done and
   twelve or more actions, none of which changes code; while a step is pending it never is.
   */
  lemma RevisePlanIff(req: Request, actions: seq<Action>, advisoryAnswer: bool)
    ensures var v := VerdictOf(req, actions, advisoryAnswer);
            v.Judged? && v.revisePlan <==>
              && IsImplementation(req) && (forall step <- req.steps :: StepDone(step, actions, true))
              && !HasCodeChanges(actions) && |actions| >= 12
  {
    var isImplementation := IsImplementation(req);
    var done := DoneCount(req.steps, actions, isImplementation);
    assert done == |req.steps| <==> forall step <- req.steps :: StepDone(step, actions, isImplementation);
    if isImplementation { HeuristicMetIff(Criteria(req), actions); }
  }

  // ---- Runs that only append actions ----

  lemma UsedGrows(a: seq<Action>, b: seq<Action>, tools: set<string>)
    requires a <= b && ToolsUsed(a) * tools != {}
    ensures ToolsUsed(b) * tools != {}
  {
    var t :| t in ToolsUsed(a) * tools;
    var x :| x in a && x.tool == t;
    assert x in b by { var i :| 0 <= i < |a| && a[i] == x; assert b[i] == x; }
    assert t in ToolsUsed(b) * tools;
  }

  lemma ToolUsedStays(step: PlanStep, a: seq<Action>, b: seq<Action>, isImplementation: bool)
    requires a <= b && StepToolUsed(step, a, isImplementation)
    ensures StepToolUsed(step, b, isImplementation)
  {
    if step.tool != "" {
      var x :| x in a && Lower(x.tool) == step.tool;
      var i :| 0 <= i < |a| && a[i] == x;
      assert b[i] == x && x in b;
    } else if step.installWording {
      UsedGrows(a, b, INSTALL_TOOLS);
    } else if step.implWording {
      UsedGrows(a, b, EDIT_TOOLS);
    } else if step.exploreWording {
      UsedGrows(a, b, READ_TOOLS);
    } else if isImplementation {
      UsedGrows(a, b, EDIT_TOOLS);
    }
  }

  lemma {:induction false} MatchedGrows(words: seq<string>, outputs: string, more: string)
    requires outputs <= more
    ensures Matched(words, outputs) <= Matched(words, more)
  {
    if words != [] {
      MatchedGrows(words[..|words| - 1], outputs, more);
      if Contains(outputs, words[|words| - 1]) { ContainsPrefix(outputs, more, words[|words| - 1]); }
    }
  }

  /** A plan step once done stays done. */
  lemma DoneStays(step: PlanStep, a: seq<Action>, b: seq<Action>, isImplementation: bool)
    requires a <= b && StepDone(step, a, isImplementation)
    ensures StepDone(step, b, isImplementation)
  {
    ToolUsedStays(step, a, b, isImplementation);
    assert Outputs(a) <= Outputs(b);
    JoinPrefix(Outputs(a), Outputs(b), " ");
    LowerPrefix(Join(Outputs(a), " "), Join(Outputs(b), " "));
    MatchedGrows(step.verifyWords, AllOutputs(a), AllOutputs(b));
  }

  /** The completed count never falls. */
  lemma {:induction false} DoneCountGrows(steps: seq<PlanStep>, a: seq<Action>, b: seq<Action>, isImplementation: bool)
    requires a <= b
    ensures DoneCount(steps, a, isImplementation) <= DoneCount(steps, b, isImplementation)
  {
    if steps != [] {
      DoneCountGrows(steps[..|steps| - 1], a, b, isImplementation);
      var last := steps[|steps| - 1];
      if StepDone(last, a, isImplementation) { DoneStays(last, a, b, isImplementation); }
    }
  }

  /** The next step named never goes back. */
  lemma NextStepAdvances(steps: seq<PlanStep>, a: seq<Action>, b: seq<Action>, isImplementation: bool)
    requires a <= b
    ensures NextPending(steps, a, isImplementation) <= NextPending(steps, b, isImplementation)
  {
    var k := NextPending(steps, b, isImplementation);
    if k < NextPending(steps, a, isImplementation) { DoneStays(steps[k], a, b, isImplementation); }
  }

  lemma FailuresStay(a: seq<Action>, b: seq<Action>)
    requires a <= b && HasFailures(a)
    ensures HasFailures(b)
  {
    var x :| x in a && !x.success;
    var i :| 0 <= i < |a| && a[i] == x;
    assert b[i] == x && x in b;
  }

  /** After one failed action an implementation request is never met again. */
  lemma FailureIsForEver(req: Request, a: seq<Action>, b: seq<Action>, advisoryAnswer: bool)
    requires IsImplementation(req) && HasFailures(a) && a <= b
    ensures !GoalMet(VerdictOf(req, b, advisoryAnswer))
  {
    FailuresStay(a, b);
    ImplementationMetIff(req, b, advisoryAnswer);
  }

  lemma {:induction false} OccurrencesGrow(a: seq<string>, b: seq<string>, path: string)
    requires a <= b
    ensures Occurrences(a, path) <= Occurrences(b, path)
    decreases |b|
  {
    if |a| < |b| {
      OccurrencesGrow(a, b[..|b| - 1], path);
    } else {
      assert a == b;
    }
  }

  lemma PathStaysMissing(a: seq<Action>, b: seq<Action>)
    requires a <= b && PathIsMissing(a)
    ensures PathIsMissing(b)
  {
    var path :| path != "" && FailureCount(a, path) >= 5;
    assert MissingPaths(a) <= MissingPaths(b);
    OccurrencesGrow(MissingPaths(a), MissingPaths(b), path);
    assert FailureCount(b, path) >= 5;
  }

  /** A request that changes no code, once answered with a missing path, is answered so ever after. */
  lemma MissingPathIsForEver(req: Request, a: seq<Action>, b: seq<Action>, p: bool, q: bool)
    requires a <= b && VerdictOf(req, a, p) == PathMissing
    ensures VerdictOf(req, b, q) == PathMissing
  {
    var missing := PathIsMissing(a);
    if missing { PathStaysMissing(a, b); }
  }
}
