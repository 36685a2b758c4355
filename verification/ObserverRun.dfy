/**
 The Observer's rounds (services/observer-service/main.py:60-153): each round has the task graph
 brought up to date, then the goal validated, and hands the graph to the next round. Either call may
 fail; the round then goes on with the graph it has, or answers "not met".
 */
module ObserverRun {
  import opened TaskGraph
  import opened GoalValidation

  /** What stays fixed over the rounds, with all the tool results there will be. */
  datatype Session = Session(sem: Semantic, plan: seq<string>, successCriteria: seq<string>, steps: seq<PlanStep>, rs: seq<ToolResult>)

  /** A round sees the first `seen` results. */
  datatype Round = Round(seen: nat, buildOk: bool, validateOk: bool, advisoryAnswer: bool)

  predicate Growing(s: Session, rounds: seq<Round>) {
    forall i, j :: 0 <= i <= j < |rounds| ==> rounds[i].seen <= rounds[j].seen <= |s.rs|
  }

  // ---- One round ----

  function Updated(g: Graph, s: Session, r: Round): Graph
    requires r.seen <= |s.rs|
  {
    if r.buildOk then Build(g, s.sem, s.plan, s.rs[..r.seen]) else g
  }

  ghost function VerdictAt(g: Graph, s: Session, r: Round): Verdict
    requires r.seen <= |s.rs|
  {
    VerdictIn(Updated(g, s, r), s.successCriteria, s.steps, r.advisoryAnswer)
  }

  ghost function AfterRound(g: Graph, s: Session, r: Round): Graph
    requires r.seen <= |s.rs|
  {
    var v := VerdictAt(g, s, r);
    if r.validateOk && v.Judged? then Validate(Updated(g, s, r), v.met) else Updated(g, s, r)
  }

  /** The round's `goal_met`. */
  ghost predicate AnswersMet(g: Graph, s: Session, r: Round)
    requires r.seen <= |s.rs|
  {
    r.validateOk && GoalMet(VerdictAt(g, s, r))
  }

  /** The round's `revise_plan`. */
  ghost predicate AsksForPlan(g: Graph, s: Session, r: Round)
    requires r.seen <= |s.rs|
  {
    var v := VerdictAt(g, s, r);
    r.validateOk && v.Judged? && v.revisePlan
  }

  class ObserverService {
    const builder: GraphBuilderService
    const engine: LogicEngineService

    constructor () {
      builder := new GraphBuilderService();
      engine := new LogicEngineService();
    }

    /** `validate` */
    method Observe(graph: ReasoningGraph, s: Session, r: Round) returns (met: bool, revisePlan: bool)
      requires r.seen <= |s.rs|
      modifies graph
      ensures met <==> AnswersMet(old(graph.Abs()), s, r)
      ensures revisePlan <==> AsksForPlan(old(graph.Abs()), s, r)
      ensures graph.Abs() == AfterRound(old(graph.Abs()), s, r)
    {
      met, revisePlan := false, false;
      if r.buildOk {
        builder.BuildTaskGraph(graph, s.sem, s.plan, s.rs[..r.seen]);
      }
      if r.validateOk {
        var v := engine.ValidateGoal(graph, s.successCriteria, s.steps, r.advisoryAnswer);
        met := v.PathMissing? || (v.Judged? && v.met);
        revisePlan := v.Judged? && v.revisePlan;
      }
    }
  }

  // ---- Runs ----

  ghost function GraphAfter(s: Session, rounds: seq<Round>): Graph
    requires Growing(s, rounds)
  {
    if rounds == [] then EMPTY else AfterRound(GraphAfter(s, rounds[..|rounds| - 1]), s, rounds[|rounds| - 1])
  }

  predicate Built(rounds: seq<Round>) {
    exists r <- rounds :: r.buildOk
  }

  /** How many results the last builder call that went through saw. */
  function Known(rounds: seq<Round>): nat {
    if rounds == [] then 0
    else if rounds[|rounds| - 1].buildOk then rounds[|rounds| - 1].seen
    else Known(rounds[..|rounds| - 1])
  }

  lemma {:induction false} KnownBound(s: Session, rounds: seq<Round>)
    requires Growing(s, rounds)
    ensures Known(rounds) <= |s.rs|
    ensures rounds != [] ==> Known(rounds) <= rounds[|rounds| - 1].seen
  {
    if rounds != [] { KnownBound(s, rounds[..|rounds| - 1]); }
  }

  lemma {:induction false} KnownGrows(s: Session, rounds: seq<Round>, i: nat)
    requires Growing(s, rounds) && i <= |rounds|
    ensures Known(rounds[..i]) <= Known(rounds)
    decreases |rounds|
  {
    if i < |rounds| {
      var before := rounds[..|rounds| - 1];
      assert before[..i] == rounds[..i];
      KnownBound(s, before);
      KnownGrows(s, before, i);
    } else {
      assert rounds[..i] == rounds;
    }
  }

  lemma BuiltSnoc(rounds: seq<Round>)
    requires rounds != []
    ensures Built(rounds) <==> Built(rounds[..|rounds| - 1]) || rounds[|rounds| - 1].buildOk
  {
    assert rounds == rounds[..|rounds| - 1] + [rounds[|rounds| - 1]];
  }

  /** The graph handed on has the results of the last builder call that went through, whatever failed. */
  lemma {:induction false} GraphIsUpToDate(s: Session, rounds: seq<Round>)
    requires Growing(s, rounds)
    ensures UpToDate(GraphAfter(s, rounds), s.sem, s.plan, s.rs, Built(rounds), Known(rounds))
  {
    if rounds != [] {
      var before, r := rounds[..|rounds| - 1], rounds[|rounds| - 1];
      var g := GraphAfter(s, before);
      GraphIsUpToDate(s, before);
      UpdatedIsUpToDate(s, rounds);
      var t, v := Updated(g, s, r), VerdictAt(g, s, r);
      if r.validateOk && v.Judged? {
        ValidationKeepsUpToDate(t, s.sem, s.plan, s.rs, Built(rounds), Known(rounds), v.met);
      }
    }
  }

  lemma UpdatedIsUpToDate(s: Session, rounds: seq<Round>)
    requires Growing(s, rounds) && rounds != []
    requires var before := rounds[..|rounds| - 1];
             UpToDate(GraphAfter(s, before), s.sem, s.plan, s.rs, Built(before), Known(before))
    ensures UpToDate(Updated(GraphAfter(s, rounds[..|rounds| - 1]), s, rounds[|rounds| - 1]),
                     s.sem, s.plan, s.rs, Built(rounds), Known(rounds))
  {
    var before, r := rounds[..|rounds| - 1], rounds[|rounds| - 1];
    BuiltSnoc(rounds);
    if r.buildOk {
      KnownBound(s, before);
      assert before != [] ==> before[|before| - 1] == rounds[|before| - 1];
      BuildKeepsUpToDate(GraphAfter(s, before), s.sem, s.plan, s.rs, Built(before), Known(before), r.seen);
    }
  }

  // ---- The verdict of a round depends on the results alone ----

  function ActionList(rs: seq<ToolResult>): (r: seq<Action>)
    ensures |r| == |rs| && forall i :: 0 <= i < |r| ==> r[i] == ActionOf(rs[i]).action
  {
    seq(|rs|, i requires 0 <= i < |rs| => ActionOf(rs[i]).action)
  }

  lemma ActionsSnoc(nodes: seq<Node>, node: Node)
    ensures Actions(nodes + [node]) == Actions(nodes) + if node.body.ActionBody? then [node.body.action] else []
  {
    assert (nodes + [node])[..|nodes|] == nodes;
  }

  lemma {:induction false} ActionsInCore(nodes: seq<Node>)
    ensures Actions(nodes) == Actions(Core(nodes))
  {
    if nodes != [] {
      var before, last := nodes[..|nodes| - 1], nodes[|nodes| - 1];
      assert nodes == before + [last];
      ActionsInCore(before);
      ActionsSnoc(before, last);
      CoreSnoc(before, last);
      if IsCore(last.body) { ActionsSnoc(Core(before), last); }
    }
  }

  lemma TakeSnoc<T>(s: seq<T>, n: nat)
    requires 0 < n <= |s|
    ensures s[..n] == s[..n - 1] + [s[n - 1]]
  {
  }

  lemma ActionsTake(core: seq<Node>, n: nat)
    requires 0 < n <= |core|
    ensures var last := core[n - 1].body;
            Actions(core[..n]) == Actions(core[..n - 1]) + if last.ActionBody? then [last.action] else []
  {
    TakeSnoc(core, n);
    ActionsSnoc(core[..n - 1], core[n - 1]);
  }

  lemma {:induction false} ActionsAtPlaces(core: seq<Node>, first: nat, actions: seq<Action>, n: nat)
    requires n <= |core| == first + |actions|
    requires forall i :: 0 <= i < first ==> !core[i].body.ActionBody?
    requires forall i :: 0 <= i < |actions| ==> core[first + i].body == ActionBody(actions[i])
    ensures Actions(core[..n]) == if n <= first then [] else actions[..n - first]
  {
    if n > 0 {
      ActionsTake(core, n);
      ActionsAtPlaces(core, first, actions, n - 1);
      if n > first {
        assert core[first + (n - 1 - first)].body == ActionBody(actions[n - 1 - first]);
        TakeSnoc(actions, n - first);
      }
    }
  }

  lemma PlacesOfActions(core: seq<Node>, s: Session, n: nat)
    requires |core| == 1 + |s.plan| + n && n <= |s.rs|
    requires forall i :: 0 <= i < |core| ==> core[i].body == BodyAt(s.sem, s.plan, s.rs, i)
    ensures Actions(core) == ActionList(s.rs[..n])
  {
    var first, actions := 1 + |s.plan|, ActionList(s.rs[..n]);
    forall i | 0 <= i < n ensures core[first + i].body == ActionBody(actions[i]) {
      assert core[first + i].body == BodyAt(s.sem, s.plan, s.rs, first + i);
    }
    ActionsAtPlaces(core, first, actions, |core|);
    assert core[..|core|] == core && actions[..n] == actions;
  }

  lemma GraphHolds(g: Graph, s: Session, n: nat)
    requires UpToDate(g, s.sem, s.plan, s.rs, true, n)
    ensures var goals := OfKind(g.nodes, GOAL); goals != [] && goals[0].body == GoalOf(s.sem)
    ensures Actions(g.nodes) == ActionList(s.rs[..n])
  {
    var core := Core(g.nodes);
    FindsInFull(g, s.sem, s.plan, s.rs, n);
    FullShapeBodies(s.sem, s.plan, s.rs, n);
    forall i | 0 <= i < |core| ensures core[i].body == BodyAt(s.sem, s.plan, s.rs, i) {
      assert ShapeOf(g).bodies[i] == core[i].body;
    }
    ActionsInCore(g.nodes);
    PlacesOfActions(core, s, n);
  }

  function RequestOf(s: Session): Request {
    Request(GoalOf(s.sem).goal, s.successCriteria, s.steps)
  }

  /** The actions behind the verdict of the last of these rounds. */
  function Recorded(s: Session, rounds: seq<Round>): seq<Action>
    requires Growing(s, rounds)
  {
    KnownBound(s, rounds);
    ActionList(s.rs[..Known(rounds)])
  }

  /**
   Whatever graph the rounds before have made, the verdict is the one on the goal as first stated and
   the results known, as if the graph had just been built from them.
   */
  lemma VerdictDependsOnResults(s: Session, rounds: seq<Round>)
    requires Growing(s, rounds) && rounds != []
    ensures var v := VerdictAt(GraphAfter(s, rounds[..|rounds| - 1]), s, rounds[|rounds| - 1]);
            v == if Built(rounds) then VerdictOf(RequestOf(s), Recorded(s, rounds), rounds[|rounds| - 1].advisoryAnswer) else NoGoal
  {
    var before, r := rounds[..|rounds| - 1], rounds[|rounds| - 1];
    GraphIsUpToDate(s, before);
    UpdatedIsUpToDate(s, rounds);
    if Built(rounds) { GraphHolds(Updated(GraphAfter(s, before), s, r), s, Known(rounds)); }
  }

  lemma RecordGrows(s: Session, rounds: seq<Round>, i: nat)
    requires Growing(s, rounds) && i <= |rounds|
    ensures Recorded(s, rounds[..i]) <= Recorded(s, rounds)
  {
    KnownGrows(s, rounds, i);
    KnownBound(s, rounds);
    var k, n := Known(rounds[..i]), Known(rounds);
    assert s.rs[..k] == s.rs[..n][..k];
  }

  /** Over the rounds a plan step once done stays done, the completed count never falls and the next step never goes back. */
  lemma ProgressIsKept(s: Session, rounds: seq<Round>, i: nat, isImplementation: bool)
    requires Growing(s, rounds) && i <= |rounds|
    ensures forall step <- s.steps ::
              StepDone(step, Recorded(s, rounds[..i]), isImplementation) ==> StepDone(step, Recorded(s, rounds), isImplementation)
    ensures DoneCount(s.steps, Recorded(s, rounds[..i]), isImplementation) <= DoneCount(s.steps, Recorded(s, rounds), isImplementation)
    ensures NextPending(s.steps, Recorded(s, rounds[..i]), isImplementation) <= NextPending(s.steps, Recorded(s, rounds), isImplementation)
  {
    var a, b := Recorded(s, rounds[..i]), Recorded(s, rounds);
    RecordGrows(s, rounds, i);
    forall step | step in s.steps && StepDone(step, a, isImplementation) ensures StepDone(step, b, isImplementation) {
      DoneStays(step, a, b, isImplementation);
    }
    DoneCountGrows(s.steps, a, b, isImplementation);
    NextStepAdvances(s.steps, a, b, isImplementation);
  }

  /** Once a failed action is in the graph no later round answers that an implementation goal is met. */
  lemma NeverMetAfterFailure(s: Session, rounds: seq<Round>, i: nat)
    requires Growing(s, rounds) && i <= |rounds| && rounds != []
    requires IsImplementation(RequestOf(s)) && HasFailures(Recorded(s, rounds[..i]))
    ensures !AnswersMet(GraphAfter(s, rounds[..|rounds| - 1]), s, rounds[|rounds| - 1])
  {
    assert HasFailures(Recorded(s, rounds)) by {
      RecordGrows(s, rounds, i);
      FailuresStay(Recorded(s, rounds[..i]), Recorded(s, rounds));
    }
    MetIff(s, rounds);
  }

  /** A round answers that an implementation goal is met exactly when the results known say so and validation went through. */
  lemma MetIff(s: Session, rounds: seq<Round>)
    requires Growing(s, rounds) && rounds != [] && IsImplementation(RequestOf(s))
    ensures var actions := Recorded(s, rounds);
            AnswersMet(GraphAfter(s, rounds[..|rounds| - 1]), s, rounds[|rounds| - 1]) <==>
              && Built(rounds) && rounds[|rounds| - 1].validateOk
              && (forall step <- s.steps :: StepDone(step, actions, true))
              && !HasFailures(actions) && LastTool(actions) == "get_diff"
  {
    VerdictDependsOnResults(s, rounds);
    ImplementationMetIff(RequestOf(s), Recorded(s, rounds), rounds[|rounds| - 1].advisoryAnswer);
  }

  /** A round asks for a new plan exactly when the results known show a finished plan and twelve actions without a code change. */
  lemma AsksForPlanIff(s: Session, rounds: seq<Round>)
    requires Growing(s, rounds) && rounds != []
    ensures var actions := Recorded(s, rounds);
            AsksForPlan(GraphAfter(s, rounds[..|rounds| - 1]), s, rounds[|rounds| - 1]) <==>
              && Built(rounds) && rounds[|rounds| - 1].validateOk && IsImplementation(RequestOf(s))
              && (forall step <- s.steps :: StepDone(step, actions, true))
              && !HasCodeChanges(actions) && |actions| >= 12
  {
    VerdictDependsOnResults(s, rounds);
    RevisePlanIff(RequestOf(s), Recorded(s, rounds), rounds[|rounds| - 1].advisoryAnswer);
  }
}
