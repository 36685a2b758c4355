/** What the task graph shows after any run of builder calls, field by field (services/graph_builder/service.py:114-185). */
module GraphContents {
  import opened Options
  import opened Seqs
  import opened TaskGraph

  /** The goal node has the request's texts; its title falls back from the problem to the raw input. */
  lemma GoalIsShown(sem: Semantic, plan: seq<string>, rs: seq<ToolResult>, ops: seq<Op>)
    requires Growing(rs, 0, ops) && Built(ops)
    ensures var core := Core(Run(EMPTY, sem, plan, rs, 0, ops).nodes);
            && core != [] && core[0].body.GoalBody?
            && var goal := core[0].body.goal;
            && goal.description == sem.rawInput && goal.criteria == sem.successCriteria && goal.intent == sem.intent
            && (sem.problem != "" ==> goal.title == sem.problem)
            && (sem.problem == "" && sem.rawInput != "" ==> goal.title == sem.rawInput)
            && (sem.problem == "" && sem.rawInput == "" ==> goal.title == "Unknown goal")
  {
    GraphMatchesResults(sem, plan, rs, ops);
  }

  /** The plan nodes have the steps' places and texts. */
  lemma PlanIsShown(sem: Semantic, plan: seq<string>, rs: seq<ToolResult>, ops: seq<Op>, i: nat)
    requires Growing(rs, 0, ops) && Built(ops) && i < |plan|
    ensures var core := Core(Run(EMPTY, sem, plan, rs, 0, ops).nodes);
            i + 1 < |core| && core[i + 1].body == PlanBody(i, plan[i])
  {
    GraphMatchesResults(sem, plan, rs, ops);
  }

  /** Each action node has its result's tool, success and path, and the first 500 characters of its output. */
  lemma ActionIsShown(sem: Semantic, plan: seq<string>, rs: seq<ToolResult>, ops: seq<Op>, k: nat)
    requires Growing(rs, 0, ops) && Built(ops) && k < Seen(0, ops)
    ensures Seen(0, ops) <= |rs|
    ensures var core, i := Core(Run(EMPTY, sem, plan, rs, 0, ops).nodes), 1 + |plan| + k;
            && |core| == 1 + |plan| + Seen(0, ops) && core[i].body.ActionBody?
            && var action := core[i].body.action;
            && action.tool == rs[k].tool && action.success == rs[k].success && action.path == rs[k].path
            && action.output <= rs[k].output
            && |action.output| == if |rs[k].output| < 500 then |rs[k].output| else 500
  {
    GraphMatchesResults(sem, plan, rs, ops);
    var core := Core(Run(EMPTY, sem, plan, rs, 0, ops).nodes);
    assert core[1 + |plan| + k].body == BodyAt(sem, plan, rs, 1 + |plan| + k);
  }

  // ---- Edges ----

  /** A plan step implements the goal; an action supports the goal and executes the first plan step if there is one. */
  predicate IsExpected(e: CoreEdge, plans: nat, actions: nat) {
    || (1 <= e.source <= plans && e.target == 0 && e.edgeType == IMPLEMENTS)
    || (plans < e.source <= plans + actions && e.target == 0 && e.edgeType == SUPPORTS)
    || (plans < e.source <= plans + actions && plans > 0 && e.target == 1 && e.edgeType == EXECUTES)
  }

  lemma {:induction false} PlanEdges(sem: Semantic, plan: seq<string>, n: nat, e: CoreEdge)
    requires n <= |plan|
    ensures e in PlanShape(sem, plan, n).edges <==> 1 <= e.source <= n && e.target == 0 && e.edgeType == IMPLEMENTS
  {
    if n > 0 { PlanEdges(sem, plan, n - 1, e); }
  }

  lemma {:induction false} FullEdges(sem: Semantic, plan: seq<string>, rs: seq<ToolResult>, n: nat, e: CoreEdge)
    requires n <= |rs|
    ensures e in FullShape(sem, plan, rs, n).edges <==> IsExpected(e, |plan|, n)
  {
    if n > 0 { FullEdges(sem, plan, rs, n - 1, e); } else { PlanEdges(sem, plan, |plan|, e); }
  }

  /** The edges among goal, plan and actions, by their places, are exactly these. */
  lemma EdgesAreShown(sem: Semantic, plan: seq<string>, rs: seq<ToolResult>, ops: seq<Op>, e: CoreEdge)
    requires Growing(rs, 0, ops) && Built(ops)
    ensures e in ShapeOf(Run(EMPTY, sem, plan, rs, 0, ops)).edges <==> IsExpected(e, |plan|, Seen(0, ops))
  {
    IncrementalEqualsBatch(sem, plan, rs, ops);
    GraphMatchesResults(sem, plan, rs, ops);
    FullEdges(sem, plan, rs, Seen(0, ops), e);
  }

  // ---- Completions ----

  /** What the completion nodes say, in order. */
  function Completions(nodes: seq<Node>): seq<bool> {
    if nodes == [] then []
    else Completions(nodes[..|nodes| - 1]) + CompletionIn(nodes[|nodes| - 1])
  }

  function CompletionIn(node: Node): seq<bool> {
    if node.body.CompletionBody? then [node.body.goalMet] else []
  }

  predicate HasGoal(g: Graph) {
    OfKind(g.nodes, GOAL) != []
  }

  lemma CompletionsSnoc(nodes: seq<Node>, node: Node)
    ensures Completions(nodes + [node]) == Completions(nodes) + CompletionIn(node)
  {
    assert (nodes + [node])[..|nodes|] == nodes;
  }

  /** The same completions, and a goal if there was one. */
  predicate Keeps(g: Graph, t: Graph) {
    Completions(t.nodes) == Completions(g.nodes) && (HasGoal(g) ==> HasGoal(t))
  }

  lemma AddNodeKeeps(g: Graph, body: Body)
    requires !body.CompletionBody?
    ensures Keeps(g, AddNode(g, body))
  {
    CompletionsSnoc(g.nodes, Node(g.next, body));
    OfKindSnoc(g.nodes, Node(g.next, body), GOAL);
  }

  lemma {:induction false} AddPlansKeeps(g: Graph, plan: seq<string>, i: nat, goal: Id)
    requires i <= |plan|
    ensures Keeps(g, AddPlans(g, plan, i, goal))
    decreases |plan| - i
  {
    if i < |plan| {
      AddNodeKeeps(g, PlanBody(i, plan[i]));
      AddPlansKeeps(AddPlan(g, plan, i, goal), plan, i + 1, goal);
    }
  }

  lemma {:induction false} AddActionsKeeps(g: Graph, rs: seq<ToolResult>, i: nat, firstPlan: Option<Id>, goal: Id)
    requires i <= |rs|
    ensures Keeps(g, AddActions(g, rs, i, firstPlan, goal))
    decreases |rs| - i
  {
    if i < |rs| {
      AddNodeKeeps(g, ActionOf(rs[i]));
      AddActionsKeeps(AddAction(g, rs[i], firstPlan, goal), rs, i + 1, firstPlan, goal);
    }
  }

  lemma BuildKeeps(g: Graph, sem: Semantic, plan: seq<string>, rs: seq<ToolResult>)
    ensures Keeps(g, Build(g, sem, plan, rs)) && HasGoal(Build(g, sem, plan, rs))
  {
    WithGoalHasGoal(g, sem);
    AddNodeKeeps(g, GoalOf(sem));
    var g1 := WithGoal(g, sem);
    var goal := OfKind(g1.nodes, GOAL)[0].id;
    var g2 := WithPlan(g1, plan, goal);
    AddPlansKeeps(g1, plan, 0, goal);
    AddActionsKeeps(g2, rs, KnownResults(g2, rs), FirstId(OfKind(g2.nodes, PLAN)), goal);
  }

  lemma ValidateCompletes(g: Graph, goalMet: bool)
    ensures Completions(Validate(g, goalMet).nodes) == Completions(g.nodes) + if HasGoal(g) then [goalMet] else []
    ensures HasGoal(Validate(g, goalMet)) == HasGoal(g)
  {
    var node := Node(g.next, CompletionBody(goalMet));
    CompletionsSnoc(g.nodes, node);
    OfKindSnoc(g.nodes, node, GOAL);
    assert Completions(g.nodes) + [] == Completions(g.nodes);
  }

  /** The verdicts given once there was a goal. */
  function Verdicts(hasGoal: bool, ops: seq<Op>): seq<bool>
    decreases |ops|
  {
    if ops == [] then []
    else
      match ops[0]
      case BuildUpTo(_) => Verdicts(true, ops[1..])
      case Validated(goalMet) => (if hasGoal then [goalMet] else []) + Verdicts(hasGoal, ops[1..])
  }

  /** The completion nodes are the verdicts of the validations that found a goal, in order. */
  lemma {:induction false} CompletionsAreVerdicts(
    g: Graph, sem: Semantic, plan: seq<string>, rs: seq<ToolResult>, seen: nat, ops: seq<Op>)
    requires Growing(rs, seen, ops)
    ensures Completions(Run(g, sem, plan, rs, seen, ops).nodes) == Completions(g.nodes) + Verdicts(HasGoal(g), ops)
    decreases |ops|
  {
    if ops == [] {
      assert Completions(g.nodes) + [] == Completions(g.nodes);
    } else {
      var t := Step(g, sem, plan, rs, ops[0]);
      CompletionsAreVerdicts(t, sem, plan, rs, SeenAfter(seen, ops[0]), ops[1..]);
      match ops[0]
      case BuildUpTo(n) => BuildKeeps(g, sem, plan, rs[..n]);
      case Validated(goalMet) =>
        ValidateCompletes(g, goalMet);
        ConcatAssoc(Completions(g.nodes), if HasGoal(g) then [goalMet] else [], Verdicts(HasGoal(g), ops[1..]));
    }
  }
}
