/**
 The task graph (packages/reasoning_schema/models.py:170-206) and its builder `build_task_graph`
 (services/graph_builder/service.py:105-192).

 Node ids are fresh counters instead of UUIDs. A node's title and confidence that only repeat its
 other attributes are not kept.
 */
module TaskGraph {
  import opened Options

  type Id = nat

  datatype Goal = Goal(title: string, description: string, criteria: string, intent: string)

  datatype Action = Action(tool: string, output: string, success: bool, path: string)

  datatype Body =
    | GoalBody(goal: Goal)
    | PlanBody(index: nat, description: string)
    | ActionBody(action: Action)
    | CompletionBody(goalMet: bool)
    | OtherBody(text: string)

  datatype Kind = GOAL | PLAN | ACTION | COMPLETION | OTHER

  datatype Node = Node(id: Id, body: Body)

  datatype EdgeType = IMPLEMENTS | EXECUTES | SUPPORTS | COMPLETES

  datatype Edge = Edge(source: Id, target: Id, edgeType: EdgeType)

  datatype Graph = Graph(nodes: seq<Node>, edges: seq<Edge>, next: Id)

  const EMPTY := Graph([], [], 0)

  datatype Semantic = Semantic(problem: string, rawInput: string, intent: string, successCriteria: string)

  /** A tool result of the session; `path` is its path or else its command. */
  datatype ToolResult = ToolResult(tool: string, output: string, success: bool, path: string)

  function KindOf(body: Body): Kind {
    match body
    case GoalBody(_) => GOAL
    case PlanBody(_, _) => PLAN
    case ActionBody(_) => ACTION
    case CompletionBody(_) => COMPLETION
    case OtherBody(_) => OTHER
  }

  // ---- The builder on values ----

  function AddNode(g: Graph, body: Body): Graph {
    Graph(g.nodes + [Node(g.next, body)], g.edges, g.next + 1)
  }

  function AddEdge(g: Graph, source: Id, target: Id, edgeType: EdgeType): Graph {
    g.(edges := g.edges + [Edge(source, target, edgeType)])
  }

  /** `get_nodes_by_type` */
  function OfKind(nodes: seq<Node>, kind: Kind): seq<Node> {
    if nodes == [] then []
    else OfKind(nodes[..|nodes| - 1], kind) + (if KindOf(nodes[|nodes| - 1].body) == kind then [nodes[|nodes| - 1]] else [])
  }

  function GoalOf(sem: Semantic): Body {
    GoalBody(Goal(if sem.problem != "" then sem.problem else if sem.rawInput != "" then sem.rawInput else "Unknown goal",
                  sem.rawInput, sem.successCriteria, sem.intent))
  }

  function ActionOf(r: ToolResult): Body {
    ActionBody(Action(r.tool, if |r.output| > 500 then r.output[..500] else r.output, r.success, r.path))
  }

  function WithGoal(g: Graph, sem: Semantic): Graph {
    if OfKind(g.nodes, GOAL) == [] then AddNode(g, GoalOf(sem)) else g
  }

  function AddPlan(g: Graph, plan: seq<string>, i: nat, goal: Id): Graph
    requires i < |plan|
  {
    AddEdge(AddNode(g, PlanBody(i, plan[i])), g.next, goal, IMPLEMENTS)
  }

  /** The plan steps from the `i`th on. */
  function AddPlans(g: Graph, plan: seq<string>, i: nat, goal: Id): Graph
    requires i <= |plan|
    decreases |plan| - i
  {
    if i == |plan| then g else AddPlans(AddPlan(g, plan, i, goal), plan, i + 1, goal)
  }

  function WithPlan(g: Graph, plan: seq<string>, goal: Id): Graph {
    if OfKind(g.nodes, PLAN) == [] && plan != [] then AddPlans(g, plan, 0, goal) else g
  }

  function AddAction(g: Graph, r: ToolResult, firstPlan: Option<Id>, goal: Id): Graph {
    var added := AddNode(g, ActionOf(r));
    AddEdge(if firstPlan.Some? then AddEdge(added, g.next, firstPlan.value, EXECUTES) else added, g.next, goal, SUPPORTS)
  }

  /** The actions of the results from the `i`th on. */
  function AddActions(g: Graph, rs: seq<ToolResult>, i: nat, firstPlan: Option<Id>, goal: Id): Graph
    requires i <= |rs|
    decreases |rs| - i
  {
    if i == |rs| then g else AddActions(AddAction(g, rs[i], firstPlan, goal), rs, i + 1, firstPlan, goal)
  }

  function FirstId(nodes: seq<Node>): Option<Id> {
    if nodes == [] then None else Some(nodes[0].id)
  }

  /** How many results are in the graph already: `tool_results[existing_action_count:]` are the new ones. */
  function KnownResults(g: Graph, rs: seq<ToolResult>): (n: nat)
    ensures n <= |rs|
  {
    var n := |OfKind(g.nodes, ACTION)|;
    if n <= |rs| then n else |rs|
  }

  lemma {:induction false} OfKindSnoc(nodes: seq<Node>, node: Node, kind: Kind)
    ensures OfKind(nodes + [node], kind) == OfKind(nodes, kind) + if KindOf(node.body) == kind then [node] else []
  {
    assert (nodes + [node])[..|nodes|] == nodes;
  }

  lemma WithGoalHasGoal(g: Graph, sem: Semantic)
    ensures OfKind(WithGoal(g, sem).nodes, GOAL) != []
  {
    OfKindSnoc(g.nodes, Node(g.next, GoalOf(sem)), GOAL);
  }

  /** `build_task_graph` */
  function Build(g: Graph, sem: Semantic, plan: seq<string>, rs: seq<ToolResult>): Graph {
    WithGoalHasGoal(g, sem);
    var g1 := WithGoal(g, sem);
    var goal := OfKind(g1.nodes, GOAL)[0].id;
    var g2 := WithPlan(g1, plan, goal);
    AddActions(g2, rs, KnownResults(g2, rs), FirstId(OfKind(g2.nodes, PLAN)), goal)
  }

  /** What `validate_goal` appends when it reaches its end. */
  function Complete(g: Graph, goalMet: bool, goal: Id): Graph {
    AddEdge(AddNode(g, CompletionBody(goalMet)), g.next, goal, COMPLETES)
  }

  // ---- The objects ----

  class ReasoningGraph {
    var nodes: seq<Node>
    var edges: seq<Edge>
    var next: Id

    ghost function Abs(): Graph
      reads this
    {
      Graph(nodes, edges, next)
    }

    constructor ()
      ensures Abs() == EMPTY
    {
      nodes, edges, next := [], [], 0;
    }

    method Add(body: Body) returns (id: Id)
      modifies this
      ensures Abs() == AddNode(old(Abs()), body) && id == old(next)
    {
      id := next;
      nodes := nodes + [Node(id, body)];
      next := next + 1;
    }

    method Link(source: Id, target: Id, edgeType: EdgeType)
      modifies this
      ensures Abs() == AddEdge(old(Abs()), source, target, edgeType)
    {
      edges := edges + [Edge(source, target, edgeType)];
    }

    method GetNodesByType(kind: Kind) returns (found: seq<Node>)
      ensures found == OfKind(nodes, kind)
    {
      found := [];
      for i := 0 to |nodes|
        invariant found == OfKind(nodes[..i], kind)
      {
        OfKindSnoc(nodes[..i], nodes[i], kind);
        assert nodes[..i + 1] == nodes[..i] + [nodes[i]];
        if KindOf(nodes[i].body) == kind {
          found := found + [nodes[i]];
        }
      }
      assert nodes[..|nodes|] == nodes;
    }
  }

  class GraphBuilderService {
    constructor () {}

    /** `build_task_graph` on the mutable graph. */
    method BuildTaskGraph(graph: ReasoningGraph, sem: Semantic, plan: seq<string>, rs: seq<ToolResult>)
      modifies graph
      ensures graph.Abs() == Build(old(graph.Abs()), sem, plan, rs)
    {
      var goal := EnsureGoal(graph, sem);
      EnsurePlan(graph, plan, goal);
      AppendActions(graph, rs, goal);
    }

    method EnsureGoal(graph: ReasoningGraph, sem: Semantic) returns (goal: Id)
      modifies graph
      ensures graph.Abs() == WithGoal(old(graph.Abs()), sem)
      ensures OfKind(graph.nodes, GOAL) != [] && goal == OfKind(graph.nodes, GOAL)[0].id
    {
      WithGoalHasGoal(graph.Abs(), sem);
      var goals := graph.GetNodesByType(GOAL);
      if goals == [] {
        var _ := graph.Add(GoalOf(sem));
        goals := graph.GetNodesByType(GOAL);
      }
      goal := goals[0].id;
    }

    method EnsurePlan(graph: ReasoningGraph, plan: seq<string>, goal: Id)
      modifies graph
      ensures graph.Abs() == WithPlan(old(graph.Abs()), plan, goal)
    {
      var plans := graph.GetNodesByType(PLAN);
      if plans == [] && plan != [] {
        for i := 0 to |plan|
          invariant AddPlans(graph.Abs(), plan, i, goal) == AddPlans(old(graph.Abs()), plan, 0, goal)
        {
          var id := graph.Add(PlanBody(i, plan[i]));
          graph.Link(id, goal, IMPLEMENTS);
        }
      }
    }

    method AppendActions(graph: ReasoningGraph, rs: seq<ToolResult>, goal: Id)
      modifies graph
      ensures var g := old(graph.Abs());
              graph.Abs() == AddActions(g, rs, KnownResults(g, rs), FirstId(OfKind(g.nodes, PLAN)), goal)
    {
      var actions := graph.GetNodesByType(ACTION);
      var known := if |actions| <= |rs| then |actions| else |rs|;
      var plans := graph.GetNodesByType(PLAN);
      for i := known to |rs|
        invariant AddActions(graph.Abs(), rs, i, FirstId(plans), goal) == AddActions(old(graph.Abs()), rs, known, FirstId(plans), goal)
      {
        var id := graph.Add(ActionOf(rs[i]));
        if plans != [] {
          graph.Link(id, plans[0].id, EXECUTES);
        }
        graph.Link(id, goal, SUPPORTS);
      }
    }
  }

  // ---- The goal/plan/action part, up to node ids ----

  predicate IsCore(body: Body) {
    KindOf(body) == GOAL || KindOf(body) == PLAN || KindOf(body) == ACTION
  }

  function Core(nodes: seq<Node>): seq<Node> {
    if nodes == [] then []
    else Core(nodes[..|nodes| - 1]) + (if IsCore(nodes[|nodes| - 1].body) then [nodes[|nodes| - 1]] else [])
  }

  /** Place of the node with this id; the length of the list when there is none. */
  function PlaceOf(core: seq<Node>, id: Id): nat {
    if core == [] then 0 else if core[0].id == id then 0 else 1 + PlaceOf(core[1..], id)
  }

  /** An edge between the `source`th and the `target`th core node. */
  datatype CoreEdge = CoreEdge(source: nat, target: nat, edgeType: EdgeType)

  function CoreEdgeOf(e: Edge, core: seq<Node>): seq<CoreEdge> {
    if PlaceOf(core, e.source) < |core| then [CoreEdge(PlaceOf(core, e.source), PlaceOf(core, e.target), e.edgeType)] else []
  }

  /** The edges that leave core nodes. */
  function CoreEdges(edges: seq<Edge>, core: seq<Node>): seq<CoreEdge> {
    if edges == [] then []
    else
      var e := edges[|edges| - 1];
      CoreEdges(edges[..|edges| - 1], core) + CoreEdgeOf(e, core)
  }

  function Bodies(nodes: seq<Node>): (bs: seq<Body>)
    ensures |bs| == |nodes| && forall i :: 0 <= i < |bs| ==> bs[i] == nodes[i].body
  {
    seq(|nodes|, i requires 0 <= i < |nodes| => nodes[i].body)
  }

  datatype Shape = Shape(bodies: seq<Body>, edges: seq<CoreEdge>)

  /** The goal/plan/action subgraph with each node named by its place among them. */
  function ShapeOf(g: Graph): Shape {
    var core := Core(g.nodes);
    Shape(Bodies(core), CoreEdges(g.edges, core))
  }

  ghost predicate HasId(nodes: seq<Node>, id: Id) {
    exists i :: 0 <= i < |nodes| && nodes[i].id == id
  }

  ghost predicate UniqueIds(nodes: seq<Node>, next: Id) {
    && (forall i :: 0 <= i < |nodes| ==> nodes[i].id < next)
    && (forall i, j :: 0 <= i < j < |nodes| ==> nodes[i].id != nodes[j].id)
  }

  /** Ids are unique; every edge starts at a node of the graph and leads to a goal or plan or action. */
  ghost predicate WellFormed(g: Graph) {
    && UniqueIds(g.nodes, g.next)
    && (forall e :: e in g.edges ==> HasId(g.nodes, e.source) && HasId(Core(g.nodes), e.target))
  }

  // ---- Places under growth ----

  lemma {:induction false} PlaceBound(core: seq<Node>, id: Id)
    ensures PlaceOf(core, id) <= |core|
    ensures PlaceOf(core, id) < |core| <==> HasId(core, id)
    ensures PlaceOf(core, id) < |core| ==> core[PlaceOf(core, id)].id == id
  {
    if core != [] {
      PlaceBound(core[1..], id);
      if i :| 0 <= i < |core| && core[i].id == id {
        if i > 0 { assert core[1..][i - 1].id == id; }
      }
    }
  }

  lemma {:induction false} PlaceSnoc(core: seq<Node>, node: Node, id: Id)
    ensures PlaceOf(core + [node], id) == if PlaceOf(core, id) < |core| then PlaceOf(core, id)
                                          else if node.id == id then |core| else |core| + 1
  {
    PlaceBound(core, id);
    if core != [] {
      assert (core + [node])[1..] == core[1..] + [node];
      PlaceBound(core[1..], id);
      PlaceSnoc(core[1..], node, id);
    }
  }

  lemma PlaceOfAt(core: seq<Node>, next: Id, i: nat)
    requires UniqueIds(core, next) && i < |core|
    ensures PlaceOf(core, core[i].id) == i
  {
    PlaceBound(core, core[i].id);
  }

  lemma {:induction false} CoreMembers(nodes: seq<Node>, n: Node)
    ensures n in Core(nodes) <==> n in nodes && IsCore(n.body)
  {
    if nodes != [] {
      assert nodes == nodes[..|nodes| - 1] + [nodes[|nodes| - 1]];
      CoreMembers(nodes[..|nodes| - 1], n);
    }
  }

  lemma {:induction false} CoreIds(nodes: seq<Node>, next: Id)
    requires UniqueIds(nodes, next)
    ensures UniqueIds(Core(nodes), next)
  {
    if nodes != [] {
      var before, last := nodes[..|nodes| - 1], nodes[|nodes| - 1];
      CoreIds(before, next);
      forall i | 0 <= i < |Core(before)| ensures Core(before)[i].id != last.id {
        CoreMembers(before, Core(before)[i]);
      }
    }
  }

  lemma CoreSnoc(nodes: seq<Node>, node: Node)
    ensures Core(nodes + [node]) == if IsCore(node.body) then Core(nodes) + [node] else Core(nodes)
  {
    assert (nodes + [node])[..|nodes|] == nodes;
  }

  lemma {:induction false} CoreEdgesGrow(edges: seq<Edge>, core: seq<Node>, node: Node)
    requires forall e :: e in edges ==> e.source != node.id && HasId(core, e.target)
    ensures CoreEdges(edges, core + [node]) == CoreEdges(edges, core)
  {
    if edges != [] {
      var e := edges[|edges| - 1];
      assert e in edges;
      CoreEdgesGrow(edges[..|edges| - 1], core, node);
      PlaceSnoc(core, node, e.source);
      PlaceSnoc(core, node, e.target);
      PlaceBound(core, e.source);
      PlaceBound(core, e.target);
    }
  }

  lemma HasIdGrows(nodes: seq<Node>, node: Node, id: Id)
    requires HasId(nodes, id)
    ensures HasId(nodes + [node], id)
  {
    var i :| 0 <= i < |nodes| && nodes[i].id == id;
    assert (nodes + [node])[i].id == id;
  }

  lemma AddNodeWellFormed(g: Graph, body: Body)
    requires WellFormed(g)
    ensures WellFormed(AddNode(g, body))
  {
    var node := Node(g.next, body);
    CoreSnoc(g.nodes, node);
    forall e | e in g.edges ensures HasId(AddNode(g, body).nodes, e.source) && HasId(Core(AddNode(g, body).nodes), e.target) {
      HasIdGrows(g.nodes, node, e.source);
      if IsCore(body) { HasIdGrows(Core(g.nodes), node, e.target); }
    }
  }

  /** A new goal, plan or action extends the shape by its body; any other node leaves the shape. */
  lemma AddNodeShape(g: Graph, body: Body)
    requires WellFormed(g)
    ensures var t := AddNode(g, body);
            && WellFormed(t)
            && Core(t.nodes) == (if IsCore(body) then Core(g.nodes) + [Node(g.next, body)] else Core(g.nodes))
            && ShapeOf(t) == if IsCore(body) then Shape(ShapeOf(g).bodies + [body], ShapeOf(g).edges) else ShapeOf(g)
  {
    var node := Node(g.next, body);
    AddNodeWellFormed(g, body);
    CoreSnoc(g.nodes, node);
    if IsCore(body) {
      forall e | e in g.edges ensures e.source != node.id {
        var i :| 0 <= i < |g.nodes| && g.nodes[i].id == e.source;
      }
      CoreEdgesGrow(g.edges, Core(g.nodes), node);
      assert Bodies(Core(g.nodes) + [node]) == Bodies(Core(g.nodes)) + [body];
    }
  }

  lemma CoreEdgesSnoc(edges: seq<Edge>, e: Edge, core: seq<Node>)
    ensures CoreEdges(edges + [e], core) == CoreEdges(edges, core) + CoreEdgeOf(e, core)
  {
    assert (edges + [e])[..|edges|] == edges;
  }

  lemma InNodes(nodes: seq<Node>, node: Node)
    requires node in nodes
    ensures HasId(nodes, node.id)
  {
    var i :| 0 <= i < |nodes| && nodes[i] == node;
  }

  /** An edge from the `i`th to the `j`th core node extends the shape by just that. */
  lemma AddEdgeShape(g: Graph, i: nat, j: nat, edgeType: EdgeType)
    requires WellFormed(g) && i < |Core(g.nodes)| && j < |Core(g.nodes)|
    ensures var t := AddEdge(g, Core(g.nodes)[i].id, Core(g.nodes)[j].id, edgeType);
            && WellFormed(t) && Core(t.nodes) == Core(g.nodes)
            && ShapeOf(t) == Shape(ShapeOf(g).bodies, ShapeOf(g).edges + [CoreEdge(i, j, edgeType)])
  {
    var core := Core(g.nodes);
    CoreIds(g.nodes, g.next);
    CoreMembers(g.nodes, core[i]);
    InNodes(g.nodes, core[i]);
    PlaceOfAt(core, g.next, i);
    PlaceOfAt(core, g.next, j);
    CoreEdgesSnoc(g.edges, Edge(core[i].id, core[j].id, edgeType), core);
  }

  /** An edge from another node than a core one leaves the shape. */
  lemma AddOtherEdgeShape(g: Graph, source: Id, target: Id, edgeType: EdgeType)
    requires WellFormed(g) && HasId(g.nodes, source) && !HasId(Core(g.nodes), source) && HasId(Core(g.nodes), target)
    ensures WellFormed(AddEdge(g, source, target, edgeType)) && ShapeOf(AddEdge(g, source, target, edgeType)) == ShapeOf(g)
  {
    PlaceBound(Core(g.nodes), source);
    CoreEdgesSnoc(g.edges, Edge(source, target, edgeType), Core(g.nodes));
  }

  lemma FreshIsNotCore(g: Graph)
    requires WellFormed(g)
    ensures !HasId(Core(g.nodes), g.next)
  {
    CoreIds(g.nodes, g.next);
  }

  /** A completion and its edge leave the goal/plan/action subgraph as it is. */
  lemma CompleteKeepsShape(g: Graph, goalMet: bool, goal: Id)
    requires WellFormed(g) && HasId(Core(g.nodes), goal)
    ensures WellFormed(Complete(g, goalMet, goal)) && ShapeOf(Complete(g, goalMet, goal)) == ShapeOf(g)
    ensures Core(Complete(g, goalMet, goal).nodes) == Core(g.nodes)
  {
    var t := AddNode(g, CompletionBody(goalMet));
    AddNodeShape(g, CompletionBody(goalMet));
    assert t.nodes[|g.nodes|].id == g.next;
    FreshIsNotCore(g);
    AddOtherEdgeShape(t, g.next, goal, COMPLETES);
  }

  // ---- The shape of a batch build ----

  function Extend(sh: Shape, body: Body): Shape {
    Shape(sh.bodies + [body], sh.edges)
  }

  function Linked(sh: Shape, i: nat, j: nat, edgeType: EdgeType): Shape {
    Shape(sh.bodies, sh.edges + [CoreEdge(i, j, edgeType)])
  }

  /** The goal and `n` plan steps, each implementing the goal. */
  function PlanShape(sem: Semantic, plan: seq<string>, n: nat): Shape
    requires n <= |plan|
  {
    if n == 0 then Shape([GoalOf(sem)], [])
    else Linked(Extend(PlanShape(sem, plan, n - 1), PlanBody(n - 1, plan[n - 1])), n, 0, IMPLEMENTS)
  }

  /** The shape with one more action, at place `n`. */
  function ActionAdded(sh: Shape, r: ToolResult, plans: nat, n: nat): Shape {
    var extended := Extend(sh, ActionOf(r));
    Linked(if plans > 0 then Linked(extended, n, 1, EXECUTES) else extended, n, 0, SUPPORTS)
  }

  /** One action per result, executing the first plan step, if there is one, and supporting the goal. */
  function FullShape(sem: Semantic, plan: seq<string>, rs: seq<ToolResult>, n: nat): Shape
    requires n <= |rs|
  {
    if n == 0 then PlanShape(sem, plan, |plan|)
    else
      ActionAdded(FullShape(sem, plan, rs, n - 1), rs[n - 1], |plan|, |plan| + n)
  }

  /** The node at each place: the goal, the plan's steps in order, the actions one to one with the results, in order. */
  function BodyAt(sem: Semantic, plan: seq<string>, rs: seq<ToolResult>, i: nat): Body
    requires i < 1 + |plan| + |rs|
  {
    if i == 0 then GoalOf(sem) else if i <= |plan| then PlanBody(i - 1, plan[i - 1]) else ActionOf(rs[i - 1 - |plan|])
  }

  lemma {:induction false} PlanShapeBodies(sem: Semantic, plan: seq<string>, n: nat)
    requires n <= |plan|
    ensures var bs := PlanShape(sem, plan, n).bodies;
            |bs| == n + 1 && forall i :: 0 <= i <= n ==> bs[i] == BodyAt(sem, plan, [], i)
  {
    if n > 0 { PlanShapeBodies(sem, plan, n - 1); }
  }

  lemma {:induction false} FullShapeBodies(sem: Semantic, plan: seq<string>, rs: seq<ToolResult>, n: nat)
    requires n <= |rs|
    ensures var bs := FullShape(sem, plan, rs, n).bodies;
            |bs| == 1 + |plan| + n && forall i :: 0 <= i < |bs| ==> bs[i] == BodyAt(sem, plan, rs, i)
  {
    if n > 0 {
      FullShapeBodies(sem, plan, rs, n - 1);
      var bs := FullShape(sem, plan, rs, n).bodies;
      assert bs == FullShape(sem, plan, rs, n - 1).bodies + [ActionOf(rs[n - 1])];
      assert bs[|plan| + n] == BodyAt(sem, plan, rs, |plan| + n);
    } else {
      PlanShapeBodies(sem, plan, |plan|);
    }
  }

  lemma {:induction false} FullShapePrefix(sem: Semantic, plan: seq<string>, rs: seq<ToolResult>, longer: seq<ToolResult>, n: nat)
    requires n <= |rs| && rs <= longer
    ensures FullShape(sem, plan, rs, n) == FullShape(sem, plan, longer, n)
  {
    if n > 0 { FullShapePrefix(sem, plan, rs, longer, n - 1); }
  }

  lemma {:induction false} OfKindCore(nodes: seq<Node>, kind: Kind)
    requires kind == GOAL || kind == PLAN || kind == ACTION
    ensures OfKind(nodes, kind) == OfKind(Core(nodes), kind)
  {
    if nodes != [] {
      var before, last := nodes[..|nodes| - 1], nodes[|nodes| - 1];
      assert nodes == before + [last];
      OfKindCore(before, kind);
      OfKindSnoc(before, last, kind);
      CoreSnoc(before, last);
      if IsCore(last.body) {
        OfKindSnoc(Core(before), last, kind);
      } else {
        assert OfKind(before, kind) + [] == OfKind(before, kind);
      }
    }
  }

  /** Where the nodes of a kind stand together, they are found as that stretch. */
  lemma {:induction false} OfKindStretch(nodes: seq<Node>, n: nat, kind: Kind, lo: nat, hi: nat)
    requires lo <= hi <= n <= |nodes|
    requires forall i :: 0 <= i < n ==> (KindOf(nodes[i].body) == kind <==> lo <= i < hi)
    ensures OfKind(nodes[..n], kind) == nodes[lo..hi]
  {
    if n > 0 {
      assert nodes[..n] == nodes[..n - 1] + [nodes[n - 1]];
      OfKindSnoc(nodes[..n - 1], nodes[n - 1], kind);
      if hi < n {
        OfKindStretch(nodes, n - 1, kind, lo, hi);
      } else if lo < hi {
        OfKindStretch(nodes, n - 1, kind, lo, hi - 1);
      } else {
        OfKindStretch(nodes, n - 1, kind, lo - 1, lo - 1);
      }
    }
  }

  /** What the builder needs to find: the goal, the plan steps and the actions seen. */
  ghost predicate Finds(g: Graph, plans: nat, actions: nat) {
    && |Core(g.nodes)| == 1 + plans + actions
    && OfKind(g.nodes, GOAL) != [] && OfKind(g.nodes, GOAL)[0] == Core(g.nodes)[0]
    && |OfKind(g.nodes, PLAN)| == plans && (plans > 0 ==> OfKind(g.nodes, PLAN)[0] == Core(g.nodes)[1])
    && |OfKind(g.nodes, ACTION)| == actions
  }

  function KindAt(plans: nat, i: nat): Kind {
    if i == 0 then GOAL else if i <= plans then PLAN else ACTION
  }

  lemma FindsStretches(g: Graph, plans: nat, actions: nat)
    requires |ShapeOf(g).bodies| == 1 + plans + actions
    requires forall i :: 0 <= i < |ShapeOf(g).bodies| ==> KindOf(ShapeOf(g).bodies[i]) == KindAt(plans, i)
    ensures Finds(g, plans, actions)
  {
    var core := Core(g.nodes);
    var n := |core|;
    assert core[..n] == core;
    forall i | 0 <= i < n ensures KindOf(core[i].body) == KindAt(plans, i) {
      assert ShapeOf(g).bodies[i] == core[i].body;
    }
    OfKindCore(g.nodes, GOAL);
    OfKindCore(g.nodes, PLAN);
    OfKindCore(g.nodes, ACTION);
    OfKindStretch(core, n, GOAL, 0, 1);
    OfKindStretch(core, n, PLAN, 1, 1 + plans);
    OfKindStretch(core, n, ACTION, 1 + plans, n);
  }

  lemma FindsInFull(g: Graph, sem: Semantic, plan: seq<string>, rs: seq<ToolResult>, n: nat)
    requires n <= |rs| && ShapeOf(g) == FullShape(sem, plan, rs, n)
    ensures Finds(g, |plan|, n)
  {
    FullShapeBodies(sem, plan, rs, n);
    FindsStretches(g, |plan|, n);
  }

  lemma AddPlanShape(g: Graph, sem: Semantic, plan: seq<string>, i: nat, goal: Id)
    requires i < |plan| && WellFormed(g) && ShapeOf(g) == PlanShape(sem, plan, i)
    requires Core(g.nodes) != [] && goal == Core(g.nodes)[0].id
    ensures var t := AddPlan(g, plan, i, goal);
            WellFormed(t) && Core(g.nodes) <= Core(t.nodes) && ShapeOf(t) == PlanShape(sem, plan, i + 1)
  {
    PlanShapeBodies(sem, plan, i);
    assert |Core(g.nodes)| == |ShapeOf(g).bodies| == i + 1;
    AddLinkedNode(g, PlanBody(i, plan[i]), 0, IMPLEMENTS);
  }

  lemma {:induction false} AddPlansShape(g: Graph, sem: Semantic, plan: seq<string>, i: nat, goal: Id)
    requires i <= |plan| && WellFormed(g) && ShapeOf(g) == PlanShape(sem, plan, i)
    requires Core(g.nodes) != [] && goal == Core(g.nodes)[0].id
    ensures var t := AddPlans(g, plan, i, goal);
            WellFormed(t) && Core(g.nodes) <= Core(t.nodes) && ShapeOf(t) == PlanShape(sem, plan, |plan|)
    decreases |plan| - i
  {
    if i < |plan| {
      var g1 := AddPlan(g, plan, i, goal);
      AddPlanShape(g, sem, plan, i, goal);
      AddPlansShape(g1, sem, plan, i + 1, goal);
    }
  }

  /** A new core node with an edge to the `j`th. */
  lemma AddLinkedNode(g: Graph, body: Body, j: nat, edgeType: EdgeType)
    requires WellFormed(g) && IsCore(body) && j < |Core(g.nodes)|
    ensures var t := AddEdge(AddNode(g, body), g.next, Core(g.nodes)[j].id, edgeType);
            && WellFormed(t) && Core(t.nodes) == Core(g.nodes) + [Node(g.next, body)]
            && ShapeOf(t) == Linked(Extend(ShapeOf(g), body), |Core(g.nodes)|, j, edgeType)
  {
    AddNodeShape(g, body);
    AddEdgeShape(AddNode(g, body), |Core(g.nodes)|, j, edgeType);
  }

  function PlanId(g: Graph, plans: nat): Option<Id>
    requires |Core(g.nodes)| > plans
  {
    if plans == 0 then None else Some(Core(g.nodes)[1].id)
  }

  lemma AddActionShape(g: Graph, r: ToolResult, plans: nat, n: nat)
    requires WellFormed(g) && |Core(g.nodes)| == n > plans
    ensures var t := AddAction(g, r, PlanId(g, plans), Core(g.nodes)[0].id);
            && WellFormed(t) && Core(t.nodes) == Core(g.nodes) + [Node(g.next, ActionOf(r))]
            && ShapeOf(t) == ActionAdded(ShapeOf(g), r, plans, n)
  {
    if plans > 0 {
      AddLinkedNode(g, ActionOf(r), 1, EXECUTES);
      AddEdgeShape(AddEdge(AddNode(g, ActionOf(r)), g.next, Core(g.nodes)[1].id, EXECUTES), n, 0, SUPPORTS);
    } else {
      AddLinkedNode(g, ActionOf(r), 0, SUPPORTS);
    }
  }

  /** The graph has the shape, and these are the ids of its goal and of its first plan step. */
  ghost predicate Stands(g: Graph, sh: Shape, plans: nat, firstPlan: Option<Id>, goal: Id) {
    && WellFormed(g) && ShapeOf(g) == sh && |Core(g.nodes)| > plans
    && goal == Core(g.nodes)[0].id && firstPlan == PlanId(g, plans)
  }

  lemma AddActionStands(g: Graph, r: ToolResult, sh: Shape, plans: nat, n: nat, firstPlan: Option<Id>, goal: Id)
    requires Stands(g, sh, plans, firstPlan, goal) && |sh.bodies| == n
    ensures Stands(AddAction(g, r, firstPlan, goal), ActionAdded(sh, r, plans, n), plans, firstPlan, goal)
  {
    assert |Core(g.nodes)| == |ShapeOf(g).bodies|;
    AddActionShape(g, r, plans, n);
  }

  /** The shape with the actions of the results from the `i`th on, the next one at place `n`. */
  function ActionsAdded(sh: Shape, rs: seq<ToolResult>, i: nat, plans: nat, n: nat): Shape
    requires i <= |rs|
    decreases |rs| - i
  {
    if i == |rs| then sh else ActionsAdded(ActionAdded(sh, rs[i], plans, n), rs, i + 1, plans, n + 1)
  }

  lemma {:induction false} AddActionsShape(
    g: Graph, sh: Shape, rs: seq<ToolResult>, i: nat, plans: nat, n: nat, firstPlan: Option<Id>, goal: Id)
    requires i <= |rs| && Stands(g, sh, plans, firstPlan, goal) && |sh.bodies| == n
    ensures Stands(AddActions(g, rs, i, firstPlan, goal), ActionsAdded(sh, rs, i, plans, n), plans, firstPlan, goal)
    decreases |rs| - i
  {
    if i < |rs| {
      AddActionStands(g, rs[i], sh, plans, n, firstPlan, goal);
      AddActionsShape(AddAction(g, rs[i], firstPlan, goal), ActionAdded(sh, rs[i], plans, n), rs, i + 1, plans, n + 1, firstPlan, goal);
    }
  }

  lemma {:induction false} ActionsAddedIsFull(sem: Semantic, plan: seq<string>, rs: seq<ToolResult>, i: nat)
    requires i <= |rs|
    ensures ActionsAdded(FullShape(sem, plan, rs, i), rs, i, |plan|, 1 + |plan| + i) == FullShape(sem, plan, rs, |rs|)
    decreases |rs| - i
  {
    if i < |rs| {
      ActionsAddedIsFull(sem, plan, rs, i + 1);
    }
  }

  /** With goal and plan in place the builder only appends the new actions. */
  lemma BuildAppends(g: Graph, sem: Semantic, plan: seq<string>, rs: seq<ToolResult>, k: nat)
    requires Finds(g, |plan|, k) && k <= |rs|
    ensures Build(g, sem, plan, rs) == AddActions(g, rs, k, PlanId(g, |plan|), Core(g.nodes)[0].id)
  {
    assert WithGoal(g, sem) == g;
    assert WithPlan(g, plan, Core(g.nodes)[0].id) == g;
    assert FirstId(OfKind(g.nodes, PLAN)) == PlanId(g, |plan|);
  }

  /** On a graph that has the first `k` results the builder adds the others. */
  lemma BuildOntoFull(g: Graph, sem: Semantic, plan: seq<string>, rs: seq<ToolResult>, k: nat)
    requires k <= |rs| && WellFormed(g) && ShapeOf(g) == FullShape(sem, plan, rs, k)
    ensures WellFormed(Build(g, sem, plan, rs)) && ShapeOf(Build(g, sem, plan, rs)) == FullShape(sem, plan, rs, |rs|)
  {
    FindsInFull(g, sem, plan, rs, k);
    BuildAppends(g, sem, plan, rs, k);
    var firstPlan, goal := PlanId(g, |plan|), Core(g.nodes)[0].id;
    FullShapeBodies(sem, plan, rs, k);
    AddActionsShape(g, FullShape(sem, plan, rs, k), rs, k, |plan|, 1 + |plan| + k, firstPlan, goal);
    ActionsAddedIsFull(sem, plan, rs, k);
  }

  /** The graph with goal and plan, as the first call makes it before it looks at the results. */
  function Start(sem: Semantic, plan: seq<string>): Graph {
    WithGoalHasGoal(EMPTY, sem);
    WithPlan(WithGoal(EMPTY, sem), plan, OfKind(WithGoal(EMPTY, sem).nodes, GOAL)[0].id)
  }

  lemma GoalOnly(sem: Semantic)
    ensures var g := WithGoal(EMPTY, sem);
            WellFormed(g) && ShapeOf(g) == PlanShape(sem, [], 0) && Finds(g, 0, 0)
  {
    AddNodeShape(EMPTY, GoalOf(sem));
    FindsStretches(WithGoal(EMPTY, sem), 0, 0);
  }

  lemma StartShape(sem: Semantic, plan: seq<string>)
    ensures WellFormed(Start(sem, plan)) && ShapeOf(Start(sem, plan)) == PlanShape(sem, plan, |plan|)
    ensures Core(WithGoal(EMPTY, sem).nodes) <= Core(Start(sem, plan).nodes)
  {
    var g := WithGoal(EMPTY, sem);
    GoalOnly(sem);
    assert PlanShape(sem, plan, 0) == PlanShape(sem, [], 0);
    AddPlansShape(g, sem, plan, 0, Core(g.nodes)[0].id);
    assert Start(sem, plan) == if plan != [] then AddPlans(g, plan, 0, Core(g.nodes)[0].id) else g;
  }

  lemma BuildFromScratch(sem: Semantic, plan: seq<string>, rs: seq<ToolResult>)
    ensures WellFormed(Build(EMPTY, sem, plan, rs)) && ShapeOf(Build(EMPTY, sem, plan, rs)) == FullShape(sem, plan, rs, |rs|)
  {
    var g := Start(sem, plan);
    StartShape(sem, plan);
    GoalOnly(sem);
    BuildOntoFull(g, sem, plan, rs, 0);
    FindsInFull(g, sem, plan, rs, 0);
    assert Build(EMPTY, sem, plan, rs) == Build(g, sem, plan, rs) by { BuildTwice(sem, plan, rs); }
  }

  /** The call on nothing goes on as the call on goal and plan does. */
  lemma BuildTwice(sem: Semantic, plan: seq<string>, rs: seq<ToolResult>)
    ensures Build(EMPTY, sem, plan, rs) == Build(Start(sem, plan), sem, plan, rs)
  {
    var g := Start(sem, plan);
    StartShape(sem, plan);
    GoalOnly(sem);
    assert ShapeOf(g) == FullShape(sem, plan, [], 0);
    FindsInFull(g, sem, plan, [], 0);
    assert WithGoal(g, sem) == g && WithPlan(g, plan, OfKind(g.nodes, GOAL)[0].id) == g;
    assert OfKind(g.nodes, GOAL)[0].id == OfKind(WithGoal(EMPTY, sem).nodes, GOAL)[0].id;
  }

  // ---- Incremental equals batch ----

  /** Builder calls on prefixes of the results, and completions appended by validations between them. */
  datatype Op = BuildUpTo(n: nat) | Validated(goalMet: bool)

  /** What a validation that reaches its end does to the graph; without a goal it returns before that. */
  function Validate(g: Graph, goalMet: bool): Graph {
    if OfKind(g.nodes, GOAL) == [] then g else Complete(g, goalMet, OfKind(g.nodes, GOAL)[0].id)
  }

  function Step(g: Graph, sem: Semantic, plan: seq<string>, rs: seq<ToolResult>, op: Op): Graph
    requires op.BuildUpTo? ==> op.n <= |rs|
  {
    match op
    case BuildUpTo(n) => Build(g, sem, plan, rs[..n])
    case Validated(goalMet) => Validate(g, goalMet)
  }

  /** From `seen` results on, no builder call sees fewer results than an earlier one, or more than there are. */
  predicate Growing(rs: seq<ToolResult>, seen: nat, ops: seq<Op>)
    decreases |ops|
  {
    ops == [] || match ops[0]
    case BuildUpTo(n) => seen <= n <= |rs| && Growing(rs, n, ops[1..])
    case Validated(_) => Growing(rs, seen, ops[1..])
  }

  function Run(g: Graph, sem: Semantic, plan: seq<string>, rs: seq<ToolResult>, seen: nat, ops: seq<Op>): Graph
    requires Growing(rs, seen, ops)
    decreases |ops|
  {
    if ops == [] then g
    else Run(Step(g, sem, plan, rs, ops[0]), sem, plan, rs, SeenAfter(seen, ops[0]), ops[1..])
  }

  function SeenAfter(seen: nat, op: Op): nat {
    match op case BuildUpTo(n) => n case Validated(_) => seen
  }

  /** How many results the last builder call saw. */
  function Seen(seen: nat, ops: seq<Op>): nat
    decreases |ops|
  {
    if ops == [] then seen else Seen(SeenAfter(seen, ops[0]), ops[1..])
  }

  predicate Built(ops: seq<Op>) {
    ops != [] && (ops[0].BuildUpTo? || Built(ops[1..]))
  }

  lemma RunBuildStep(g: Graph, sem: Semantic, plan: seq<string>, rs: seq<ToolResult>, k: nat, n: nat)
    requires k <= n <= |rs| && WellFormed(g) && ShapeOf(g) == FullShape(sem, plan, rs, k)
    ensures WellFormed(Build(g, sem, plan, rs[..n])) && ShapeOf(Build(g, sem, plan, rs[..n])) == FullShape(sem, plan, rs, n)
  {
    FullShapePrefix(sem, plan, rs[..n], rs, k);
    FullShapePrefix(sem, plan, rs[..n], rs, n);
    BuildOntoFull(g, sem, plan, rs[..n], k);
  }

  /** Before the first builder call there is nothing; from then on the graph is the batch graph of what was seen. */
  ghost predicate UpToDate(g: Graph, sem: Semantic, plan: seq<string>, rs: seq<ToolResult>, built: bool, n: nat) {
    n <= |rs| && WellFormed(g) && if built then ShapeOf(g) == FullShape(sem, plan, rs, n) else g == EMPTY && n == 0
  }

  lemma BuildKeepsUpToDate(g: Graph, sem: Semantic, plan: seq<string>, rs: seq<ToolResult>, built: bool, k: nat, n: nat)
    requires UpToDate(g, sem, plan, rs, built, k) && k <= n <= |rs|
    ensures UpToDate(Build(g, sem, plan, rs[..n]), sem, plan, rs, true, n)
  {
    if built {
      RunBuildStep(g, sem, plan, rs, k, n);
    } else {
      BuildFromScratch(sem, plan, rs[..n]);
      FullShapePrefix(sem, plan, rs[..n], rs, n);
    }
  }

  lemma ValidationKeepsUpToDate(g: Graph, sem: Semantic, plan: seq<string>, rs: seq<ToolResult>, built: bool, n: nat, goalMet: bool)
    requires UpToDate(g, sem, plan, rs, built, n)
    ensures UpToDate(Validate(g, goalMet), sem, plan, rs, built, n)
  {
    if built {
      FindsInFull(g, sem, plan, rs, n);
      CompleteKeepsShape(g, goalMet, Core(g.nodes)[0].id);
    }
  }

  lemma StepKeepsUpToDate(g: Graph, sem: Semantic, plan: seq<string>, rs: seq<ToolResult>, built: bool, seen: nat, op: Op)
    requires UpToDate(g, sem, plan, rs, built, seen)
    requires op.BuildUpTo? ==> seen <= op.n <= |rs|
    ensures UpToDate(Step(g, sem, plan, rs, op), sem, plan, rs, built || op.BuildUpTo?, SeenAfter(seen, op))
  {
    match op
    case BuildUpTo(n) => BuildKeepsUpToDate(g, sem, plan, rs, built, seen, n);
    case Validated(goalMet) => ValidationKeepsUpToDate(g, sem, plan, rs, built, seen, goalMet);
  }

  lemma {:induction false} RunKeepsUpToDate(
    g: Graph, sem: Semantic, plan: seq<string>, rs: seq<ToolResult>, built: bool, seen: nat, ops: seq<Op>)
    requires UpToDate(g, sem, plan, rs, built, seen) && Growing(rs, seen, ops)
    ensures UpToDate(Run(g, sem, plan, rs, seen, ops), sem, plan, rs, built || Built(ops), Seen(seen, ops))
    decreases |ops|
  {
    if ops != [] {
      StepKeepsUpToDate(g, sem, plan, rs, built, seen, ops[0]);
      var g1, built1, seen1 := Step(g, sem, plan, rs, ops[0]), built || ops[0].BuildUpTo?, SeenAfter(seen, ops[0]);
      RunKeepsUpToDate(g1, sem, plan, rs, built1, seen1, ops[1..]);
    }
  }

  /**
   Incremental equals batch: after any builder calls on growing prefixes, with validations anywhere
   between, the goal/plan/action subgraph is, up to node ids, that of one call on the results seen;
   ids are unique and every edge's ends are present.
   */
  lemma IncrementalEqualsBatch(sem: Semantic, plan: seq<string>, rs: seq<ToolResult>, ops: seq<Op>)
    requires Growing(rs, 0, ops) && Built(ops)
    ensures var g, n := Run(EMPTY, sem, plan, rs, 0, ops), Seen(0, ops);
            && n <= |rs| && WellFormed(g)
            && ShapeOf(g) == ShapeOf(Build(EMPTY, sem, plan, rs[..n]))
            && ShapeOf(g) == FullShape(sem, plan, rs, n)
  {
    RunKeepsUpToDate(EMPTY, sem, plan, rs, false, 0, ops);
    var n := Seen(0, ops);
    BuildFromScratch(sem, plan, rs[..n]);
    FullShapePrefix(sem, plan, rs[..n], rs, n);
  }

  /** So the graph has one goal node, the plan's steps, and one action per result seen, in order. */
  lemma GraphMatchesResults(sem: Semantic, plan: seq<string>, rs: seq<ToolResult>, ops: seq<Op>)
    requires Growing(rs, 0, ops) && Built(ops)
    ensures var core, n := Core(Run(EMPTY, sem, plan, rs, 0, ops).nodes), Seen(0, ops);
            && n <= |rs| && |core| == 1 + |plan| + n
            && forall i :: 0 <= i < |core| ==> core[i].body == BodyAt(sem, plan, rs, i)
  {
    IncrementalEqualsBatch(sem, plan, rs, ops);
    var g, n := Run(EMPTY, sem, plan, rs, 0, ops), Seen(0, ops);
    FullShapeBodies(sem, plan, rs, n);
    forall i | 0 <= i < |Core(g.nodes)| ensures Core(g.nodes)[i].body == BodyAt(sem, plan, rs, i) {
      assert ShapeOf(g).bodies[i] == Core(g.nodes)[i].body;
    }
  }
}
