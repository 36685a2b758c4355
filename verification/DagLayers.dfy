/**
 Dependency layering of a task set (scripts/test-parallel-subagent.py:87-114).

 The loop takes, round after round, every task whose in-set dependencies are already
 scheduled; when no task is ready it schedules everything that is left in one layer.
 The specification is independent of the loop: it speaks of dependency chains and cycles.
 */
module DagLayers {

  type TaskId = string

  /** `dependsOn` is empty when the source's key is missing or null. */
  datatype Task = Task(id: TaskId, dependsOn: seq<TaskId>)

  /** Dependency relation restricted to the task ids. */
  type Graph = g: map<TaskId, set<TaskId>> | forall t <- g :: g[t] <= g.Keys

  function Ids(tasks: seq<Task>): set<TaskId> {
    set t <- tasks :: t.id
  }

  /** The first task carrying the id, as the generator expression in the source finds it. */
  function FindTask(tasks: seq<Task>, id: TaskId): (t: Task)
    requires id in Ids(tasks)
    ensures t in tasks && t.id == id
  {
    if tasks[0].id == id then tasks[0] else FindTask(tasks[1..], id)
  }

  function DepGraph(tasks: seq<Task>): Graph {
    map id <- Ids(tasks) :: set d <- FindTask(tasks, id).dependsOn | d in Ids(tasks)
  }

  // ---- Chains and cycles: what the schedule is judged by ----

  /** Each task of the chain depends directly on the next one. */
  ghost predicate Chain(g: Graph, p: seq<TaskId>) {
    && p != []
    && (forall i :: 0 <= i < |p| ==> p[i] in g)
    && (forall i :: 0 <= i < |p| - 1 ==> p[i + 1] in g[p[i]])
  }

  ghost predicate ChainFrom(g: Graph, t: TaskId, p: seq<TaskId>) {
    Chain(g, p) && p[0] == t
  }

  ghost predicate CycleAt(g: Graph, x: TaskId, p: seq<TaskId>) {
    ChainFrom(g, x, p) && |p| >= 2 && p[|p| - 1] == x
  }

  ghost predicate OnCycle(g: Graph, x: TaskId) {
    exists p :: CycleAt(g, x, p)
  }

  ghost predicate HasCycle(g: Graph) {
    exists x :: x in g && OnCycle(g, x)
  }

  ghost predicate ReachesCycle(g: Graph, t: TaskId) {
    exists p :: ChainFrom(g, t, p) && OnCycle(g, p[|p| - 1])
  }

  /** `n` is the number of tasks on the longest dependency chain starting at `t`. */
  ghost predicate LongestChain(g: Graph, t: TaskId, n: nat) {
    && (exists p :: ChainFrom(g, t, p) && |p| == n)
    && (forall p :: ChainFrom(g, t, p) ==> |p| <= n)
  }

  // ---- Rounds of the loop without the fallback ----

  /** Tasks scheduled after `k` rounds. */
  ghost function Done(g: Graph, k: nat): set<TaskId> {
    if k == 0 then {} else set t <- g | g[t] <= Done(g, k - 1)
  }

  lemma {:induction false} DoneGrows(g: Graph, k: nat)
    ensures Done(g, k) <= Done(g, k + 1)
  {
    if k > 0 {
      DoneGrows(g, k - 1);
    }
  }

  lemma {:induction false} DoneMonotone(g: Graph, j: nat, k: nat)
    requires j <= k
    ensures Done(g, j) <= Done(g, k)
    decreases k
  {
    if j < k {
      DoneMonotone(g, j, k - 1);
      DoneGrows(g, k - 1);
    }
  }

  lemma {:induction false} DoneFixpoint(g: Graph, j: nat, k: nat)
    requires j <= k && Done(g, j + 1) == Done(g, j)
    ensures Done(g, k) == Done(g, j)
    decreases k
  {
    if j < k {
      DoneFixpoint(g, j, k - 1);
    }
  }

  /** A task scheduled within `k` rounds has no chain of more than `k` tasks. */
  lemma {:induction false} DoneBoundsChains(g: Graph, t: TaskId, k: nat, p: seq<TaskId>)
    requires t in Done(g, k) && ChainFrom(g, t, p)
    ensures |p| <= k
    decreases k
  {
    if |p| > 1 {
      assert p[1] in g[p[0]];
      assert forall i :: 0 <= i < |p[1..]| - 1 ==> p[1..][i + 1] in g[p[1..][i]] by {
        forall i | 0 <= i < |p[1..]| - 1 ensures p[1..][i + 1] in g[p[1..][i]] {
          assert p[(i + 1) + 1] in g[p[i + 1]];
        }
      }
      DoneBoundsChains(g, p[1], k - 1, p[1..]);
    }
  }

  /** A task not scheduled within `k` rounds heads a chain of `k + 1` tasks. */
  lemma {:induction false} UndoneHasChain(g: Graph, t: TaskId, k: nat) returns (p: seq<TaskId>)
    requires t in g && t !in Done(g, k)
    ensures ChainFrom(g, t, p) && |p| == k + 1
    decreases k
  {
    if k == 0 {
      p := [t];
    } else {
      var d :| d in g[t] && d !in Done(g, k - 1);
      var q := UndoneHasChain(g, d, k - 1);
      p := [t] + q;
      forall i | 0 <= i < |p| - 1 ensures p[i + 1] in g[p[i]] {
        if i > 0 { assert q[(i - 1) + 1] in g[q[i - 1]]; }
      }
    }
  }

  lemma {:induction false} Pigeonhole(p: seq<TaskId>, s: set<TaskId>) returns (i: nat, j: nat)
    requires forall k :: 0 <= k < |p| ==> p[k] in s
    requires |p| > |s|
    ensures i < j < |p| && p[i] == p[j]
    decreases |p|
  {
    var x, last := p[|p| - 1], |p| - 1;
    if k :| 0 <= k < last && p[k] == x {
      return k, last;
    }
    i, j := Pigeonhole(p[..last], s - {x});
  }

  lemma SubChain(g: Graph, p: seq<TaskId>, i: nat, j: nat)
    requires Chain(g, p) && i < j <= |p|
    ensures Chain(g, p[i..j])
  {
    var q := p[i..j];
    forall k | 0 <= k < |q| - 1 ensures q[k + 1] in g[q[k]] {
      assert p[(i + k) + 1] in g[p[i + k]];
    }
  }

  /** A chain longer than the task set repeats a task, so it runs into a cycle. */
  lemma LongChainReachesCycle(g: Graph, t: TaskId, p: seq<TaskId>)
    requires ChainFrom(g, t, p) && |p| > |g|
    ensures ReachesCycle(g, t)
  {
    var i, j := Pigeonhole(p, g.Keys);
    SubChain(g, p, i, j + 1);
    assert CycleAt(g, p[i], p[i..j + 1]);
    SubChain(g, p, 0, i + 1);
    assert ChainFrom(g, t, p[0..i + 1]);
  }

  /** A task from which a cycle is reachable depends on such a task. */
  lemma CycleStep(g: Graph, t: TaskId) returns (d: TaskId)
    requires ReachesCycle(g, t)
    ensures t in g && d in g[t] && ReachesCycle(g, d)
  {
    var p :| ChainFrom(g, t, p) && OnCycle(g, p[|p| - 1]);
    if |p| > 1 {
      d := p[1];
      SubChain(g, p, 1, |p|);
      assert ChainFrom(g, d, p[1..|p|]);
      assert p[0 + 1] in g[p[0]];
    } else {
      var c :| CycleAt(g, t, c);
      d := c[1];
      SubChain(g, c, 1, |c|);
      assert ChainFrom(g, d, c[1..|c|]);
      assert c[0 + 1] in g[c[0]];
    }
  }

  lemma {:induction false} CycleNeverDone(g: Graph, t: TaskId, k: nat)
    requires ReachesCycle(g, t)
    ensures t !in Done(g, k)
    decreases k
  {
    if k > 0 {
      var d := CycleStep(g, t);
      CycleNeverDone(g, d, k - 1);
    }
  }

  /** Never scheduled by the ready rule, exactly when a cycle is reachable. */
  lemma UndoneIffReachesCycle(g: Graph, t: TaskId)
    requires t in g
    ensures ReachesCycle(g, t) <==> t !in Done(g, |g|)
  {
    if t !in Done(g, |g|) {
      var p := UndoneHasChain(g, t, |g|);
      LongChainReachesCycle(g, t, p);
    } else if ReachesCycle(g, t) {
      CycleNeverDone(g, t, |g|);
    }
  }

  /** Round `k + 1` takes exactly the tasks whose longest chain has `k + 1` tasks. */
  lemma RoundIffLongestChain(g: Graph, t: TaskId, k: nat)
    requires t in g
    ensures t in Done(g, k + 1) - Done(g, k) <==> LongestChain(g, t, k + 1)
  {
    if t in Done(g, k + 1) - Done(g, k) {
      var p := UndoneHasChain(g, t, k);
      forall q | ChainFrom(g, t, q) ensures |q| <= k + 1 {
        DoneBoundsChains(g, t, k + 1, q);
      }
    } else if LongestChain(g, t, k + 1) {
      if t !in Done(g, k + 1) {
        var p := UndoneHasChain(g, t, k + 1);
        assert false;
      } else {
        var p :| ChainFrom(g, t, p) && |p| == k + 1;
        DoneBoundsChains(g, t, k, p);
        assert false;
      }
    }
  }

  // ---- The schedule ----

  ghost function Elements(layer: seq<TaskId>): set<TaskId> {
    set t <- layer
  }

  /** `layer` lists the set `s`, each id once. */
  ghost predicate Lists(layer: seq<TaskId>, s: set<TaskId>) {
    && (forall t :: t in layer <==> t in s)
    && (forall i, j :: 0 <= i < j < |layer| ==> layer[i] != layer[j])
  }

  /** Tasks of `remaining` whose in-set dependencies are all scheduled. */
  ghost function ReadyIn(g: Graph, remaining: set<TaskId>, scheduled: set<TaskId>): set<TaskId>
    requires remaining <= g.Keys
  {
    set t <- remaining | g[t] <= scheduled
  }

  /** The layer that round `k` builds from what is ready. */
  ghost function Round(g: Graph, k: nat): set<TaskId> {
    Done(g, k + 1) - Done(g, k)
  }

  /** Every layer is the listing of its round, and none is empty. */
  ghost predicate ByRounds(g: Graph, layers: seq<seq<TaskId>>) {
    forall k :: 0 <= k < |layers| ==> layers[k] != [] && Lists(layers[k], Round(g, k))
  }

  /** As `ByRounds`, but in the last round nothing was ready and everything left was scheduled. */
  ghost predicate FellBack(g: Graph, layers: seq<seq<TaskId>>) {
    && layers != []
    && var n := |layers| - 1;
    && Round(g, n) == {}
    && layers[n] != []
    && Lists(layers[n], g.Keys - Done(g, n))
    && ByRounds(g, layers[..n])
  }

  ghost predicate Placed(layers: seq<seq<TaskId>>, t: TaskId) {
    exists k :: 0 <= k < |layers| && t in layers[k]
  }

  ghost predicate Covers(g: Graph, layers: seq<seq<TaskId>>) {
    forall t :: t in g <==> Placed(layers, t)
  }

  ghost predicate NoneTwice(layers: seq<seq<TaskId>>) {
    && (forall j, k, t :: 0 <= j < k < |layers| && t in layers[j] ==> t !in layers[k])
    && (forall k, i, j :: 0 <= k < |layers| && 0 <= i < j < |layers[k]| ==> layers[k][i] != layers[k][j])
  }

  /** Every id is in exactly one layer, once. */
  ghost predicate Partition(g: Graph, layers: seq<seq<TaskId>>) {
    Covers(g, layers) && NoneTwice(layers)
  }

  ghost predicate AtDepth(g: Graph, layers: seq<seq<TaskId>>) {
    forall k, t :: 0 <= k < |layers| && t in layers[k] && !ReachesCycle(g, t) ==> LongestChain(g, t, k + 1)
  }

  ghost predicate CyclesLast(g: Graph, layers: seq<seq<TaskId>>) {
    forall k, t :: 0 <= k < |layers| && t in layers[k] && ReachesCycle(g, t) ==>
      k == |layers| - 1 && forall u :: u in layers[k] ==> ReachesCycle(g, u)
  }

  lemma RoundsDisjoint(g: Graph, j: nat, k: nat)
    requires j < k
    ensures Round(g, j) !! Round(g, k)
  {
    DoneMonotone(g, j + 1, k);
  }

  lemma {:induction false} RoundOf(g: Graph, t: TaskId, n: nat) returns (k: nat)
    requires t in Done(g, n)
    ensures k < n && t in Round(g, k)
  {
    if t in Done(g, n - 1) {
      k := RoundOf(g, t, n - 1);
    } else {
      k := n - 1;
    }
  }

  lemma DoneIsPartOfGraph(g: Graph, k: nat)
    ensures Done(g, k) <= g.Keys
  {
  }

  lemma RoundsAreDepths(g: Graph, layers: seq<seq<TaskId>>)
    requires ByRounds(g, layers)
    ensures AtDepth(g, layers)
    ensures forall k, t :: 0 <= k < |layers| && t in layers[k] ==> t in Done(g, |layers|) && !ReachesCycle(g, t)
    ensures forall t :: t in Done(g, |layers|) ==> Placed(layers, t)
    ensures NoneTwice(layers)
  {
    forall k, t | 0 <= k < |layers| && t in layers[k]
      ensures LongestChain(g, t, k + 1) && t in Done(g, |layers|) && !ReachesCycle(g, t)
    {
      assert t in Round(g, k);
      DoneIsPartOfGraph(g, k + 1);
      RoundIffLongestChain(g, t, k);
      DoneMonotone(g, k + 1, |layers|);
      if ReachesCycle(g, t) { CycleNeverDone(g, t, k + 1); }
    }
    forall t | t in Done(g, |layers|) ensures Placed(layers, t) {
      var k := RoundOf(g, t, |layers|);
      assert t in layers[k];
    }
    forall j, k, t | 0 <= j < k < |layers| && t in layers[j] ensures t !in layers[k] {
      RoundsDisjoint(g, j, k);
      assert t in Round(g, j);
    }
  }

  lemma RoundsMeaning(g: Graph, layers: seq<seq<TaskId>>)
    requires ByRounds(g, layers) && Done(g, |layers|) == g.Keys
    ensures Partition(g, layers) && AtDepth(g, layers) && CyclesLast(g, layers)
    ensures !HasCycle(g)
  {
    RoundsAreDepths(g, layers);
    if x :| x in g && OnCycle(g, x) {
      assert ChainFrom(g, x, [x]);
      CycleNeverDone(g, x, |layers|);
    }
  }

  lemma EmptyRoundIsFixpoint(g: Graph, n: nat)
    requires Round(g, n) == {}
    ensures Done(g, n + 1) == Done(g, n)
  {
    DoneGrows(g, n);
    forall t | t in Done(g, n + 1) ensures t in Done(g, n) {
      assert t !in Round(g, n);
    }
  }

  /** Where no task is ready, what is left is exactly what reaches a cycle. */
  lemma StuckIffReachesCycle(g: Graph, n: nat, t: TaskId)
    requires Round(g, n) == {} && t in g
    ensures t in g.Keys - Done(g, n) <==> ReachesCycle(g, t)
  {
    if t !in Done(g, n) {
      EmptyRoundIsFixpoint(g, n);
      if n <= |g| { DoneFixpoint(g, n, |g|); } else { DoneMonotone(g, |g|, n); }
      UndoneIffReachesCycle(g, t);
    } else if ReachesCycle(g, t) {
      CycleNeverDone(g, t, n);
    }
  }

  lemma FallbackCovers(g: Graph, layers: seq<seq<TaskId>>)
    requires FellBack(g, layers)
    ensures Covers(g, layers)
  {
    var n := |layers| - 1;
    var early := layers[..n];
    RoundsAreDepths(g, early);
    DoneIsPartOfGraph(g, n);
    forall k, t | 0 <= k < |layers| && t in layers[k] ensures t in g {
      if k < n { assert t in early[k]; }
    }
    forall t | t in g ensures Placed(layers, t) {
      if t in Done(g, n) {
        var k :| 0 <= k < n && t in early[k];
        assert t in layers[k];
      } else {
        assert t in layers[n];
      }
    }
  }

  lemma FallbackNoneTwice(g: Graph, layers: seq<seq<TaskId>>)
    requires FellBack(g, layers)
    ensures NoneTwice(layers)
  {
    var n := |layers| - 1;
    var early := layers[..n];
    RoundsAreDepths(g, early);
    forall j, k, t | 0 <= j < k < |layers| && t in layers[j] ensures t !in layers[k] {
      assert t in early[j];
      if k < n { assert t !in early[k]; }
    }
    forall k, i, j | 0 <= k < |layers| && 0 <= i < j < |layers[k]| ensures layers[k][i] != layers[k][j] {
      if k < n { assert Lists(early[k], Round(g, k)); }
    }
  }

  lemma LastLayerIsCyclic(g: Graph, layers: seq<seq<TaskId>>)
    requires FellBack(g, layers)
    ensures forall t :: t in layers[|layers| - 1] ==> ReachesCycle(g, t)
    ensures HasCycle(g)
  {
    var last := layers[|layers| - 1];
    forall t | t in last ensures ReachesCycle(g, t) {
      StuckIffReachesCycle(g, |layers| - 1, t);
    }
    assert last[0] in last;
    var p :| ChainFrom(g, last[0], p) && OnCycle(g, p[|p| - 1]);
  }

  lemma FallbackIsCyclic(g: Graph, layers: seq<seq<TaskId>>)
    requires FellBack(g, layers)
    ensures AtDepth(g, layers) && CyclesLast(g, layers)
  {
    var early := layers[..|layers| - 1];
    RoundsAreDepths(g, early);
    LastLayerIsCyclic(g, layers);
    forall k, t | 0 <= k < |layers| && t in layers[k]
      ensures k < |layers| - 1 ==> !ReachesCycle(g, t) && LongestChain(g, t, k + 1)
    {
      if k < |layers| - 1 { assert t in early[k]; }
    }
  }

  /** What the loop has established when nothing remains. */
  ghost predicate Finished(g: Graph, layers: seq<seq<TaskId>>, fell: bool) {
    if fell then FellBack(g, layers) else ByRounds(g, layers) && Done(g, |layers|) == g.Keys
  }

  lemma FinishedMeaning(g: Graph, layers: seq<seq<TaskId>>, fell: bool)
    requires Finished(g, layers, fell)
    ensures Partition(g, layers) && AtDepth(g, layers) && CyclesLast(g, layers)
    ensures FellBack(g, layers) <==> HasCycle(g)
  {
    if fell {
      FallbackCovers(g, layers);
      FallbackNoneTwice(g, layers);
      FallbackIsCyclic(g, layers);
      LastLayerIsCyclic(g, layers);
    } else {
      RoundsMeaning(g, layers);
      if FellBack(g, layers) { LastLayerIsCyclic(g, layers); }
    }
  }

  // ---- The same of the tasks themselves ----

  /** The first task with id `a` lists `b`, and some task has the id `b`. */
  ghost predicate DependsOn(tasks: seq<Task>, a: TaskId, b: TaskId) {
    exists i :: IsFirst(tasks, i) && tasks[i].id == a && b in tasks[i].dependsOn && exists t <- tasks :: t.id == b
  }

  /** No earlier task has this one's id. */
  predicate IsFirst(tasks: seq<Task>, i: int) {
    0 <= i < |tasks| && forall j :: 0 <= j < i ==> tasks[j].id != tasks[i].id
  }

  /** Tasks each of which depends on the next, back to the first. */
  ghost predicate IsCycle(tasks: seq<Task>, p: seq<TaskId>) {
    && |p| >= 2 && p[0] == p[|p| - 1]
    && forall i :: 0 <= i < |p| - 1 ==> DependsOn(tasks, p[i], p[i + 1])
  }

  /** Every task's id stands in a layer, and nothing else does. */
  ghost predicate ListsTasks(tasks: seq<Task>, layers: seq<seq<TaskId>>) {
    forall id :: Placed(layers, id) <==> exists t <- tasks :: t.id == id
  }

  /** What a task depends on stands in an earlier layer; only in the last one, and only with a cycle, need it not. */
  ghost predicate DependenciesEarlier(tasks: seq<Task>, layers: seq<seq<TaskId>>) {
    forall j, k, a, b :: 0 <= j < |layers| && 0 <= k < |layers| && b in layers[j] && a in layers[k] && DependsOn(tasks, a, b) ==>
      j < k || (k == |layers| - 1 && exists p :: IsCycle(tasks, p))
  }

  lemma {:induction false} FindsFirst(tasks: seq<Task>, id: TaskId, i: nat)
    requires IsFirst(tasks, i) && tasks[i].id == id
    ensures id in Ids(tasks) && FindTask(tasks, id) == tasks[i]
  {
    if i > 0 {
      var rest := tasks[1..];
      assert tasks[0].id != id && tasks[i] == rest[i - 1];
      assert forall j :: 0 <= j < i - 1 ==> rest[j] == tasks[j + 1];
      FindsFirst(rest, id, i - 1);
    }
  }

  lemma {:induction false} FirstOf(tasks: seq<Task>, id: TaskId) returns (i: nat)
    requires id in Ids(tasks)
    ensures IsFirst(tasks, i) && tasks[i].id == id
  {
    if tasks[0].id == id {
      i := 0;
    } else {
      var rest := tasks[1..];
      assert tasks == [tasks[0]] + rest;
      var j := FirstOf(rest, id);
      i := j + 1;
      assert forall k :: 1 <= k <= i ==> tasks[k] == rest[k - 1];
    }
  }

  lemma EdgeIff(tasks: seq<Task>, a: TaskId, b: TaskId)
    ensures DependsOn(tasks, a, b) <==> a in DepGraph(tasks) && b in DepGraph(tasks)[a]
  {
    if i :| IsFirst(tasks, i) && tasks[i].id == a && b in tasks[i].dependsOn && exists t <- tasks :: t.id == b {
      FindsFirst(tasks, a, i);
    }
    if a in DepGraph(tasks) && b in DepGraph(tasks)[a] {
      var i := FirstOf(tasks, a);
      FindsFirst(tasks, a, i);
    }
  }

  lemma TasksAreListed(tasks: seq<Task>, layers: seq<seq<TaskId>>)
    requires Partition(DepGraph(tasks), layers)
    ensures ListsTasks(tasks, layers)
  {
    forall id ensures Placed(layers, id) <==> exists t <- tasks :: t.id == id {
      assert id in Ids(tasks) <==> exists t <- tasks :: t.id == id;
    }
  }

  /** A task that reaches a cycle of the graph shows one of the tasks. */
  lemma GraphCycleIsCycle(tasks: seq<Task>, t: TaskId)
    requires ReachesCycle(DepGraph(tasks), t)
    ensures exists p :: IsCycle(tasks, p)
  {
    var g := DepGraph(tasks);
    var q :| ChainFrom(g, t, q) && OnCycle(g, q[|q| - 1]);
    var p :| CycleAt(g, q[|q| - 1], p);
    forall i | 0 <= i < |p| - 1 ensures DependsOn(tasks, p[i], p[i + 1]) { EdgeIff(tasks, p[i], p[i + 1]); }
    assert IsCycle(tasks, p);
  }

  lemma TasksInOrder(tasks: seq<Task>, layers: seq<seq<TaskId>>)
    requires AtDepth(DepGraph(tasks), layers) && CyclesLast(DepGraph(tasks), layers)
    ensures DependenciesEarlier(tasks, layers)
  {
    var g := DepGraph(tasks);
    forall j, k, a, b | 0 <= j < |layers| && 0 <= k < |layers| && b in layers[j] && a in layers[k] && DependsOn(tasks, a, b)
      ensures j < k || (k == |layers| - 1 && exists p :: IsCycle(tasks, p))
    {
      EdgeIff(tasks, a, b);
      if ReachesCycle(g, a) { GraphCycleIsCycle(tasks, a); } else { DependenciesFirst(g, layers, j, k, a, b); }
    }
  }

  /**
   The layers partition the ids; a task that reaches no cycle sits at the depth of its longest
   dependency chain; the tasks that reach a cycle are exactly the last layer, when there are any.
   */
  method BuildDagLayers(tasks: seq<Task>) returns (layers: seq<seq<TaskId>>)
    ensures Partition(DepGraph(tasks), layers)
    ensures AtDepth(DepGraph(tasks), layers)
    ensures CyclesLast(DepGraph(tasks), layers)
    ensures FellBack(DepGraph(tasks), layers) <==> HasCycle(DepGraph(tasks))
    ensures ListsTasks(tasks, layers) && DependenciesEarlier(tasks, layers)
  {
    var remaining, scheduled := Ids(tasks), {};
    layers := [];
    ghost var g := DepGraph(tasks);
    ghost var fell := false;
    while remaining != {}
      invariant Midway(g, layers, fell, scheduled, remaining)
      decreases remaining
    {
      var layer := ReadyLayer(tasks, remaining, scheduled);
      ReadyIsRound(g, layers, scheduled, remaining);
      if layer == [] {
        EmptyListing(layer, Round(g, |layers|));
        layer := ListSet(remaining);
        fell := true;
      }
      RoundStep(g, layers, layer, fell, scheduled, remaining);
      scheduled, remaining := MarkScheduled(layer, scheduled, remaining);
      layers := layers + [layer];
    }
    DoneIsPartOfGraph(g, |layers|);
    FinishedMeaning(g, layers, fell);
    TasksAreListed(tasks, layers);
    TasksInOrder(tasks, layers);
  }

  /** The loop invariant. */
  ghost predicate Midway(
    g: Graph, layers: seq<seq<TaskId>>, fell: bool, scheduled: set<TaskId>, remaining: set<TaskId>) {
    && remaining == g.Keys - scheduled
    && if fell then remaining == {} && FellBack(g, layers) else ByRounds(g, layers) && scheduled == Done(g, |layers|)
  }

  /** One round of the loop with the layer it chose. */
  lemma RoundStep(
    g: Graph, layers: seq<seq<TaskId>>, layer: seq<TaskId>, fell: bool, scheduled: set<TaskId>, remaining: set<TaskId>)
    requires Midway(g, layers, false, scheduled, remaining)
    requires if fell then Round(g, |layers|) == {} && Lists(layer, remaining) && remaining != {}
             else layer != [] && Lists(layer, Round(g, |layers|))
    ensures Midway(g, layers + [layer], fell, scheduled + Elements(layer), remaining - Elements(layer))
    ensures remaining - Elements(layer) < remaining
  {
    var n := |layers|;
    assert (layers + [layer])[..n] == layers;
    DoneIsPartOfGraph(g, n + 1);
    if fell {
      ListingOfSome(layer, remaining);
      assert Elements(layer) == remaining;
    } else {
      assert Elements(layer) == Round(g, n);
      DoneGrows(g, n);
    }
    assert layer[0] in Elements(layer);
  }

  lemma ReadyIsRound(g: Graph, layers: seq<seq<TaskId>>, scheduled: set<TaskId>, remaining: set<TaskId>)
    requires Midway(g, layers, false, scheduled, remaining)
    ensures ReadyIn(g, remaining, scheduled) == Round(g, |layers|)
  {
  }

  lemma EmptyListing(layer: seq<TaskId>, s: set<TaskId>)
    requires Lists(layer, s) && layer == []
    ensures s == {}
  {
    forall t ensures t !in s { assert t in s ==> t in layer; }
  }

  lemma ListingOfSome(layer: seq<TaskId>, s: set<TaskId>)
    requires Lists(layer, s) && s != {}
    ensures layer != []
  {
    var t :| t in s;
    assert t in layer;
  }

  /** The readiness test of the loop: every dependency is outside the task set or already scheduled. */
  predicate IsReady(tasks: seq<Task>, id: TaskId, scheduled: set<TaskId>)
    requires id in Ids(tasks)
  {
    forall d <- FindTask(tasks, id).dependsOn :: d !in Ids(tasks) || d in scheduled
  }

  lemma ReadyMeans(tasks: seq<Task>, id: TaskId, scheduled: set<TaskId>)
    requires id in Ids(tasks)
    ensures IsReady(tasks, id, scheduled) <==> DepGraph(tasks)[id] <= scheduled
  {
  }

  /** One pass over `remaining`, in the set's unspecified order, keeping the ready tasks. */
  method ReadyLayer(tasks: seq<Task>, remaining: set<TaskId>, scheduled: set<TaskId>) returns (layer: seq<TaskId>)
    requires remaining <= Ids(tasks)
    ensures Lists(layer, ReadyIn(DepGraph(tasks), remaining, scheduled))
  {
    layer := [];
    var todo := remaining;
    while todo != {}
      invariant todo <= remaining
      invariant forall t :: t in layer <==> t in remaining && t !in todo && IsReady(tasks, t, scheduled)
      invariant forall i, j :: 0 <= i < j < |layer| ==> layer[i] != layer[j]
      decreases todo
    {
      var id :| id in todo;
      if IsReady(tasks, id, scheduled) {
        assert id !in layer;
        layer := layer + [id];
      }
      todo := todo - {id};
    }
    forall t | t in remaining ensures t in layer <==> DepGraph(tasks)[t] <= scheduled {
      ReadyMeans(tasks, t, scheduled);
    }
  }

  /** The ids of a set in some order. */
  method ListSet(s: set<TaskId>) returns (list: seq<TaskId>)
    ensures Lists(list, s)
  {
    list := [];
    var todo := s;
    while todo != {}
      invariant todo <= s
      invariant forall t :: t in list <==> t in s - todo
      invariant forall i, j :: 0 <= i < j < |list| ==> list[i] != list[j]
      decreases todo
    {
      var id :| id in todo;
      assert id !in list;
      list := list + [id];
      todo := todo - {id};
    }
  }

  method MarkScheduled(layer: seq<TaskId>, scheduled: set<TaskId>, remaining: set<TaskId>)
    returns (scheduled': set<TaskId>, remaining': set<TaskId>)
    ensures scheduled' == scheduled + Elements(layer) && remaining' == remaining - Elements(layer)
  {
    scheduled', remaining' := scheduled, remaining;
    for i := 0 to |layer|
      invariant scheduled' == scheduled + Elements(layer[..i])
      invariant remaining' == remaining - Elements(layer[..i])
    {
      assert Elements(layer[..i + 1]) == Elements(layer[..i]) + {layer[i]};
      scheduled' := scheduled' + {layer[i]};
      remaining' := remaining' - {layer[i]};
    }
    assert layer[..|layer|] == layer;
  }

  /** No schedule that respects the dependencies places a task earlier than its chain depth. */
  lemma {:induction false} NoScheduleIsEarlier(g: Graph, rank: map<TaskId, nat>, t: TaskId, p: seq<TaskId>)
    requires g.Keys <= rank.Keys
    requires forall u, d :: u in g && d in g[u] ==> rank[d] < rank[u]
    requires ChainFrom(g, t, p)
    ensures rank[t] >= |p| - 1
    decreases |p|
  {
    if |p| > 1 {
      SubChain(g, p, 1, |p|);
      assert p[0 + 1] in g[p[0]];
      NoScheduleIsEarlier(g, rank, p[1], p[1..|p|]);
    }
  }

  /** Hence the schedule is as short as possible: any other places each task at least as late. */
  lemma ScheduleIsShortest(g: Graph, layers: seq<seq<TaskId>>, rank: map<TaskId, nat>, k: nat, t: TaskId)
    requires AtDepth(g, layers) && k < |layers| && t in layers[k] && !ReachesCycle(g, t)
    requires g.Keys <= rank.Keys
    requires forall u, d :: u in g && d in g[u] ==> rank[d] < rank[u]
    ensures k <= rank[t]
  {
    var p :| ChainFrom(g, t, p) && |p| == k + 1;
    NoScheduleIsEarlier(g, rank, t, p);
  }

  /** A dependency that reaches no cycle is in an earlier layer than the task that needs it. */
  lemma DependenciesFirst(g: Graph, layers: seq<seq<TaskId>>, j: nat, k: nat, t: TaskId, d: TaskId)
    requires AtDepth(g, layers) && CyclesLast(g, layers)
    requires j < |layers| && k < |layers| && d in layers[j] && t in layers[k]
    requires t in g && d in g[t] && !ReachesCycle(g, t)
    ensures j < k
  {
    if ReachesCycle(g, d) {
      var q :| ChainFrom(g, d, q) && OnCycle(g, q[|q| - 1]);
      Prepend(g, t, q);
      assert false;
    }
    var p :| ChainFrom(g, d, p) && |p| == j + 1;
    Prepend(g, t, p);
  }

  lemma Prepend(g: Graph, t: TaskId, p: seq<TaskId>)
    requires Chain(g, p) && t in g && p[0] in g[t]
    ensures ChainFrom(g, t, [t] + p) && ([t] + p)[|p|] == p[|p| - 1]
  {
    var q := [t] + p;
    forall i | 0 <= i < |q| - 1 ensures q[i + 1] in g[q[i]] {
      if i > 0 { assert p[(i - 1) + 1] in g[p[i - 1]]; }
    }
  }
}
