/**
 `RequestQueue` (packages/shared_utils/task_queue.py:159-258) before `stop()`: submitters, N workers
 and timeouts interleaved at every `await`.

 One `Step` is a stretch of code between two awaits. The class holds the source's fields and has one
 method per step; each method is proved to be `Apply`, and the lemmas speak of all runs of `Apply`.
 */
module RequestQueue {
  import opened Options

  /** Index of a `_PendingRequest` object, in the order in which `submit` listed them. */
  type Handle = nat

  /** What one call of the processing function gives: a result or an exception. */
  datatype Outcome = Value(value: string) | Failure(error: string)

  datatype Future = Unset | Completed(outcome: Outcome) | Cancelled

  /** Where a request is on its way from `submit` to the `finally` of the worker that took it. */
  datatype Stage = Listed | Queued | Taken(w: nat) | Current(w: nat) | Finished

  datatype Waiter = Waiting | Returned(outcome: Outcome) | TimedOut

  /** One call of the processing function, with the payload it was given. */
  datatype Call = Call(payload: string, outcome: Outcome)

  /** `calls` is the history of the calls made for this request. */
  datatype Request = Request(
    id: string, payload: string, stage: Stage, future: Future, waiter: Waiter, calls: seq<Call>)

  /** `Claiming` holds the lock while it broadcasts; `Delivered` is between the call and `finally`. */
  datatype Worker = Idle | Getting(h: Handle) | Claiming(h: Handle) | Running(h: Handle) | Delivered(h: Handle)

  datatype State = State(
    requests: seq<Request>,
    queue: seq<Handle>,
    pendingOrder: seq<string>,
    current: seq<string>,
    lock: Option<nat>,
    workers: seq<Worker>)

  datatype Step =
    | Submit(id: string, payload: string)
    | Put(h: Handle)
    | Get(w: nat)
    | Claim(w: nat)
    | Unlock(w: nat)
    | Process(w: nat, outcome: Outcome)
    | Finish(w: nat)
    | Receive(h: Handle)
    | Timeout(h: Handle)

  function Init(concurrency: nat): State {
    State([], [], [], [], None, seq(concurrency, _ => Idle))
  }

  /** `list.remove` guarded by `in`, as the source writes it. */
  function RemoveFirst(s: seq<string>, x: string): (r: seq<string>)
    ensures multiset(r) == multiset(s) - multiset{x}
  {
    if s == [] then []
    else if s[0] == x then
      assert s == [x] + s[1..];
      s[1..]
    else
      assert s == [s[0]] + s[1..];
      [s[0]] + RemoveFirst(s[1..], x)
  }

  predicate HasRequest(s: State, w: nat) {
    w < |s.workers| && s.workers[w] != Idle && s.workers[w].h < |s.requests|
  }

  predicate Enabled(s: State, step: Step) {
    match step
    case Submit(_, _) => s.lock == None
    case Put(h) => h < |s.requests| && s.requests[h].stage == Listed
    case Get(w) => w < |s.workers| && s.workers[w] == Idle && s.queue != [] && s.queue[0] < |s.requests|
    case Claim(w) => HasRequest(s, w) && s.workers[w].Getting? && s.lock == None
    case Unlock(w) => HasRequest(s, w) && s.workers[w].Claiming?
    case Process(w, _) => HasRequest(s, w) && s.workers[w].Running?
    case Finish(w) => HasRequest(s, w) && s.workers[w].Delivered?
    case Receive(h) => h < |s.requests| && s.requests[h].waiter == Waiting && s.requests[h].future.Completed?
    // `wait_for` starts after the request was put, and a future already done wins over the timeout
    case Timeout(h) => h < |s.requests| && s.requests[h].waiter == Waiting && s.requests[h].stage != Listed
                       && s.requests[h].future == Unset
  }

  function Apply(s: State, step: Step): State
    requires Enabled(s, step)
  {
    match step
    case Submit(id, payload) =>
      s.(requests := s.requests + [Request(id, payload, Listed, Unset, Waiting, [])],
         pendingOrder := s.pendingOrder + [id])
    case Put(h) =>
      s.(requests := s.requests[h := s.requests[h].(stage := Queued)], queue := s.queue + [h])
    case Get(w) =>
      var h := s.queue[0];
      s.(requests := s.requests[h := s.requests[h].(stage := Taken(w))],
         queue := s.queue[1..], workers := s.workers[w := Getting(h)])
    case Claim(w) =>
      var h := s.workers[w].h;
      var r := s.requests[h];
      s.(requests := s.requests[h := r.(stage := Current(w))], lock := Some(w), workers := s.workers[w := Claiming(h)],
         pendingOrder := RemoveFirst(s.pendingOrder, r.id), current := s.current + [r.id])
    case Unlock(w) =>
      s.(lock := None, workers := s.workers[w := Running(s.workers[w].h)])
    case Process(w, outcome) =>
      var h := s.workers[w].h;
      var r := s.requests[h];
      var future := if r.future == Cancelled then Cancelled else Completed(outcome);
      s.(requests := s.requests[h := r.(future := future, calls := r.calls + [Call(r.payload, outcome)])],
         workers := s.workers[w := Delivered(h)])
    case Finish(w) =>
      var h := s.workers[w].h;
      var r := s.requests[h];
      s.(requests := s.requests[h := r.(stage := Finished)], workers := s.workers[w := Idle],
         current := RemoveFirst(s.current, r.id))
    case Receive(h) =>
      var r := s.requests[h];
      s.(requests := s.requests[h := r.(waiter := Returned(r.future.outcome))])
    case Timeout(h) =>
      var r := s.requests[h];
      s.(requests := s.requests[h := r.(waiter := TimedOut, future := Cancelled)])
  }

  // ---- Counting requests by place ----

  datatype Place = Unclaimed | Claimed | Over

  function PlaceOf(r: Request): Place {
    match r.stage
    case Current(_) => Claimed
    case Finished => Over
    case _ => Unclaimed
  }

  ghost function OneIf(b: bool): nat {
    if b then 1 else 0
  }

  /** How many of the first `n` requests carry `id` and are at `place`. */
  ghost function Count(requests: seq<Request>, n: nat, id: string, place: Place): nat
    requires n <= |requests|
  {
    if n == 0 then 0
    else Count(requests, n - 1, id, place) + OneIf(requests[n - 1].id == id && PlaceOf(requests[n - 1]) == place)
  }

  /** How many of the first `n` requests are at `place`. */
  ghost function Total(requests: seq<Request>, n: nat, place: Place): nat
    requires n <= |requests|
  {
    if n == 0 then 0 else Total(requests, n - 1, place) + OneIf(PlaceOf(requests[n - 1]) == place)
  }

  lemma {:induction false} CountsUpdate(a: seq<Request>, b: seq<Request>, n: nat, h: Handle, id: string, place: Place)
    requires n <= |a| == |b| && h < |a| && b == a[h := b[h]]
    ensures Count(b, n, id, place) == Count(a, n, id, place)
              + if h < n then OneIf(b[h].id == id && PlaceOf(b[h]) == place) - OneIf(a[h].id == id && PlaceOf(a[h]) == place) else 0
    ensures Total(b, n, place) == Total(a, n, place)
              + if h < n then OneIf(PlaceOf(b[h]) == place) - OneIf(PlaceOf(a[h]) == place) else 0
  {
    if n > 0 {
      CountsUpdate(a, b, n - 1, h, id, place);
    }
  }

  lemma {:induction false} CountsPrefix(a: seq<Request>, r: Request, n: nat, id: string, place: Place)
    requires n <= |a|
    ensures Count(a + [r], n, id, place) == Count(a, n, id, place)
    ensures Total(a + [r], n, place) == Total(a, n, place)
  {
    if n > 0 {
      CountsPrefix(a, r, n - 1, id, place);
    }
  }

  lemma {:induction false} CountContains(requests: seq<Request>, n: nat, h: Handle)
    requires h < n <= |requests|
    ensures Count(requests, n, requests[h].id, PlaceOf(requests[h])) > 0
    ensures Total(requests, n, PlaceOf(requests[h])) > 0
  {
    if h < n - 1 {
      CountContains(requests, n - 1, h);
    }
  }

  /** Unclaimed, current and finished requests make up all requests. */
  lemma {:induction false} PlacesAddUp(requests: seq<Request>, n: nat)
    requires n <= |requests|
    ensures Total(requests, n, Unclaimed) + Total(requests, n, Claimed) + Total(requests, n, Over) == n
  {
    if n > 0 {
      PlacesAddUp(requests, n - 1);
    }
  }

  ghost function BusyIf(worker: Worker): nat {
    if worker.Claiming? || worker.Running? || worker.Delivered? then 1 else 0
  }

  /** Workers among the first `n` that are between claim and `finally`. */
  ghost function Busy(workers: seq<Worker>, n: nat): nat
    requires n <= |workers|
    ensures Busy(workers, n) <= n
  {
    if n == 0 then 0 else Busy(workers, n - 1) + BusyIf(workers[n - 1])
  }

  lemma {:induction false} BusyUpdate(a: seq<Worker>, b: seq<Worker>, n: nat, w: nat)
    requires n <= |a| == |b| && w < |a| && b == a[w := b[w]]
    ensures Busy(b, n) == Busy(a, n) + if w < n then BusyIf(b[w]) - BusyIf(a[w]) else 0
  {
    if n > 0 {
      BusyUpdate(a, b, n - 1, w);
    }
  }

  // ---- Invariant ----

  /** `list` shows each id as often as it has requests at `place`. */
  ghost predicate Shows(list: seq<string>, requests: seq<Request>, place: Place) {
    && (forall id :: multiset(list)[id] == Count(requests, |requests|, id, place))
    && |list| == Total(requests, |requests|, place)
  }

  /** `_pending_order` shows the requests not yet claimed under the lock, `_current` those claimed and not finished. */
  ghost predicate ListsAgree(s: State) {
    && Shows(s.pendingOrder, s.requests, Unclaimed)
    && Shows(s.current, s.requests, Claimed)
    && |s.current| == Busy(s.workers, |s.workers|)
  }

  ghost predicate QueueAgrees(s: State) {
    && (forall i :: 0 <= i < |s.queue| ==> s.queue[i] < |s.requests| && s.requests[s.queue[i]].stage == Queued)
    && (forall i, j :: 0 <= i < j < |s.queue| ==> s.queue[i] != s.queue[j])
    && (forall h :: 0 <= h < |s.requests| && s.requests[h].stage == Queued ==> h in s.queue)
  }

  /** What a worker's point in the loop says about the request it holds. */
  ghost predicate Holds(worker: Worker, w: nat, r: Request) {
    match worker
    case Idle => false
    case Getting(_) => r.stage == Taken(w)
    case Claiming(_) => r.stage == Current(w) && r.calls == []
    case Running(_) => r.stage == Current(w) && r.calls == []
    case Delivered(_) => r.stage == Current(w) && |r.calls| == 1 && r.future != Unset
  }

  ghost predicate HeldBy(s: State, h: Handle, w: nat) {
    w < |s.workers| && s.workers[w] != Idle && s.workers[w].h == h
  }

  /** A worker and the request it works on name each other. */
  ghost predicate WorkersAgree(s: State) {
    && (forall w :: 0 <= w < |s.workers| && s.workers[w] != Idle ==>
          s.workers[w].h < |s.requests| && Holds(s.workers[w], w, s.requests[s.workers[w].h]))
    && (forall h :: 0 <= h < |s.requests| && (s.requests[h].stage.Taken? || s.requests[h].stage.Current?) ==>
          HeldBy(s, h, s.requests[h].stage.w))
  }

  ghost predicate LockAgrees(s: State) {
    && (forall w :: 0 <= w < |s.workers| ==> (s.workers[w].Claiming? <==> s.lock == Some(w)))
    && (s.lock.Some? ==> s.lock.value < |s.workers|)
  }

  /** Processed at most once; the future is completed only by the request's own call or cancelled by its timeout. */
  ghost predicate FutureAgrees(r: Request) {
    && (PlaceOf(r) == Unclaimed ==> r.calls == [])
    && (r.stage == Finished ==> |r.calls| == 1 && r.future != Unset)
    && |r.calls| <= 1
    && (r.future.Completed? ==> r.calls == [Call(r.payload, r.future.outcome)])
    && (r.future == Cancelled <==> r.waiter == TimedOut)
    && (r.waiter.Returned? ==> r.future == Completed(r.waiter.outcome))
  }

  ghost predicate Inv(s: State) {
    && ListsAgree(s) && QueueAgrees(s) && WorkersAgree(s) && LockAgrees(s)
    && forall h :: 0 <= h < |s.requests| ==> FutureAgrees(s.requests[h])
  }

  lemma InitInv(concurrency: nat)
    ensures Inv(Init(concurrency))
  {
    NoneBusy(Init(concurrency).workers, concurrency);
  }

  lemma {:induction false} NoneBusy(workers: seq<Worker>, n: nat)
    requires n <= |workers| && forall w :: 0 <= w < n ==> workers[w] == Idle
    ensures Busy(workers, n) == 0
  {
    if n > 0 {
      NoneBusy(workers, n - 1);
    }
  }

  /** The list after a request has moved: what it must show. */
  lemma ShowsAfter(list: seq<string>, list': seq<string>, a: seq<Request>, b: seq<Request>, h: Handle, place: Place)
    requires Shows(list, a, place)
    requires h < |a| == |b| && b == a[h := b[h]] && b[h].id == a[h].id
    requires var (was, now) := (PlaceOf(a[h]) == place, PlaceOf(b[h]) == place);
             list' == if was == now then list else if now then list + [b[h].id] else RemoveFirst(list, b[h].id)
    ensures Shows(list', b, place)
    ensures |list'| == |list| + OneIf(PlaceOf(b[h]) == place) - OneIf(PlaceOf(a[h]) == place)
  {
    CountContains(a, |a|, h);
    forall id ensures multiset(list')[id] == Count(b, |b|, id, place) {
      CountsUpdate(a, b, |a|, h, id, place);
    }
    CountsUpdate(a, b, |a|, h, "", place);
    assert |multiset(list')| == |list'|;
  }

  /** A step of worker `w` on request `h` keeps the displayed lists, whatever it does to them in step with the request. */
  lemma WorkerStepKeepsLists(s: State, t: State, w: nat, h: Handle)
    requires Inv(s) && w < |s.workers| == |t.workers| && h < |s.requests| == |t.requests|
    requires t.workers == s.workers[w := t.workers[w]]
    requires t.requests == s.requests[h := t.requests[h]] && t.requests[h].id == s.requests[h].id
    requires var r, r' := s.requests[h], t.requests[h];
             && t.pendingOrder == (if PlaceOf(r) == Unclaimed && PlaceOf(r') != Unclaimed then RemoveFirst(s.pendingOrder, r.id) else s.pendingOrder)
             && (PlaceOf(r) != Unclaimed ==> PlaceOf(r') != Unclaimed)
             && t.current == (if PlaceOf(r) != Claimed && PlaceOf(r') == Claimed then s.current + [r.id]
                              else if PlaceOf(r) == Claimed && PlaceOf(r') != Claimed then RemoveFirst(s.current, r.id)
                              else s.current)
             && BusyIf(t.workers[w]) - BusyIf(s.workers[w]) == OneIf(PlaceOf(r') == Claimed) - OneIf(PlaceOf(r) == Claimed)
    ensures ListsAgree(t)
  {
    ShowsAfter(s.pendingOrder, t.pendingOrder, s.requests, t.requests, h, Unclaimed);
    ShowsAfter(s.current, t.current, s.requests, t.requests, h, Claimed);
    BusyUpdate(s.workers, t.workers, |s.workers|, w);
  }

  lemma SubmitKeepsLists(s: State, id: string, payload: string)
    requires Inv(s) && Enabled(s, Submit(id, payload))
    ensures ListsAgree(Apply(s, Submit(id, payload)))
  {
    var t := Apply(s, Submit(id, payload));
    var r := t.requests[|s.requests|];
    forall i ensures Count(t.requests, |s.requests|, i, Unclaimed) == Count(s.requests, |s.requests|, i, Unclaimed)
      && Count(t.requests, |s.requests|, i, Claimed) == Count(s.requests, |s.requests|, i, Claimed) {
      CountsPrefix(s.requests, r, |s.requests|, i, Unclaimed);
      CountsPrefix(s.requests, r, |s.requests|, i, Claimed);
    }
    CountsPrefix(s.requests, r, |s.requests|, id, Unclaimed);
    CountsPrefix(s.requests, r, |s.requests|, id, Claimed);
  }

  predicate IsWorkerStep(step: Step) {
    step.Get? || step.Claim? || step.Process? || step.Finish?
  }

  lemma WorkerKeepsLists(s: State, step: Step)
    requires Inv(s) && Enabled(s, step) && IsWorkerStep(step)
    ensures ListsAgree(Apply(s, step))
  {
    var t := Apply(s, step);
    WorkerStepKeepsLists(s, t, step.w, if step.Get? then s.queue[0] else s.workers[step.w].h);
  }

  lemma StepKeepsLists(s: State, step: Step)
    requires Inv(s) && Enabled(s, step)
    ensures ListsAgree(Apply(s, step))
  {
    var t := Apply(s, step);
    if IsWorkerStep(step) {
      WorkerKeepsLists(s, step);
    } else {
      match step
      case Submit(id, payload) => SubmitKeepsLists(s, id, payload);
      case Unlock(w) => BusyUpdate(s.workers, t.workers, |s.workers|, w);
      case Put(h) => OtherStepKeepsLists(s, t, h);
      case Receive(h) => OtherStepKeepsLists(s, t, h);
      case Timeout(h) => OtherStepKeepsLists(s, t, h);
    }
  }

  /** A step that leaves the lists, the workers and the request's place. */
  lemma OtherStepKeepsLists(s: State, t: State, h: Handle)
    requires ListsAgree(s) && h < |s.requests| == |t.requests| && t.requests == s.requests[h := t.requests[h]]
    requires t.requests[h].id == s.requests[h].id && PlaceOf(t.requests[h]) == PlaceOf(s.requests[h])
    requires t.pendingOrder == s.pendingOrder && t.current == s.current && t.workers == s.workers
    ensures ListsAgree(t)
  {
    ShowsAfter(s.pendingOrder, t.pendingOrder, s.requests, t.requests, h, Unclaimed);
    ShowsAfter(s.current, t.current, s.requests, t.requests, h, Claimed);
  }

  lemma QueueUntouched(s: State, t: State, h: Handle)
    requires QueueAgrees(s) && t.queue == s.queue
    requires h < |s.requests| == |t.requests| && t.requests == s.requests[h := t.requests[h]]
    requires (s.requests[h].stage != Queued && t.requests[h].stage != Queued) || t.requests[h].stage == s.requests[h].stage
    ensures QueueAgrees(t)
  {
  }

  lemma PutKeepsQueue(s: State, h: Handle)
    requires QueueAgrees(s) && Enabled(s, Put(h))
    ensures QueueAgrees(Apply(s, Put(h)))
  {
    var t := Apply(s, Put(h));
    assert t.queue[|s.queue|] == h;
    forall g | 0 <= g < |t.requests| && t.requests[g].stage == Queued ensures g in t.queue {
      if g != h { assert g in s.queue; }
    }
  }

  lemma GetKeepsQueue(s: State, w: nat)
    requires QueueAgrees(s) && Enabled(s, Get(w))
    ensures QueueAgrees(Apply(s, Get(w)))
  {
    var t := Apply(s, Get(w));
    forall g | 0 <= g < |t.requests| && t.requests[g].stage == Queued ensures g in t.queue {
      var i :| 0 <= i < |s.queue| && s.queue[i] == g;
      assert t.queue[i - 1] == g;
    }
  }

  lemma StepKeepsQueue(s: State, step: Step)
    requires Inv(s) && Enabled(s, step)
    ensures QueueAgrees(Apply(s, step))
  {
    var t := Apply(s, step);
    match step
    case Submit(_, _) =>
    case Put(h) => PutKeepsQueue(s, h);
    case Get(w) => GetKeepsQueue(s, w);
    case Claim(w) => QueueUntouched(s, t, s.workers[w].h);
    case Unlock(_) =>
    case Process(w, _) => QueueUntouched(s, t, s.workers[w].h);
    case Finish(w) => QueueUntouched(s, t, s.workers[w].h);
    case Receive(h) => QueueUntouched(s, t, h);
    case Timeout(h) => QueueUntouched(s, t, h);
  }

  /** A request changes but not which worker has it. */
  lemma WorkersUntouched(s: State, t: State, h: Handle)
    requires WorkersAgree(s) && t.workers == s.workers
    requires h < |s.requests| == |t.requests| && t.requests == s.requests[h := t.requests[h]]
    requires forall w: nat :: HeldBy(s, h, w) ==> Holds(s.workers[w], w, t.requests[h])
    requires (t.requests[h].stage.Taken? || t.requests[h].stage.Current?) ==> t.requests[h].stage == s.requests[h].stage
    ensures WorkersAgree(t)
  {
    forall w | 0 <= w < |t.workers| && t.workers[w] != Idle
      ensures t.workers[w].h < |t.requests| && Holds(t.workers[w], w, t.requests[t.workers[w].h])
    {
      if t.workers[w].h == h { assert HeldBy(s, h, w); }
    }
    forall g | 0 <= g < |t.requests| && (t.requests[g].stage.Taken? || t.requests[g].stage.Current?)
      ensures HeldBy(t, g, t.requests[g].stage.w)
    {
      assert HeldBy(s, g, s.requests[g].stage.w);
    }
  }

  /** Worker `w` takes, advances or lets go of request `h`. */
  lemma WorkerTouched(s: State, t: State, w: nat, h: Handle)
    requires WorkersAgree(s) && w < |s.workers| == |t.workers| && t.workers == s.workers[w := t.workers[w]]
    requires h < |s.requests| == |t.requests| && t.requests == s.requests[h := t.requests[h]]
    requires if s.workers[w] == Idle then s.requests[h].stage == Queued else s.workers[w].h == h
    requires if t.workers[w] == Idle then t.requests[h].stage == Finished
             else t.workers[w].h == h && Holds(t.workers[w], w, t.requests[h])
    ensures WorkersAgree(t)
  {
    forall v | 0 <= v < |t.workers| && t.workers[v] != Idle
      ensures t.workers[v].h < |t.requests| && Holds(t.workers[v], v, t.requests[t.workers[v].h])
    {
      if v != w { assert Holds(s.workers[v], v, s.requests[s.workers[v].h]); }
    }
    forall g | 0 <= g < |t.requests| && (t.requests[g].stage.Taken? || t.requests[g].stage.Current?)
      ensures HeldBy(t, g, t.requests[g].stage.w)
    {
      if g != h { assert HeldBy(s, g, s.requests[g].stage.w); }
    }
  }

  lemma StepKeepsWorkers(s: State, step: Step)
    requires Inv(s) && Enabled(s, step)
    ensures WorkersAgree(Apply(s, step))
  {
    var t := Apply(s, step);
    match step
    case Submit(_, _) => SubmitKeepsWorkers(s, t);
    case Put(h) => WorkersUntouched(s, t, h);
    case Get(w) => WorkerTouched(s, t, w, s.queue[0]);
    case Claim(w) => WorkerTouched(s, t, w, s.workers[w].h);
    case Unlock(w) => WorkerTouched(s, t, w, s.workers[w].h);
    case Process(w, _) => WorkerTouched(s, t, w, s.workers[w].h);
    case Finish(w) => WorkerTouched(s, t, w, s.workers[w].h);
    case Receive(h) => WorkersUntouched(s, t, h);
    case Timeout(h) => WorkersUntouched(s, t, h);
  }

  lemma SubmitKeepsWorkers(s: State, t: State)
    requires WorkersAgree(s) && t.workers == s.workers && |t.requests| == |s.requests| + 1
    requires t.requests[..|s.requests|] == s.requests && t.requests[|s.requests|].stage == Listed
    ensures WorkersAgree(t)
  {
    forall h | 0 <= h < |s.requests| ensures t.requests[h] == s.requests[h] {
      assert t.requests[..|s.requests|][h] == t.requests[h];
    }
  }

  lemma StepKeepsLock(s: State, step: Step)
    requires Inv(s) && Enabled(s, step)
    ensures LockAgrees(Apply(s, step))
  {
  }

  lemma StepKeepsFutures(s: State, step: Step)
    requires Inv(s) && Enabled(s, step)
    ensures forall h :: 0 <= h < |Apply(s, step).requests| ==> FutureAgrees(Apply(s, step).requests[h])
  {
  }

  /** Every step keeps the invariant, and none changes the list that the lock's holder is broadcasting. */
  lemma StepKeepsInv(s: State, step: Step)
    requires Inv(s) && Enabled(s, step)
    ensures Inv(Apply(s, step))
    ensures s.lock.Some? ==> Apply(s, step).pendingOrder == s.pendingOrder
  {
    StepKeepsLists(s, step);
    StepKeepsQueue(s, step);
    StepKeepsWorkers(s, step);
    StepKeepsLock(s, step);
    StepKeepsFutures(s, step);
  }

  // ---- Runs ----

  predicate Legal(s: State, run: seq<Step>)
    decreases |run|
  {
    run == [] || (Enabled(s, run[0]) && Legal(Apply(s, run[0]), run[1..]))
  }

  function Run(s: State, run: seq<Step>): State
    requires Legal(s, run)
    decreases |run|
  {
    if run == [] then s else Run(Apply(s, run[0]), run[1..])
  }

  lemma {:induction false} RunKeepsInv(s: State, run: seq<Step>)
    requires Inv(s) && Legal(s, run)
    ensures Inv(Run(s, run))
    decreases |run|
  {
    if run != [] {
      StepKeepsInv(s, run[0]);
      RunKeepsInv(Apply(s, run[0]), run[1..]);
    }
  }

  lemma {:induction false} RunKeepsWorkerCount(s: State, run: seq<Step>)
    requires Legal(s, run)
    ensures |Run(s, run).workers| == |s.workers|
    decreases |run|
  {
    if run != [] {
      RunKeepsWorkerCount(Apply(s, run[0]), run[1..]);
    }
  }

  /**
   Conservation in every run: the two displayed lists hold every submitted request that is not
   finished, and no more requests are current than there are workers.
   */
  lemma Conservation(concurrency: nat, run: seq<Step>)
    requires Legal(Init(concurrency), run)
    ensures var s := Run(Init(concurrency), run);
            && |s.pendingOrder| + |s.current| == |s.requests| - Total(s.requests, |s.requests|, Over)
            && Shows(s.pendingOrder, s.requests, Unclaimed)
            && Shows(s.current, s.requests, Claimed)
            && |s.current| <= concurrency
  {
    InitInv(concurrency);
    RunKeepsInv(Init(concurrency), run);
    RunKeepsWorkerCount(Init(concurrency), run);
    var s := Run(Init(concurrency), run);
    PlacesAddUp(s.requests, |s.requests|);
  }

  /** In every run a request, timed out or not, is never in two hands and never processed twice. */
  lemma TakenByOneWorker(concurrency: nat, run: seq<Step>, h: Handle, v: nat, w: nat)
    requires Legal(Init(concurrency), run)
    requires var s := Run(Init(concurrency), run); h < |s.requests| && HeldBy(s, h, v) && HeldBy(s, h, w)
    ensures v == w
    ensures var s := Run(Init(concurrency), run);
            && h !in s.queue && |s.requests[h].calls| <= 1
            && (s.requests[h].stage == Taken(w) || s.requests[h].stage == Current(w))
  {
    InitInv(concurrency);
    RunKeepsInv(Init(concurrency), run);
    var s := Run(Init(concurrency), run);
    assert Holds(s.workers[v], v, s.requests[h]) && Holds(s.workers[w], w, s.requests[h]);
  }

  /** What a caller gets back is the outcome of the one call made with its own payload. */
  lemma OwnOutcome(concurrency: nat, run: seq<Step>, h: Handle)
    requires Legal(Init(concurrency), run)
    requires h < |Run(Init(concurrency), run).requests|
    ensures var r := Run(Init(concurrency), run).requests[h];
            && (r.waiter.Returned? ==> r.calls == [Call(r.payload, r.waiter.outcome)])
            && (r.stage == Finished && r.waiter != TimedOut ==>
                  |r.calls| == 1 && r.future == Completed(r.calls[0].outcome))
  {
    InitInv(concurrency);
    RunKeepsInv(Init(concurrency), run);
  }

  lemma FutureStep(s: State, step: Step, h: Handle)
    requires Inv(s) && Enabled(s, step) && h < |s.requests|
    ensures var t := Apply(s, step);
            && h < |t.requests|
            && (s.requests[h].future != Unset ==> t.requests[h].future == s.requests[h].future)
            && t.requests[h].payload == s.requests[h].payload && t.requests[h].id == s.requests[h].id
  {
    if step.Process? {
      var g := s.workers[step.w].h;
      assert Holds(s.workers[step.w], step.w, s.requests[g]) && FutureAgrees(s.requests[g]);
    }
  }

  /** A future that is done stays as it is: it is completed or cancelled at most once. */
  lemma {:induction false} FutureIsFinal(s: State, run: seq<Step>, h: Handle)
    requires Inv(s) && Legal(s, run) && h < |s.requests| && s.requests[h].future != Unset
    ensures h < |Run(s, run).requests| && Run(s, run).requests[h].future == s.requests[h].future
    ensures Run(s, run).requests[h].payload == s.requests[h].payload && Run(s, run).requests[h].id == s.requests[h].id
    decreases |run|
  {
    if run != [] {
      StepKeepsInv(s, run[0]);
      FutureStep(s, run[0], h);
      FutureIsFinal(Apply(s, run[0]), run[1..], h);
    }
  }

  /** A worker's own step: everything but submissions, waiters waking up and timeouts. */
  predicate QueueStep(step: Step) {
    !step.Submit? && !step.Receive? && !step.Timeout?
  }

  /** No request is stranded: while one is unfinished, some worker or pending `put` can go on. */
  lemma NoDeadlock(concurrency: nat, run: seq<Step>, h: Handle) returns (step: Step)
    requires concurrency > 0 && Legal(Init(concurrency), run)
    requires h < |Run(Init(concurrency), run).requests| && Run(Init(concurrency), run).requests[h].stage != Finished
    ensures QueueStep(step) && Enabled(Run(Init(concurrency), run), step)
  {
    InitInv(concurrency);
    RunKeepsInv(Init(concurrency), run);
    RunKeepsWorkerCount(Init(concurrency), run);
    var s := Run(Init(concurrency), run);
    match s.requests[h].stage {
      case Listed => step := Put(h);
      case Queued =>
        assert h in s.queue;
        step := if s.workers[0] == Idle then Get(0) else WorkerStep(s, 0);
      case Taken(w) =>
        assert HeldBy(s, h, w);
        step := WorkerStep(s, w);
      case Current(w) =>
        assert HeldBy(s, h, w);
        step := WorkerStep(s, w);
    }
  }

  /** The step that moves worker `w`, or the one that frees the lock it waits for. */
  function WorkerStep(s: State, w: nat): (step: Step)
    requires w < |s.workers| && s.workers[w] != Idle
  {
    match s.workers[w]
    case Getting(_) => if s.lock == None then Claim(w) else Unlock(s.lock.value)
    case Claiming(_) => Unlock(w)
    case Running(_) => Process(w, Value(""))
    case Delivered(_) => Finish(w)
  }

  // ---- Every request is finished ----

  /** Queue steps a request needs until a worker has claimed it. */
  ghost function StageWork(stage: Stage): nat {
    match stage
    case Listed => 6
    case Queued => 5
    case Taken(_) => 4
    case _ => 0
  }

  /** Queue steps a worker needs for the request it has claimed. */
  ghost function WorkerWork(worker: Worker): nat {
    match worker
    case Claiming(_) => 3
    case Running(_) => 2
    case Delivered(_) => 1
    case _ => 0
  }

  ghost function RequestsWork(requests: seq<Request>, n: nat): nat
    requires n <= |requests|
  {
    if n == 0 then 0 else RequestsWork(requests, n - 1) + StageWork(requests[n - 1].stage)
  }

  ghost function WorkersWork(workers: seq<Worker>, n: nat): nat
    requires n <= |workers|
  {
    if n == 0 then 0 else WorkersWork(workers, n - 1) + WorkerWork(workers[n - 1])
  }

  /** Queue steps to go until all submitted requests are finished. */
  ghost function Work(s: State): nat {
    RequestsWork(s.requests, |s.requests|) + WorkersWork(s.workers, |s.workers|)
  }

  lemma {:induction false} RequestsWorkUpdate(a: seq<Request>, b: seq<Request>, n: nat, h: Handle)
    requires n <= |a| == |b| && h < |a| && b == a[h := b[h]]
    ensures RequestsWork(b, n) == RequestsWork(a, n) + if h < n then StageWork(b[h].stage) - StageWork(a[h].stage) else 0
  {
    if n > 0 { RequestsWorkUpdate(a, b, n - 1, h); }
  }

  lemma {:induction false} RequestsWorkPrefix(a: seq<Request>, r: Request, n: nat)
    requires n <= |a|
    ensures RequestsWork(a + [r], n) == RequestsWork(a, n)
  {
    if n > 0 { RequestsWorkPrefix(a, r, n - 1); }
  }

  lemma {:induction false} WorkersWorkUpdate(a: seq<Worker>, b: seq<Worker>, n: nat, w: nat)
    requires n <= |a| == |b| && w < |a| && b == a[w := b[w]]
    ensures WorkersWork(b, n) == WorkersWork(a, n) + if w < n then WorkerWork(b[w]) - WorkerWork(a[w]) else 0
  {
    if n > 0 { WorkersWorkUpdate(a, b, n - 1, w); }
  }

  /** A step that changes request `h` and worker `w`. */
  lemma WorkChanges(s: State, t: State, h: Handle, w: nat)
    requires h < |s.requests| == |t.requests| && t.requests == s.requests[h := t.requests[h]]
    requires w < |s.workers| == |t.workers| && t.workers == s.workers[w := t.workers[w]]
    ensures Work(t) == Work(s) + StageWork(t.requests[h].stage) - StageWork(s.requests[h].stage)
                       + WorkerWork(t.workers[w]) - WorkerWork(s.workers[w])
  {
    RequestsWorkUpdate(s.requests, t.requests, |s.requests|, h);
    WorkersWorkUpdate(s.workers, t.workers, |s.workers|, w);
  }

  lemma GetTakesWork(s: State, w: nat)
    requires Enabled(s, Get(w)) && s.requests[s.queue[0]].stage == Queued
    ensures Work(Apply(s, Get(w))) == Work(s) - 1
  {
    WorkChanges(s, Apply(s, Get(w)), s.queue[0], w);
  }

  lemma ClaimTakesWork(s: State, w: nat)
    requires Enabled(s, Claim(w)) && Holds(s.workers[w], w, s.requests[s.workers[w].h])
    ensures Work(Apply(s, Claim(w))) == Work(s) - 1
  {
    WorkChanges(s, Apply(s, Claim(w)), s.workers[w].h, w);
  }

  lemma UnlockTakesWork(s: State, w: nat)
    requires Enabled(s, Unlock(w)) && Holds(s.workers[w], w, s.requests[s.workers[w].h])
    ensures Work(Apply(s, Unlock(w))) == Work(s) - 1
  {
    WorkChanges(s, Apply(s, Unlock(w)), s.workers[w].h, w);
  }

  lemma ProcessTakesWork(s: State, w: nat, outcome: Outcome)
    requires Enabled(s, Process(w, outcome)) && Holds(s.workers[w], w, s.requests[s.workers[w].h])
    ensures Work(Apply(s, Process(w, outcome))) == Work(s) - 1
  {
    WorkChanges(s, Apply(s, Process(w, outcome)), s.workers[w].h, w);
  }

  lemma FinishTakesWork(s: State, w: nat)
    requires Enabled(s, Finish(w)) && Holds(s.workers[w], w, s.requests[s.workers[w].h])
    ensures Work(Apply(s, Finish(w))) == Work(s) - 1
  {
    WorkChanges(s, Apply(s, Finish(w)), s.workers[w].h, w);
  }

  lemma WorkerHolds(s: State, w: nat)
    requires Inv(s) && w < |s.workers| && s.workers[w] != Idle
    ensures s.workers[w].h < |s.requests| && Holds(s.workers[w], w, s.requests[s.workers[w].h])
  {
  }

  lemma WorkerStepTakesWork(s: State, step: Step)
    requires Inv(s) && Enabled(s, step) && (IsWorkerStep(step) || step.Unlock?)
    ensures Work(Apply(s, step)) == Work(s) - 1
  {
    if step.Get? {
      GetTakesWork(s, step.w);
    } else {
      WorkerHolds(s, step.w);
      match step
      case Claim(w) => ClaimTakesWork(s, w);
      case Unlock(w) => UnlockTakesWork(s, w);
      case Process(w, outcome) => ProcessTakesWork(s, w, outcome);
      case Finish(w) => FinishTakesWork(s, w);
    }
  }

  lemma StepTakesWork(s: State, step: Step)
    requires Inv(s) && Enabled(s, step)
    ensures Work(Apply(s, step)) == Work(s) + if step.Submit? then 6 else if QueueStep(step) then -1 else 0
  {
    var t := Apply(s, step);
    match step
    case Submit(_, _) => RequestsWorkPrefix(s.requests, t.requests[|s.requests|], |s.requests|);
    case Put(h) => RequestsWorkUpdate(s.requests, t.requests, |s.requests|, h);
    case Receive(h) => RequestsWorkUpdate(s.requests, t.requests, |s.requests|, h);
    case Timeout(h) => RequestsWorkUpdate(s.requests, t.requests, |s.requests|, h);
    case _ => WorkerStepTakesWork(s, step);
  }

  function QueueSteps(run: seq<Step>): nat {
    if run == [] then 0 else QueueSteps(run[1..]) + if QueueStep(run[0]) then 1 else 0
  }

  /** Each submitted request takes six queue steps, whatever the interleaving. */
  lemma {:induction false} SixStepsPerRequest(s: State, run: seq<Step>)
    requires Inv(s) && Legal(s, run)
    ensures QueueSteps(run) + Work(Run(s, run)) == Work(s) + 6 * (|Run(s, run).requests| - |s.requests|)
    decreases |run|
  {
    if run != [] {
      StepKeepsInv(s, run[0]);
      StepTakesWork(s, run[0]);
      SixStepsPerRequest(Apply(s, run[0]), run[1..]);
    }
  }

  lemma {:induction false} IdleWork(n: nat, workers: seq<Worker>)
    requires n <= |workers| && forall w :: 0 <= w < n ==> workers[w] == Idle
    ensures WorkersWork(workers, n) == 0
  {
    if n > 0 { IdleWork(n - 1, workers); }
  }

  lemma {:induction false} FinishedWork(n: nat, requests: seq<Request>)
    requires n <= |requests| && forall h :: 0 <= h < n ==> requests[h].stage == Finished
    ensures RequestsWork(requests, n) == 0
  {
    if n > 0 { FinishedWork(n - 1, requests); }
  }

  /**
   Exactly-once completion: a run that can go on only with another submission has finished every
   request after one call of the processing function, has answered or timed out every waiter, and
   took exactly six queue steps for each request. So without further submissions every run gets there.
   */
  lemma MaximalRunsFinish(concurrency: nat, run: seq<Step>, h: Handle)
    requires concurrency > 0 && Legal(Init(concurrency), run)
    requires forall step :: Enabled(Run(Init(concurrency), run), step) ==> step.Submit?
    requires h < |Run(Init(concurrency), run).requests|
    ensures var s := Run(Init(concurrency), run);
            && s.requests[h].stage == Finished && |s.requests[h].calls| == 1 && s.requests[h].waiter != Waiting
            && QueueSteps(run) == 6 * |s.requests|
  {
    var s := Run(Init(concurrency), run);
    InitInv(concurrency);
    RunKeepsInv(Init(concurrency), run);
    forall g | 0 <= g < |s.requests| ensures s.requests[g].stage == Finished {
      if s.requests[g].stage != Finished { var step := NoDeadlock(concurrency, run, g); }
    }
    AllAnswered(s, h);
    NoneBusyLeft(s);
    FinishedWork(|s.requests|, s.requests);
    IdleWork(|s.workers|, s.workers);
    IdleWork(concurrency, Init(concurrency).workers);
    SixStepsPerRequest(Init(concurrency), run);
  }

  lemma AllAnswered(s: State, h: Handle)
    requires Inv(s) && h < |s.requests| && s.requests[h].stage == Finished
    requires forall step :: Enabled(s, step) ==> step.Submit?
    ensures |s.requests[h].calls| == 1 && s.requests[h].waiter != Waiting
  {
    assert FutureAgrees(s.requests[h]);
    assert !Enabled(s, Receive(h)) && !Enabled(s, Timeout(h));
  }

  lemma WorkerHasRequest(s: State, w: nat)
    requires Inv(s) && w < |s.workers|
    ensures s.workers[w] != Idle ==> s.workers[w].h < |s.requests| && s.requests[s.workers[w].h].stage != Finished
  {
    if s.workers[w] != Idle { assert Holds(s.workers[w], w, s.requests[s.workers[w].h]); }
  }

  lemma NoneBusyLeft(s: State)
    requires Inv(s) && forall step :: Enabled(s, step) ==> step.Submit?
    requires forall h :: 0 <= h < |s.requests| ==> s.requests[h].stage == Finished
    ensures forall w :: 0 <= w < |s.workers| ==> s.workers[w] == Idle
  {
    forall w | 0 <= w < |s.workers| ensures s.workers[w] == Idle {
      WorkerHasRequest(s, w);
    }
  }

  // ---- The object ----

  /** The source's fields; every method is one stretch of code between awaits. */
  class Queue {
    var requests: seq<Request>
    var queue: seq<Handle>
    var pendingOrder: seq<string>
    var current: seq<string>
    var lock: Option<nat>
    var workers: seq<Worker>

    ghost function Abs(): State
      reads this
    {
      State(requests, queue, pendingOrder, current, lock, workers)
    }

    constructor (concurrency: nat)
      ensures Abs() == Init(concurrency) && Inv(Abs())
    {
      requests, queue, pendingOrder, current, lock := [], [], [], [], None;
      workers := seq(concurrency, _ => Idle);
      InitInv(concurrency);
    }

    /** `submit` up to the release of the lock; `position` counts this request among the unfinished ones. */
    method SubmitLocked(id: string, payload: string) returns (h: Handle, position: nat)
      requires Inv(Abs()) && Enabled(Abs(), Submit(id, payload))
      modifies this
      ensures Inv(Abs()) && Abs() == Apply(old(Abs()), Submit(id, payload))
      ensures h == |old(requests)| && position == |requests| - Total(requests, |requests|, Over)
    {
      StepKeepsInv(Abs(), Submit(id, payload));
      h := |requests|;
      requests := requests + [Request(id, payload, Listed, Unset, Waiting, [])];
      pendingOrder := pendingOrder + [id];
      position := |pendingOrder| + |current|;
      PlacesAddUp(requests, |requests|);
    }

    method PutRequest(h: Handle)
      requires Inv(Abs()) && Enabled(Abs(), Put(h))
      modifies this
      ensures Inv(Abs()) && Abs() == Apply(old(Abs()), Put(h))
    {
      StepKeepsInv(Abs(), Put(h));
      requests := requests[h := requests[h].(stage := Queued)];
      queue := queue + [h];
    }

    /** `await self._queue.get()` returning. */
    method GetRequest(w: nat)
      requires Inv(Abs()) && Enabled(Abs(), Get(w))
      modifies this
      ensures Inv(Abs()) && Abs() == Apply(old(Abs()), Get(w))
    {
      StepKeepsInv(Abs(), Get(w));
      var h := queue[0];
      queue := queue[1..];
      requests := requests[h := requests[h].(stage := Taken(w))];
      workers := workers[w := Getting(h)];
    }

    /** The locked block of `_run` up to its first broadcast. */
    method ClaimRequest(w: nat)
      requires Inv(Abs()) && Enabled(Abs(), Claim(w))
      modifies this
      ensures Inv(Abs()) && Abs() == Apply(old(Abs()), Claim(w))
    {
      ghost var t := Apply(Abs(), Claim(w));
      assert Inv(t) by { StepKeepsInv(Abs(), Claim(w)); }
      TakeLock(w, workers[w].h);
      assert Abs() == t;
    }

    method TakeLock(w: nat, h: Handle)
      requires w < |workers| && h < |requests|
      modifies this
      ensures Abs() == old(Abs()).(lock := Some(w),
        pendingOrder := RemoveFirst(old(pendingOrder), old(requests)[h].id), current := old(current) + [old(requests)[h].id],
        requests := old(requests)[h := old(requests)[h].(stage := Current(w))], workers := old(workers)[w := Claiming(h)])
    {
      lock := Some(w);
      pendingOrder := RemoveFirst(pendingOrder, requests[h].id);
      current := current + [requests[h].id];
      requests := requests[h := requests[h].(stage := Current(w))];
      workers := workers[w := Claiming(h)];
    }

    method ReleaseLock(w: nat)
      requires Inv(Abs()) && Enabled(Abs(), Unlock(w))
      modifies this
      ensures Inv(Abs()) && Abs() == Apply(old(Abs()), Unlock(w))
    {
      StepKeepsInv(Abs(), Unlock(w));
      lock := None;
      workers := workers[w := Running(workers[w].h)];
    }

    /** `await self._process_fn(req.payload)` returning or raising, and what is done with the future. */
    method ProcessRequest(w: nat, outcome: Outcome)
      requires Inv(Abs()) && Enabled(Abs(), Process(w, outcome))
      modifies this
      ensures Inv(Abs()) && Abs() == Apply(old(Abs()), Process(w, outcome))
    {
      StepKeepsInv(Abs(), Process(w, outcome));
      var h := workers[w].h;
      var r := requests[h];
      assert Holds(workers[w], w, r) && FutureAgrees(r);
      r := r.(calls := r.calls + [Call(r.payload, outcome)]);
      if outcome.Value? {
        if r.future != Cancelled {
          r := SetFuture(r, outcome);
        }
      } else if r.future == Unset {
        r := SetFuture(r, outcome);
      }
      requests := requests[h := r];
      workers := workers[w := Delivered(h)];
    }

    /** `set_result` and `set_exception` raise on a future that is already done, so the caller must not pass one. */
    static function SetFuture(r: Request, outcome: Outcome): Request
      requires r.future == Unset
    {
      r.(future := Completed(outcome))
    }

    /** The `finally` block. */
    method FinishRequest(w: nat)
      requires Inv(Abs()) && Enabled(Abs(), Finish(w))
      modifies this
      ensures Inv(Abs()) && Abs() == Apply(old(Abs()), Finish(w))
    {
      ghost var t := Apply(Abs(), Finish(w));
      StepKeepsInv(Abs(), Finish(w));
      LeaveCurrent(w, workers[w].h);
      assert Abs() == t;
    }

    method LeaveCurrent(w: nat, h: Handle)
      requires w < |workers| && h < |requests|
      modifies this
      ensures Abs() == old(Abs()).(current := RemoveFirst(old(current), old(requests)[h].id),
        requests := old(requests)[h := old(requests)[h].(stage := Finished)], workers := old(workers)[w := Idle])
    {
      current := RemoveFirst(current, requests[h].id);
      requests := requests[h := requests[h].(stage := Finished)];
      workers := workers[w := Idle];
    }

    method ReceiveOutcome(h: Handle) returns (outcome: Outcome)
      requires Inv(Abs()) && Enabled(Abs(), Receive(h))
      modifies this
      ensures Inv(Abs()) && Abs() == Apply(old(Abs()), Receive(h))
      ensures requests[h].calls == [Call(requests[h].payload, outcome)]
    {
      StepKeepsInv(Abs(), Receive(h));
      outcome := requests[h].future.outcome;
      assert FutureAgrees(requests[h]);
      requests := requests[h := requests[h].(waiter := Returned(outcome))];
    }

    method TimeOut(h: Handle)
      requires Inv(Abs()) && Enabled(Abs(), Timeout(h))
      modifies this
      ensures Inv(Abs()) && Abs() == Apply(old(Abs()), Timeout(h))
    {
      StepKeepsInv(Abs(), Timeout(h));
      requests := requests[h := requests[h].(future := Cancelled, waiter := TimedOut)];
    }
  }
}
