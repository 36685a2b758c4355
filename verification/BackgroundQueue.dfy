/**
 `BackgroundTaskQueue` (packages/shared_utils/task_queue.py:52-145) before `stop()`: enqueuers and the
 one background worker interleaved at every `await`.
 */
module BackgroundQueue {
  import opened Options
  import opened Seqs

  /** The worker's point in its loop and the key it has. It holds the lock, broadcasting, while `Claiming`. */
  datatype Worker = Idle | Getting(key: string) | Claiming(key: string) | Running(key: string)

  /**
   `putting` holds the keys listed under the lock whose `_queue.put` has not happened yet;
   `accepted` and `finished` are histories: keys listed, and keys whose process-or-skip ended.
   */
  datatype State = State(
    queue: seq<string>,
    order: seq<string>,
    current: Option<string>,
    worker: Worker,
    putting: seq<string>,
    accepted: seq<string>,
    finished: seq<string>)

  datatype Step = Enqueue(key: string) | Put(i: nat) | Get | Claim | Unlock | Finish

  const INIT := State([], [], None, Idle, [], [], [])

  predicate IsPresent(s: State, key: string) {
    key in s.order || s.current == Some(key)
  }

  predicate Enabled(s: State, step: Step) {
    match step
    case Enqueue(_) => !s.worker.Claiming?
    case Put(i) => i < |s.putting|
    case Get => s.worker == Idle && s.queue != []
    case Claim => s.worker.Getting?
    case Unlock => s.worker.Claiming?
    // processed, failed or skipped by the pre-check: the `finally` block is the same
    case Finish => s.worker.Running?
  }

  /** `list.remove` guarded by `in`, as the source writes it. */
  function Without(s: seq<string>, key: string): (r: seq<string>)
    ensures multiset(r) == multiset(s) - multiset{key}
    ensures s != [] && s[0] == key ==> r == s[1..]
    ensures |r| == |s| - if key in s then 1 else 0
  {
    if s == [] then []
    else if s[0] == key then
      assert s == [key] + s[1..];
      s[1..]
    else
      assert s == [s[0]] + s[1..];
      [s[0]] + Without(s[1..], key)
  }

  function Apply(s: State, step: Step): State
    requires Enabled(s, step)
  {
    match step
    case Enqueue(key) =>
      if IsPresent(s, key) then s
      else s.(order := s.order + [key], putting := s.putting + [key], accepted := s.accepted + [key])
    case Put(i) =>
      s.(queue := s.queue + [s.putting[i]], putting := s.putting[..i] + s.putting[i + 1..])
    case Get => s.(queue := s.queue[1..], worker := Getting(s.queue[0]))
    case Claim =>
      s.(order := Without(s.order, s.worker.key), current := Some(s.worker.key), worker := Claiming(s.worker.key))
    case Unlock => s.(worker := Running(s.worker.key))
    case Finish => s.(current := None, worker := Idle, finished := s.finished + [s.worker.key])
  }

  // ---- Invariant ----

  /** The key taken from the queue and not yet claimed. */
  function Taken(s: State): seq<string> {
    if s.worker.Getting? then [s.worker.key] else []
  }

  function CurrentList(s: State): seq<string> {
    if s.current.Some? then [s.current.value] else []
  }

  ghost function Times(s: seq<string>, key: string): nat {
    multiset(s)[key]
  }

  lemma TimesConcat(a: seq<string>, b: seq<string>, key: string)
    ensures Times(a + b, key) == Times(a, key) + Times(b, key)
    ensures Times([], key) == 0
  {
  }

  lemma TimesOne(x: string, key: string)
    ensures Times([x], key) == if x == key then 1 else 0
  {
  }

  /** The places of one key: displayed at most once, displayed exactly while it is on its way, never lost. */
  ghost predicate KeyAgrees(s: State, key: string) {
    && Times(s.order, key) + Times(CurrentList(s), key) <= 1
    && Times(s.order, key) == Times(s.putting, key) + Times(s.queue, key) + Times(Taken(s), key)
    && Times(s.accepted, key) == Times(s.finished, key) + Times(CurrentList(s), key) + Times(s.order, key)
  }

  ghost predicate Inv(s: State) {
    && (forall key :: KeyAgrees(s, key))
    && |s.accepted| == |s.finished| + |CurrentList(s)| + |s.order|
    && s.current == (if s.worker.Claiming? || s.worker.Running? then Some(s.worker.key) else None)
  }

  lemma EnqueueKeepsKey(s: State, key: string, k: string)
    requires Inv(s) && Enabled(s, Enqueue(key)) && !IsPresent(s, key)
    ensures KeyAgrees(Apply(s, Enqueue(key)), k)
  {
    assert KeyAgrees(s, k);
    TimesOne(key, k);
    TimesConcat(s.order, [key], k);
    TimesConcat(s.putting, [key], k);
    TimesConcat(s.accepted, [key], k);
    if k == key {
      assert Times(s.order, k) == 0;
    }
  }

  lemma PutKeepsKey(s: State, i: nat, k: string)
    requires Inv(s) && Enabled(s, Put(i))
    ensures KeyAgrees(Apply(s, Put(i)), k)
  {
    assert KeyAgrees(s, k);
    TimesRemoved(s.putting, i, k);
    TimesConcat(s.queue, [s.putting[i]], k);
  }

  lemma TimesRemoved(s: seq<string>, i: nat, k: string)
    requires i < |s|
    ensures Times(s, k) == Times(s[..i] + s[i + 1..], k) + Times([s[i]], k)
  {
    var before, x, after := s[..i], s[i], s[i + 1..];
    assert s == before + ([x] + after);
    TimesConcat(before, [x] + after, k);
    TimesConcat([x], after, k);
    TimesConcat(before, after, k);
  }

  lemma GetKeepsKey(s: State, k: string)
    requires Inv(s) && Enabled(s, Get)
    ensures KeyAgrees(Apply(s, Get), k)
  {
    assert KeyAgrees(s, k);
    assert s.queue == [s.queue[0]] + s.queue[1..];
    TimesConcat([s.queue[0]], s.queue[1..], k);
  }

  lemma ClaimKeepsKey(s: State, k: string)
    requires Inv(s) && Enabled(s, Claim)
    ensures KeyAgrees(Apply(s, Claim), k)
  {
    assert KeyAgrees(s, k) && KeyAgrees(s, s.worker.key);
    TimesOne(s.worker.key, k);
    TimesOne(s.worker.key, s.worker.key);
  }

  lemma FinishKeepsKey(s: State, k: string)
    requires Inv(s) && Enabled(s, Finish)
    ensures KeyAgrees(Apply(s, Finish), k)
  {
    assert KeyAgrees(s, k);
    TimesConcat(s.finished, [s.worker.key], k);
  }

  lemma ClaimedIsListed(s: State)
    requires Inv(s) && s.worker.Getting?
    ensures s.worker.key in s.order
  {
    assert KeyAgrees(s, s.worker.key);
    TimesOne(s.worker.key, s.worker.key);
  }

  /** Every step keeps the invariant, and none changes the list that the claiming worker is broadcasting. */
  lemma StepKeepsInv(s: State, step: Step)
    requires Inv(s) && Enabled(s, step)
    ensures Inv(Apply(s, step))
    ensures s.worker.Claiming? ==> Apply(s, step).order == s.order
  {
    var t := Apply(s, step);
    forall k ensures KeyAgrees(t, k) {
      match step
      case Enqueue(key) => if IsPresent(s, key) { assert KeyAgrees(s, k); } else { EnqueueKeepsKey(s, key, k); }
      case Put(i) => PutKeepsKey(s, i, k);
      case Get => GetKeepsKey(s, k);
      case Claim => ClaimKeepsKey(s, k);
      case Unlock => assert KeyAgrees(s, k);
      case Finish => FinishKeepsKey(s, k);
    }
    if step.Claim? {
      ClaimedIsListed(s);
    }
  }

  // ---- Runs ----

  predicate Legal(s: State, run: seq<Step>)
    decreases |run|
  {
    run == [] || (Enabled(s, run[0]) && Legal(Apply(s, run[0]), run[1..]))
  }

  function Run(s: State, run: seq<Step>): State
    requires Legal(s, run)
    decreases |run|
  {
    if run == [] then s else Run(Apply(s, run[0]), run[1..])
  }

  lemma {:induction false} RunKeepsInv(s: State, run: seq<Step>)
    requires Inv(s) && Legal(s, run)
    ensures Inv(Run(s, run))
    decreases |run|
  {
    if run != [] {
      StepKeepsInv(s, run[0]);
      RunKeepsInv(Apply(s, run[0]), run[1..]);
    }
  }

  /**
   In every run each accepted occurrence of a key is finished, or is in exactly one of the order
   list and `current`, where the key stands once.
   */
  lemma Conservation(run: seq<Step>, key: string)
    requires Legal(INIT, run)
    ensures var s := Run(INIT, run);
            && Times(s.accepted, key) == Times(s.finished, key) + Times(s.order, key) + Times(CurrentList(s), key)
            && Times(s.order, key) + Times(CurrentList(s), key) <= 1
            && |s.accepted| == |s.finished| + |s.order| + |CurrentList(s)|
  {
    InitInv();
    RunKeepsInv(INIT, run);
    assert KeyAgrees(Run(INIT, run), key);
  }

  lemma InitInv()
    ensures Inv(INIT)
  {
    assert forall key :: KeyAgrees(INIT, key);
  }

  /** A key that is in the queue or with the worker is always displayed: never in neither list. */
  lemma AlwaysDisplayed(run: seq<Step>, key: string)
    requires Legal(INIT, run)
    requires var s := Run(INIT, run); key in s.putting || key in s.queue || (s.worker != Idle && s.worker.key == key)
    ensures IsPresent(Run(INIT, run), key)
  {
    InitInv();
    RunKeepsInv(INIT, run);
    var s := Run(INIT, run);
    assert KeyAgrees(s, key);
    if s.worker.Getting? { TimesOne(s.worker.key, key); }
  }

  /** An unfinished key never waits for nothing: the worker or a pending `put` can go on. */
  lemma NoDeadlock(run: seq<Step>, key: string) returns (step: Step)
    requires Legal(INIT, run) && IsPresent(Run(INIT, run), key)
    ensures !step.Enqueue? && Enabled(Run(INIT, run), step)
  {
    InitInv();
    RunKeepsInv(INIT, run);
    var s := Run(INIT, run);
    match s.worker {
      case Getting(_) => step := Claim;
      case Claiming(_) => step := Unlock;
      case Running(_) => step := Finish;
      case Idle =>
        if s.queue != [] {
          step := Get;
        } else {
          assert KeyAgrees(s, key);
          assert key in s.order;
          step := Put(0);
        }
    }
  }

  // ---- Every key is finished ----

  /** What the worker still has to do with the key it has. */
  function Left(worker: Worker): nat {
    match worker
    case Idle => 0
    case Getting(_) => 3
    case Claiming(_) => 2
    case Running(_) => 1
  }

  /** Steps to go until all listed keys are finished. */
  function Work(s: State): nat {
    5 * |s.putting| + 4 * |s.queue| + Left(s.worker)
  }

  function NonEnqueues(run: seq<Step>): nat {
    if run == [] then 0 else NonEnqueues(run[1..]) + if run[0].Enqueue? then 0 else 1
  }

  lemma StepTakesWork(s: State, step: Step)
    requires Enabled(s, step)
    ensures var t := Apply(s, step);
            Work(t) + (if step.Enqueue? then 0 else 1) == Work(s) + 5 * (|t.accepted| - |s.accepted|)
  {
  }

  /** Each accepted key takes five steps, whatever the interleaving. */
  lemma {:induction false} FiveStepsPerKey(s: State, run: seq<Step>)
    requires Legal(s, run)
    ensures var t := Run(s, run);
            NonEnqueues(run) + Work(t) == Work(s) + 5 * (|t.accepted| - |s.accepted|)
    decreases |run|
  {
    if run != [] {
      StepTakesWork(s, run[0]);
      FiveStepsPerKey(Apply(s, run[0]), run[1..]);
    }
  }

  /**
   A run that can go on only with another enqueue has finished every accepted key as often as it was
   accepted, after exactly five steps for each. So without further enqueues every run gets there.
   */
  lemma MaximalRunsFinish(run: seq<Step>, key: string)
    requires Legal(INIT, run) && forall step :: Enabled(Run(INIT, run), step) ==> step.Enqueue?
    ensures var s := Run(INIT, run);
            && NonEnqueues(run) == 5 * |s.accepted| && |s.finished| == |s.accepted|
            && Times(s.finished, key) == Times(s.accepted, key)
  {
    var s := Run(INIT, run);
    InitInv();
    RunKeepsInv(INIT, run);
    NothingLeft(s);
    assert KeyAgrees(s, key);
    FiveStepsPerKey(INIT, run);
    TimesConcat([], [], key);
  }

  lemma NothingLeft(s: State)
    requires Inv(s) && forall step :: Enabled(s, step) ==> step.Enqueue?
    ensures Work(s) == 0 && s.order == [] && s.current == None
  {
    assert !Enabled(s, Put(0)) && !Enabled(s, Get) && !Enabled(s, Claim) && !Enabled(s, Unlock) && !Enabled(s, Finish);
    if s.order != [] { ListedIsUnderWay(s); }
  }

  lemma ListedIsUnderWay(s: State)
    requires Inv(s) && s.order != []
    ensures s.putting != [] || s.queue != [] || s.worker.Getting?
  {
    var key := s.order[0];
    assert KeyAgrees(s, key) && key in multiset(s.order);
    TimesConcat([], [], key);
  }

  // ---- First in, first out ----

  /** The displayed order is the order in which the keys will run. */
  ghost predicate Agrees(s: State) {
    s.order == Taken(s) + (s.queue + s.putting)
  }

  /** It is so now and after every step. */
  ghost predicate AgreesThroughout(s: State, run: seq<Step>)
    requires Legal(s, run)
    decreases |run|
  {
    Agrees(s) && (run != [] ==> AgreesThroughout(Apply(s, run[0]), run[1..]))
  }

  /** Of several listed keys the one listed first is put first. */
  predicate PutsInOrder(run: seq<Step>) {
    run == [] || ((run[0].Put? ==> run[0].i == 0) && PutsInOrder(run[1..]))
  }

  ghost predicate InOrder(s: State) {
    Agrees(s) && s.accepted == (s.finished + CurrentList(s)) + s.order
  }

  lemma EnqueueKeepsOrder(s: State, key: string)
    requires InOrder(s) && Enabled(s, Enqueue(key))
    ensures InOrder(Apply(s, Enqueue(key)))
  {
    ConcatAssoc(s.finished + CurrentList(s), s.order, [key]);
    ConcatAssoc(Taken(s), s.queue + s.putting, [key]);
    ConcatAssoc(s.queue, s.putting, [key]);
  }

  lemma PutKeepsOrder(s: State)
    requires InOrder(s) && Enabled(s, Put(0))
    ensures InOrder(Apply(s, Put(0)))
  {
    assert s.putting == [s.putting[0]] + s.putting[1..];
    ConcatAssoc(s.queue, [s.putting[0]], s.putting[1..]);
    assert s.putting[..0] + s.putting[1..] == s.putting[1..];
  }

  lemma GetKeepsOrder(s: State)
    requires InOrder(s) && Enabled(s, Get)
    ensures InOrder(Apply(s, Get))
  {
    assert s.queue == [s.queue[0]] + s.queue[1..];
    ConcatAssoc([s.queue[0]], s.queue[1..], s.putting);
    assert [] + (s.queue + s.putting) == s.queue + s.putting;
  }

  lemma ClaimKeepsOrder(s: State)
    requires Inv(s) && InOrder(s) && Enabled(s, Claim)
    ensures InOrder(Apply(s, Claim))
  {
    var key, rest := s.worker.key, s.queue + s.putting;
    assert s.order == [key] + rest;
    assert ([key] + rest)[1..] == rest;
    assert Without(s.order, key) == rest && [] + rest == rest;
    ConcatAssoc(s.finished, [key], rest);
    assert s.finished + [] == s.finished;
  }

  lemma StepKeepsOrder(s: State, step: Step)
    requires Inv(s) && InOrder(s) && Enabled(s, step) && (step.Put? ==> step.i == 0)
    ensures InOrder(Apply(s, step))
  {
    match step
    case Enqueue(key) => EnqueueKeepsOrder(s, key);
    case Put(i) => PutKeepsOrder(s);
    case Get => GetKeepsOrder(s);
    case Claim => ClaimKeepsOrder(s);
    case Unlock =>
    case Finish => assert (s.finished + [s.worker.key]) + [] == s.finished + [s.worker.key];
  }

  lemma {:induction false} RunKeepsOrder(s: State, run: seq<Step>)
    requires Inv(s) && InOrder(s) && Legal(s, run) && PutsInOrder(run)
    ensures InOrder(Run(s, run)) && AgreesThroughout(s, run)
    decreases |run|
  {
    if run != [] {
      StepKeepsInv(s, run[0]);
      StepKeepsOrder(s, run[0]);
      RunKeepsOrder(Apply(s, run[0]), run[1..]);
    }
  }

  /** The keys of the enqueues that found their key neither displayed as waiting nor as current, in order. */
  function NewKeys(s: State, run: seq<Step>): seq<string>
    requires Legal(s, run)
    decreases |run|
  {
    if run == [] then [] else NewKeyIn(s, run[0]) + NewKeys(Apply(s, run[0]), run[1..])
  }

  function NewKeyIn(s: State, step: Step): seq<string> {
    if step.Enqueue? && step.key !in s.order && s.current != Some(step.key) then [step.key] else []
  }

  lemma StepAccepts(s: State, step: Step)
    requires Enabled(s, step)
    ensures Apply(s, step).accepted == s.accepted + NewKeyIn(s, step)
  {
    assert s.accepted + [] == s.accepted;
  }

  /** What is accepted is what was enqueued while not displayed. */
  lemma {:induction false} AcceptedAreNew(s: State, run: seq<Step>)
    requires Legal(s, run)
    ensures Run(s, run).accepted == s.accepted + NewKeys(s, run)
    decreases |run|
  {
    if run == [] {
      assert s.accepted + [] == s.accepted;
    } else {
      StepAccepts(s, run[0]);
      AcceptedAreNew(Apply(s, run[0]), run[1..]);
      ConcatAssoc(s.accepted, NewKeyIn(s, run[0]), NewKeys(Apply(s, run[0]), run[1..]));
    }
  }

  /** Keys finish in the order in which they were accepted, and the displayed order is the one they will run in. */
  lemma FirstInFirstOut(run: seq<Step>)
    requires Legal(INIT, run) && PutsInOrder(run)
    ensures var s := Run(INIT, run);
            && s.accepted == (s.finished + CurrentList(s)) + s.order
            && s.order == Taken(s) + (s.queue + s.putting)
  {
    InitInv();
    RunKeepsOrder(INIT, run);
  }

  /** A key put before one that was listed earlier is displayed after it and will run before it. */
  lemma LatePutBreaksOrder(s: State, i: nat)
    requires Inv(s) && Agrees(s) && Enabled(s, Put(i)) && i > 0
    ensures !Agrees(Apply(s, Put(i)))
  {
    var t, k := Apply(s, Put(i)), |Taken(s)| + |s.queue|;
    assert s.order[k] == s.putting[0];
    assert (Taken(t) + (t.queue + t.putting))[k] == s.putting[i];
    ListedOnce(s, i);
  }

  lemma ListedOnce(s: State, i: nat)
    requires Inv(s) && 0 < i < |s.putting|
    ensures s.putting[0] != s.putting[i]
  {
    var key := s.putting[0];
    assert KeyAgrees(s, key);
    assert s.putting == [key] + s.putting[1..];
    TimesConcat([key], s.putting[1..], key);
    TimesOne(key, key);
    assert s.putting[i] in s.putting[1..];
  }

  lemma {:induction false} AgreementNeedsOrder(s: State, run: seq<Step>)
    requires Inv(s) && Legal(s, run) && AgreesThroughout(s, run)
    ensures PutsInOrder(run)
    decreases |run|
  {
    if run != [] {
      StepKeepsInv(s, run[0]);
      AgreementNeedsOrder(Apply(s, run[0]), run[1..]);
      if run[0].Put? && run[0].i > 0 { LatePutBreaksOrder(s, run[0].i); }
    }
  }

  /** The displayed order is the run order at every point of a run exactly when the keys are put in the order listed. */
  lemma OrderAgreesIff(run: seq<Step>)
    requires Legal(INIT, run)
    ensures AgreesThroughout(INIT, run) <==> PutsInOrder(run)
  {
    InitInv();
    if PutsInOrder(run) { RunKeepsOrder(INIT, run); }
    if AgreesThroughout(INIT, run) { AgreementNeedsOrder(INIT, run); }
  }

  /**
   The code's own runs: leaving the lock and `put` on an unbounded queue do not suspend, so a listed
   key is put before the next one is listed.
   */
  predicate Prompt(s: State, run: seq<Step>)
    requires Legal(s, run)
    decreases |run|
  {
    run == [] || ((run[0].Enqueue? ==> s.putting == []) && Prompt(Apply(s, run[0]), run[1..]))
  }

  /** In these keys are put in the order listed. */
  lemma {:induction false} PromptPutsInOrder(s: State, run: seq<Step>)
    requires Legal(s, run) && Prompt(s, run) && |s.putting| <= 1
    ensures PutsInOrder(run)
    decreases |run|
  {
    if run != [] { PromptPutsInOrder(Apply(s, run[0]), run[1..]); }
  }

  // ---- The object ----

  /** The source's fields, with the two histories as ghosts; a method is one stretch of code between awaits. */
  class Queue {
    var queue: seq<string>
    var order: seq<string>
    var current: Option<string>
    var worker: Worker
    var putting: seq<string>
    ghost var accepted: seq<string>
    ghost var finished: seq<string>

    ghost function Abs(): State
      reads this
    {
      State(queue, order, current, worker, putting, accepted, finished)
    }

    constructor ()
      ensures Abs() == INIT && Inv(Abs())
    {
      queue, order, current, worker, putting := [], [], None, Idle, [];
      accepted, finished := [], [];
      InitInv();
    }

    /** `enqueue` up to the release of the lock: 0 for a key already present, else its place in the order list. */
    method EnqueueLocked(key: string) returns (position: nat)
      requires Inv(Abs()) && Enabled(Abs(), Enqueue(key))
      modifies this
      ensures Inv(Abs()) && Abs() == Apply(old(Abs()), Enqueue(key))
      ensures position == 0 <==> old(IsPresent(Abs(), key))
      ensures position > 0 ==> position == |order| && order[position - 1] == key
    {
      StepKeepsInv(Abs(), Enqueue(key));
      if key in order || current == Some(key) {
        return 0;
      }
      order := order + [key];
      putting := putting + [key];
      accepted := accepted + [key];
      position := |order|;
    }

    method PutKey(i: nat)
      requires Inv(Abs()) && Enabled(Abs(), Put(i))
      modifies this
      ensures Inv(Abs()) && Abs() == Apply(old(Abs()), Put(i))
    {
      StepKeepsInv(Abs(), Put(i));
      queue := queue + [putting[i]];
      putting := putting[..i] + putting[i + 1..];
    }

    method GetKey() returns (key: string)
      requires Inv(Abs()) && Enabled(Abs(), Get)
      modifies this
      ensures Inv(Abs()) && Abs() == Apply(old(Abs()), Get) && worker == Getting(key)
    {
      StepKeepsInv(Abs(), Get);
      key := queue[0];
      queue := queue[1..];
      worker := Getting(key);
    }

    /** The locked block of `_run` up to its first broadcast. */
    method ClaimKey()
      requires Inv(Abs()) && Enabled(Abs(), Claim)
      modifies this
      ensures Inv(Abs()) && Abs() == Apply(old(Abs()), Claim)
    {
      StepKeepsInv(Abs(), Claim);
      order := Without(order, worker.key);
      current := Some(worker.key);
      worker := Claiming(worker.key);
    }

    method ReleaseLock()
      requires Inv(Abs()) && Enabled(Abs(), Unlock)
      modifies this
      ensures Inv(Abs()) && Abs() == Apply(old(Abs()), Unlock)
    {
      StepKeepsInv(Abs(), Unlock);
      worker := Running(worker.key);
    }

    /** The `finally` block, after the key was processed, failed or was skipped. */
    method FinishKey()
      requires Inv(Abs()) && Enabled(Abs(), Finish)
      modifies this
      ensures Inv(Abs()) && Abs() == Apply(old(Abs()), Finish)
    {
      StepKeepsInv(Abs(), Finish);
      finished := finished + [worker.key];
      current := None;
      worker := Idle;
    }
  }
}
