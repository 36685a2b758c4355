/**
 What the runs of the request queue do, told by their steps alone: which requests there are, in what
 order they are taken, which calls are made for them, what the displayed lists show in which order.
 */
module RequestHistory {
  import opened RequestQueue
  import opened Seqs

  // ---- One step ----

  /** What a worker has: its request if it has one. */
  function HandOf(s: State, w: nat): seq<Handle> {
    if w < |s.workers| && s.workers[w] != Idle then [s.workers[w].h] else []
  }

  /** The call that the step makes for the request. */
  function CallIn(s: State, step: Step, h: Handle): seq<Outcome> {
    if step.Process? && HandOf(s, step.w) == [h] then [step.outcome] else []
  }

  function WithPayload(payload: string, outcomes: seq<Outcome>): (calls: seq<Call>)
    ensures |calls| == |outcomes| && forall i :: 0 <= i < |calls| ==> calls[i] == Call(payload, outcomes[i])
  {
    seq(|outcomes|, i requires 0 <= i < |outcomes| => Call(payload, outcomes[i]))
  }

  lemma StepRequest(s: State, step: Step, h: Handle)
    requires Enabled(s, step) && h < |s.requests|
    ensures h < |Apply(s, step).requests|
    ensures var r, r' := s.requests[h], Apply(s, step).requests[h];
            r'.id == r.id && r'.payload == r.payload && r'.calls == r.calls + WithPayload(r.payload, CallIn(s, step, h))
  {
    var r, t := s.requests[h], Apply(s, step);
    if step.Process? {
      ProcessedRequest(s, step.w, step.outcome, h);
    } else {
      assert CallIn(s, step, h) == [] && WithPayload(r.payload, []) == [] && r.calls + [] == r.calls;
      OtherRequest(s, step, h);
    }
  }

  lemma ProcessedRequest(s: State, w: nat, outcome: Outcome, h: Handle)
    requires Enabled(s, Process(w, outcome)) && h < |s.requests|
    ensures h < |Apply(s, Process(w, outcome)).requests|
    ensures var r, r' := s.requests[h], Apply(s, Process(w, outcome)).requests[h];
            && r'.id == r.id && r'.payload == r.payload
            && r'.calls == r.calls + WithPayload(r.payload, CallIn(s, Process(w, outcome), h))
  {
    var r := s.requests[h];
    if s.workers[w].h == h {
      assert WithPayload(r.payload, [outcome]) == [Call(r.payload, outcome)];
    } else {
      assert WithPayload(r.payload, []) == [] && r.calls + [] == r.calls;
    }
  }

  lemma OtherRequest(s: State, step: Step, h: Handle)
    requires Enabled(s, step) && h < |s.requests| && !step.Process?
    ensures h < |Apply(s, step).requests|
    ensures var r, r' := s.requests[h], Apply(s, step).requests[h];
            r'.id == r.id && r'.payload == r.payload && r'.calls == r.calls
  {
  }

  lemma StepNewRequest(s: State, step: Step)
    requires Enabled(s, step)
    ensures var t := Apply(s, step);
            && |t.requests| == |s.requests| + (if step.Submit? then 1 else 0)
            && (step.Submit? ==> var r := t.requests[|s.requests|]; r.id == step.id && r.payload == step.payload && r.calls == [])
  {
  }

  // ---- Requests ----

  /** The ids and payloads submitted, in order. */
  function Submitted(run: seq<Step>): seq<(string, string)> {
    if run == [] then [] else SubmittedIn(run[0]) + Submitted(run[1..])
  }

  function SubmittedIn(step: Step): seq<(string, string)> {
    if step.Submit? then [(step.id, step.payload)] else []
  }

  function Labels(requests: seq<Request>): (r: seq<(string, string)>)
    ensures |r| == |requests| && forall h :: 0 <= h < |r| ==> r[h] == (requests[h].id, requests[h].payload)
  {
    seq(|requests|, h requires 0 <= h < |requests| => (requests[h].id, requests[h].payload))
  }

  lemma StepLabels(s: State, step: Step)
    requires Enabled(s, step)
    ensures Labels(Apply(s, step).requests) == Labels(s.requests) + SubmittedIn(step)
  {
    var t := Apply(s, step);
    StepNewRequest(s, step);
    forall h | 0 <= h < |s.requests| ensures Labels(t.requests)[h] == Labels(s.requests)[h] { StepRequest(s, step, h); }
  }

  /** Requests are what was submitted, and keep their ids and payloads. */
  lemma {:induction false} RequestsAreSubmissions(s: State, run: seq<Step>)
    requires Legal(s, run)
    ensures Labels(Run(s, run).requests) == Labels(s.requests) + Submitted(run)
    decreases |run|
  {
    if run == [] {
      assert Labels(s.requests) + [] == Labels(s.requests);
    } else {
      StepLabels(s, run[0]);
      RequestsAreSubmissions(Apply(s, run[0]), run[1..]);
      ConcatAssoc(Labels(s.requests), SubmittedIn(run[0]), Submitted(run[1..]));
    }
  }

  // ---- First put, first taken ----

  /** The requests put into the queue, in order. */
  function Puts(run: seq<Step>): seq<Handle> {
    if run == [] then [] else PutIn(run[0]) + Puts(run[1..])
  }

  function PutIn(step: Step): seq<Handle> {
    if step.Put? then [step.h] else []
  }

  /** The requests that the workers have right after taking one from the queue, in order. */
  function Takes(s: State, run: seq<Step>): seq<Handle>
    requires Legal(s, run)
    decreases |run|
  {
    if run == [] then [] else TakenIn(Apply(s, run[0]), run[0]) + Takes(Apply(s, run[0]), run[1..])
  }

  /** What the worker has after the step, if that took something from the queue. */
  function TakenIn(after: State, step: Step): seq<Handle> {
    if step.Get? then HandOf(after, step.w) else []
  }

  lemma StepQueue(s: State, step: Step)
    requires Enabled(s, step)
    ensures s.queue + PutIn(step) == TakenIn(Apply(s, step), step) + Apply(s, step).queue
  {
    if step.Get? {
      assert s.queue == [s.queue[0]] + s.queue[1..];
    } else if !step.Put? {
      assert s.queue + [] == s.queue == [] + s.queue;
      StepLeavesQueue(s, step);
    }
  }

  lemma StepLeavesQueue(s: State, step: Step)
    requires Enabled(s, step) && !step.Get? && !step.Put?
    ensures Apply(s, step).queue == s.queue
  {
  }

  lemma {:induction false} TakesFollowPuts(s: State, run: seq<Step>)
    requires Legal(s, run)
    ensures s.queue + Puts(run) == Takes(s, run) + Run(s, run).queue
    decreases |run|
  {
    if run != [] {
      var t := Apply(s, run[0]);
      var put, took := PutIn(run[0]), TakenIn(t, run[0]);
      StepQueue(s, run[0]);
      TakesFollowPuts(t, run[1..]);
      ConcatAssoc(s.queue, put, Puts(run[1..]));
      ConcatAssoc(took, t.queue, Puts(run[1..]));
      ConcatAssoc(took, Takes(t, run[1..]), Run(s, run).queue);
    }
  }

  /**
   In every run the requests put are those taken, in the same order, and then those in the queue: of
   two requests the one put first is taken first.
   */
  lemma FirstPutFirstTaken(concurrency: nat, run: seq<Step>)
    requires Legal(Init(concurrency), run)
    ensures Puts(run) == Takes(Init(concurrency), run) + Run(Init(concurrency), run).queue
  {
    TakesFollowPuts(Init(concurrency), run);
    assert [] + Puts(run) == Puts(run);
  }

  // ---- Calls ----

  /** The outcomes of the calls made for the request, by whichever worker had it. */
  function Outcomes(s: State, run: seq<Step>, h: Handle): seq<Outcome>
    requires Legal(s, run)
    decreases |run|
  {
    if run == [] then [] else CallIn(s, run[0], h) + Outcomes(Apply(s, run[0]), run[1..], h)
  }

  lemma WithPayloadConcat(payload: string, a: seq<Outcome>, b: seq<Outcome>)
    ensures WithPayload(payload, a + b) == WithPayload(payload, a) + WithPayload(payload, b)
  {
  }

  lemma {:induction false} CallsAreProcessed(s: State, run: seq<Step>, h: Handle)
    requires Legal(s, run) && h < |s.requests|
    ensures h < |Run(s, run).requests|
    ensures var r, r' := s.requests[h], Run(s, run).requests[h];
            r'.id == r.id && r'.payload == r.payload && r'.calls == r.calls + WithPayload(r.payload, Outcomes(s, run, h))
    decreases |run|
  {
    var r := s.requests[h];
    if run == [] {
      assert WithPayload(r.payload, []) == [] && r.calls + [] == r.calls;
    } else {
      var t := Apply(s, run[0]);
      var made, more := CallIn(s, run[0], h), Outcomes(t, run[1..], h);
      StepRequest(s, run[0], h);
      CallsAreProcessed(t, run[1..], h);
      WithPayloadConcat(r.payload, made, more);
      ConcatAssoc(r.calls, WithPayload(r.payload, made), WithPayload(r.payload, more));
    }
  }

  /** No call is made before the request is there. */
  lemma {:induction false} NewRequestCalls(s: State, run: seq<Step>, h: Handle)
    requires Inv(s) && Legal(s, run) && |s.requests| <= h < |Run(s, run).requests|
    ensures var r := Run(s, run).requests[h]; r.calls == WithPayload(r.payload, Outcomes(s, run, h))
    decreases |run|
  {
    var t := Apply(s, run[0]);
    StepKeepsInv(s, run[0]);
    StepNewRequest(s, run[0]);
    NoCallYet(s, run[0], h);
    assert [] + Outcomes(t, run[1..], h) == Outcomes(t, run[1..], h);
    if h < |t.requests| {
      CallsAreProcessed(t, run[1..], h);
      var r := Run(s, run).requests[h];
      assert [] + WithPayload(r.payload, Outcomes(t, run[1..], h)) == WithPayload(r.payload, Outcomes(t, run[1..], h));
    } else {
      NewRequestCalls(t, run[1..], h);
    }
  }

  lemma NoCallYet(s: State, step: Step, h: Handle)
    requires Inv(s) && Enabled(s, step) && h >= |s.requests|
    ensures CallIn(s, step, h) == []
  {
  }

  /**
   The calls for a request are the ones its worker made, each with the payload submitted for it; what
   its caller gets back is the outcome of the one call.
   */
  lemma AnswerIsTheCalls(concurrency: nat, run: seq<Step>, h: Handle)
    requires Legal(Init(concurrency), run) && h < |Run(Init(concurrency), run).requests|
    ensures var r := Run(Init(concurrency), run).requests[h];
            var outcomes := Outcomes(Init(concurrency), run, h);
            && h < |Submitted(run)| && Submitted(run)[h] == (r.id, r.payload)
            && r.calls == WithPayload(Submitted(run)[h].1, outcomes)
            && (r.waiter.Returned? ==> outcomes == [r.waiter.outcome])
            && (r.stage == Finished ==> |outcomes| == 1 && (r.waiter != TimedOut ==> r.future == Completed(outcomes[0])))
  {
    var s := Run(Init(concurrency), run);
    InitInv(concurrency);
    RunKeepsInv(Init(concurrency), run);
    LabelOf(concurrency, run, h);
    NewRequestCalls(Init(concurrency), run, h);
    OneAnswer(s.requests[h], Outcomes(Init(concurrency), run, h));
  }

  lemma LabelOf(concurrency: nat, run: seq<Step>, h: Handle)
    requires Legal(Init(concurrency), run) && h < |Run(Init(concurrency), run).requests|
    ensures var r := Run(Init(concurrency), run).requests[h];
            h < |Submitted(run)| && Submitted(run)[h] == (r.id, r.payload)
  {
    var requests := Run(Init(concurrency), run).requests;
    RequestsAreSubmissions(Init(concurrency), run);
    assert Labels([]) == [] && [] + Submitted(run) == Submitted(run);
    assert Labels(requests)[h] == (requests[h].id, requests[h].payload);
  }

  lemma OneAnswer(r: Request, outcomes: seq<Outcome>)
    requires FutureAgrees(r) && r.calls == WithPayload(r.payload, outcomes)
    ensures r.waiter.Returned? ==> outcomes == [r.waiter.outcome]
    ensures r.stage == Finished ==> |outcomes| == 1 && (r.waiter != TimedOut ==> r.future == Completed(outcomes[0]))
  {
    if |outcomes| == 1 { assert r.calls[0] == Call(r.payload, outcomes[0]); }
  }

  // ---- How a waiter ends ----

  lemma StepWaiter(s: State, step: Step, h: Handle)
    requires Inv(s) && Enabled(s, step) && h < |s.requests|
    ensures var a, b := s.requests[h].waiter, Apply(s, step).requests[h].waiter;
            && (b == TimedOut <==> a == TimedOut || step == Timeout(h))
            && (b.Returned? <==> a.Returned? || step == Receive(h))
  {
  }

  /** The waiter of a request, before and after it is submitted. */
  function WaiterOf(s: State, h: Handle): Waiter {
    if h < |s.requests| then s.requests[h].waiter else Waiting
  }

  lemma StepTold(s: State, step: Step, h: Handle)
    requires Inv(s) && Enabled(s, step)
    ensures var a, b := WaiterOf(s, h), WaiterOf(Apply(s, step), h);
            && (b == TimedOut <==> a == TimedOut || step == Timeout(h))
            && (b.Returned? <==> a.Returned? || step == Receive(h))
  {
    if h < |s.requests| { StepWaiter(s, step, h); } else { NewWaiter(s, step, h); }
  }

  lemma {:induction false} WaiterTold(s: State, run: seq<Step>, h: Handle)
    requires Inv(s) && Legal(s, run)
    ensures var a, b := WaiterOf(s, h), WaiterOf(Run(s, run), h);
            && (b == TimedOut <==> a == TimedOut || Timeout(h) in run)
            && (b.Returned? <==> a.Returned? || Receive(h) in run)
    decreases |run|
  {
    if run != [] {
      var step := run[0];
      StepKeepsInv(s, step);
      StepTold(s, step, h);
      WaiterTold(Apply(s, step), run[1..], h);
      assert run == [step] + run[1..];
    }
  }

  lemma NewWaiter(s: State, step: Step, h: Handle)
    requires Enabled(s, step) && h >= |s.requests|
    ensures step != Timeout(h) && step != Receive(h)
    ensures h < |Apply(s, step).requests| ==> Apply(s, step).requests[h].waiter == Waiting
  {
  }

  /** In every run a waiter got its outcome exactly if it resumed with it, and timed out exactly if its timer fired. */
  lemma WaitersEnd(concurrency: nat, run: seq<Step>, h: Handle)
    requires Legal(Init(concurrency), run) && h < |Run(Init(concurrency), run).requests|
    ensures var r := Run(Init(concurrency), run).requests[h];
            && (r.waiter.Returned? <==> Receive(h) in run)
            && (r.waiter == TimedOut <==> Timeout(h) in run)
            && (r.future == Cancelled <==> Timeout(h) in run)
  {
    InitInv(concurrency);
    RunKeepsInv(Init(concurrency), run);
    WaiterTold(Init(concurrency), run, h);
    assert FutureAgrees(Run(Init(concurrency), run).requests[h]);
  }

  // ---- The displayed lists in order ----

  /** The ids of those of the requests `hs` that are at the place, in this order. */
  function IdsAt(requests: seq<Request>, hs: seq<Handle>, place: Place): seq<string>
    requires forall i :: 0 <= i < |hs| ==> hs[i] < |requests|
  {
    if hs == [] then []
    else
      var last := requests[hs[|hs| - 1]];
      IdsAt(requests, hs[..|hs| - 1], place) + if PlaceOf(last) == place then [last.id] else []
  }

  ghost predicate AreHandles(requests: seq<Request>, hs: seq<Handle>) {
    && (forall i :: 0 <= i < |hs| ==> hs[i] < |requests|)
    && (forall i, j :: 0 <= i < j < |hs| ==> hs[i] != hs[j])
  }

  ghost predicate DistinctIds(requests: seq<Request>) {
    forall g, h :: 0 <= g < h < |requests| ==> requests[g].id != requests[h].id
  }

  lemma HandlesInit(requests: seq<Request>, hs: seq<Handle>)
    requires AreHandles(requests, hs) && hs != []
    ensures AreHandles(requests, hs[..|hs| - 1]) && hs[|hs| - 1] !in hs[..|hs| - 1]
  {
  }

  lemma {:induction false} IdNotThere(requests: seq<Request>, hs: seq<Handle>, place: Place, h: Handle)
    requires AreHandles(requests, hs) && DistinctIds(requests) && h < |requests| && h !in hs
    ensures requests[h].id !in IdsAt(requests, hs, place)
  {
    if hs != [] {
      HandlesInit(requests, hs);
      IdNotThere(requests, hs[..|hs| - 1], place, h);
    }
  }

  lemma {:induction false} RemoveLast(s: seq<string>, x: string)
    requires x !in s
    ensures RemoveFirst(s + [x], x) == s
  {
    if s == [] {
      assert s + [x] == [x] && [x][1..] == [];
    } else {
      var longer := s + [x];
      assert longer[1..] == s[1..] + [x] && longer[0] == s[0] != x;
      RemoveLast(s[1..], x);
      assert s == [s[0]] + s[1..];
    }
  }

  lemma {:induction false} RemoveBefore(s: seq<string>, y: string, x: string)
    requires x != y
    ensures RemoveFirst(s + [y], x) == RemoveFirst(s, x) + [y]
  {
    if s != [] {
      assert (s + [y])[1..] == s[1..] + [y];
      RemoveBefore(s[1..], y, x);
    } else {
      assert s + [y] == [y] && [y][1..] == [] && RemoveFirst([y], x) == [y] + [];
    }
  }

  lemma {:induction false} IdsUntouched(a: seq<Request>, b: seq<Request>, hs: seq<Handle>, place: Place)
    requires AreHandles(a, hs) && |a| <= |b|
    requires forall i :: 0 <= i < |hs| ==> b[hs[i]].id == a[hs[i]].id && (PlaceOf(b[hs[i]]) == place <==> PlaceOf(a[hs[i]]) == place)
    ensures IdsAt(b, hs, place) == IdsAt(a, hs, place)
  {
    if hs != [] { IdsUntouched(a, b, hs[..|hs| - 1], place); }
  }

  /** A request leaves the place: its id goes, the others keep their order. */
  lemma {:induction false} IdsWithout(a: seq<Request>, b: seq<Request>, hs: seq<Handle>, place: Place, h: Handle)
    requires AreHandles(a, hs) && DistinctIds(a) && h in hs && |a| == |b| && b == a[h := b[h]]
    requires b[h].id == a[h].id && PlaceOf(a[h]) == place && PlaceOf(b[h]) != place
    ensures IdsAt(b, hs, place) == RemoveFirst(IdsAt(a, hs, place), a[h].id)
  {
    var before, last := hs[..|hs| - 1], hs[|hs| - 1];
    HandlesInit(a, hs);
    assert hs == before + [last];
    if last == h {
      IdNotThere(a, before, place, h);
      IdsUntouched(a, b, before, place);
      RemoveLast(IdsAt(a, before, place), a[h].id);
    } else {
      IdsWithout(a, b, before, place, h);
      OtherId(a, last, h);
      WithoutThenLast(a, b, before, hs, place, a[h].id);
    }
  }

  lemma OtherId(requests: seq<Request>, g: Handle, h: Handle)
    requires DistinctIds(requests) && g != h && g < |requests| && h < |requests|
    ensures requests[g].id != requests[h].id
  {
  }

  lemma WithoutThenLast(a: seq<Request>, b: seq<Request>, before: seq<Handle>, hs: seq<Handle>, place: Place, id: string)
    requires hs != [] && before == hs[..|hs| - 1] && |a| == |b| && forall i :: 0 <= i < |hs| ==> hs[i] < |a|
    requires b[hs[|hs| - 1]] == a[hs[|hs| - 1]] && a[hs[|hs| - 1]].id != id
    requires IdsAt(b, before, place) == RemoveFirst(IdsAt(a, before, place), id)
    ensures IdsAt(b, hs, place) == RemoveFirst(IdsAt(a, hs, place), id)
  {
    var last := a[hs[|hs| - 1]];
    if PlaceOf(last) == place {
      RemoveBefore(IdsAt(a, before, place), last.id, id);
    } else {
      assert IdsAt(a, before, place) + [] == IdsAt(a, before, place);
    }
  }

  function UpTo(n: nat): (hs: seq<Handle>)
    ensures |hs| == n && forall i :: 0 <= i < n ==> hs[i] == i
  {
    seq(n, i => i)
  }

  /** The requests claimed, in the order in which the lock was taken for them. */
  function Claims(s: State, run: seq<Step>): seq<Handle>
    requires Legal(s, run)
    decreases |run|
  {
    if run == [] then [] else ClaimIn(s, run[0]) + Claims(Apply(s, run[0]), run[1..])
  }

  function ClaimIn(s: State, step: Step): seq<Handle> {
    if step.Claim? then HandOf(s, step.w) else []
  }

  /** The requests claimed so far, none twice. */
  ghost predicate AreClaims(s: State, claims: seq<Handle>) {
    && AreHandles(s.requests, claims)
    && (forall h :: 0 <= h < |s.requests| ==> (h in claims <==> PlaceOf(s.requests[h]) != Unclaimed))
  }

  /** The lists show the requests not claimed in the order submitted, and those claimed and unfinished in the order claimed. */
  ghost predicate ShowsInOrder(s: State, claims: seq<Handle>) {
    && AreClaims(s, claims)
    && s.pendingOrder == IdsAt(s.requests, UpTo(|s.requests|), Unclaimed)
    && s.current == IdsAt(s.requests, claims, Claimed)
  }

  lemma HandlesUpTo(requests: seq<Request>)
    ensures AreHandles(requests, UpTo(|requests|))
  {
  }

  /** A step that leaves every request at its place and the lists as they are. */
  lemma PlacesStay(s: State, t: State, h: Handle, claims: seq<Handle>)
    requires ShowsInOrder(s, claims) && t.pendingOrder == s.pendingOrder && t.current == s.current
    requires h < |s.requests| == |t.requests| && t.requests == s.requests[h := t.requests[h]]
    requires t.requests[h].id == s.requests[h].id && PlaceOf(t.requests[h]) == PlaceOf(s.requests[h])
    ensures ShowsInOrder(t, claims)
  {
    HandlesUpTo(s.requests);
    IdsUntouched(s.requests, t.requests, UpTo(|s.requests|), Unclaimed);
    IdsUntouched(s.requests, t.requests, claims, Claimed);
  }

  lemma OneMore(n: nat)
    ensures UpTo(n + 1)[..n] == UpTo(n)
  {
  }

  lemma SubmitShows(s: State, t: State, r: Request, claims: seq<Handle>)
    requires ShowsInOrder(s, claims) && t.requests == s.requests + [r] && PlaceOf(r) == Unclaimed
    requires t.pendingOrder == s.pendingOrder + [r.id] && t.current == s.current
    ensures ShowsInOrder(t, claims)
  {
    HandlesUpTo(s.requests);
    OneMore(|s.requests|);
    IdsUntouched(s.requests, t.requests, UpTo(|s.requests|), Unclaimed);
    IdsUntouched(s.requests, t.requests, claims, Claimed);
  }

  lemma IdsSnoc(requests: seq<Request>, hs: seq<Handle>, h: Handle, place: Place)
    requires h < |requests| && PlaceOf(requests[h]) == place && forall i :: 0 <= i < |hs| ==> hs[i] < |requests|
    ensures IdsAt(requests, hs + [h], place) == IdsAt(requests, hs, place) + [requests[h].id]
  {
    assert (hs + [h])[..|hs|] == hs;
  }

  lemma ClaimsGrow(s: State, t: State, h: Handle, claims: seq<Handle>)
    requires AreClaims(s, claims)
    requires h < |s.requests| == |t.requests| && t.requests == s.requests[h := t.requests[h]]
    requires PlaceOf(s.requests[h]) == Unclaimed && PlaceOf(t.requests[h]) == Claimed
    ensures AreClaims(t, claims + [h])
  {
    assert h !in claims;
    forall g | 0 <= g < |t.requests| ensures g in claims + [h] <==> PlaceOf(t.requests[g]) != Unclaimed {
      assert g in claims + [h] <==> g in claims || g == h;
    }
  }

  lemma ClaimedIds(a: seq<Request>, b: seq<Request>, h: Handle, claims: seq<Handle>)
    requires AreHandles(a, claims) && h !in claims
    requires h < |a| == |b| && b == a[h := b[h]] && PlaceOf(b[h]) == Claimed
    ensures IdsAt(b, claims + [h], Claimed) == IdsAt(a, claims, Claimed) + [b[h].id]
  {
    IdsUntouched(a, b, claims, Claimed);
    IdsSnoc(b, claims, h, Claimed);
  }

  lemma ClaimShows(s: State, t: State, h: Handle, claims: seq<Handle>)
    requires ShowsInOrder(s, claims) && DistinctIds(s.requests)
    requires h < |s.requests| == |t.requests| && t.requests == s.requests[h := t.requests[h]]
    requires t.requests[h].id == s.requests[h].id && PlaceOf(s.requests[h]) == Unclaimed && PlaceOf(t.requests[h]) == Claimed
    requires t.pendingOrder == RemoveFirst(s.pendingOrder, s.requests[h].id) && t.current == s.current + [s.requests[h].id]
    ensures ShowsInOrder(t, claims + [h])
  {
    HandlesUpTo(s.requests);
    assert UpTo(|s.requests|)[h] == h;
    IdsWithout(s.requests, t.requests, UpTo(|s.requests|), Unclaimed, h);
    ClaimsGrow(s, t, h, claims);
    ClaimedIds(s.requests, t.requests, h, claims);
  }

  lemma FinishShows(s: State, t: State, h: Handle, claims: seq<Handle>)
    requires ShowsInOrder(s, claims) && DistinctIds(s.requests)
    requires h < |s.requests| == |t.requests| && t.requests == s.requests[h := t.requests[h]]
    requires t.requests[h].id == s.requests[h].id && PlaceOf(s.requests[h]) == Claimed && PlaceOf(t.requests[h]) == Over
    requires t.pendingOrder == s.pendingOrder && t.current == RemoveFirst(s.current, s.requests[h].id)
    ensures ShowsInOrder(t, claims)
  {
    HandlesUpTo(s.requests);
    IdsUntouched(s.requests, t.requests, UpTo(|s.requests|), Unclaimed);
    IdsWithout(s.requests, t.requests, claims, Claimed, h);
  }

  lemma ClaimStepShows(s: State, w: nat, claims: seq<Handle>)
    requires Inv(s) && Enabled(s, Claim(w)) && ShowsInOrder(s, claims) && DistinctIds(s.requests)
    ensures ShowsInOrder(Apply(s, Claim(w)), claims + ClaimIn(s, Claim(w)))
  {
    WorkerHolds(s, w);
    ClaimShows(s, Apply(s, Claim(w)), s.workers[w].h, claims);
  }

  lemma FinishStepShows(s: State, w: nat, claims: seq<Handle>)
    requires Inv(s) && Enabled(s, Finish(w)) && ShowsInOrder(s, claims) && DistinctIds(s.requests)
    ensures ShowsInOrder(Apply(s, Finish(w)), claims)
  {
    WorkerHolds(s, w);
    FinishShows(s, Apply(s, Finish(w)), s.workers[w].h, claims);
  }

  lemma OtherStepShows(s: State, step: Step, claims: seq<Handle>)
    requires Inv(s) && Enabled(s, step) && ShowsInOrder(s, claims) && !step.Claim? && !step.Finish?
    ensures ShowsInOrder(Apply(s, step), claims)
  {
    var t := Apply(s, step);
    match step
    case Submit(id, payload) => SubmitShows(s, t, t.requests[|s.requests|], claims);
    case Put(h) => PlacesStay(s, t, h, claims);
    case Get(w) => PlacesStay(s, t, s.queue[0], claims);
    case Unlock(w) =>
    case Process(w, _) => PlacesStay(s, t, s.workers[w].h, claims);
    case Receive(h) => PlacesStay(s, t, h, claims);
    case Timeout(h) => PlacesStay(s, t, h, claims);
  }

  lemma StepShows(s: State, step: Step, claims: seq<Handle>)
    requires Inv(s) && Enabled(s, step) && ShowsInOrder(s, claims) && DistinctIds(s.requests)
    ensures ShowsInOrder(Apply(s, step), claims + ClaimIn(s, step))
  {
    if step.Claim? {
      ClaimStepShows(s, step.w, claims);
    } else {
      assert claims + ClaimIn(s, step) == claims;
      if step.Finish? { FinishStepShows(s, step.w, claims); } else { OtherStepShows(s, step, claims); }
    }
  }

  /** Distinct ids were distinct before. */
  lemma DistinctBefore(s: State, run: seq<Step>)
    requires Legal(s, run) && DistinctIds(Run(s, run).requests)
    ensures DistinctIds(s.requests)
  {
    forall g, h | 0 <= g < h < |s.requests| ensures s.requests[g].id != s.requests[h].id {
      CallsAreProcessed(s, run, g);
      CallsAreProcessed(s, run, h);
    }
  }

  lemma {:induction false} RunShows(s: State, run: seq<Step>, claims: seq<Handle>)
    requires Inv(s) && Legal(s, run) && ShowsInOrder(s, claims) && DistinctIds(Run(s, run).requests)
    ensures ShowsInOrder(Run(s, run), claims + Claims(s, run))
    decreases |run|
  {
    if run == [] {
      assert claims + [] == claims;
    } else {
      DistinctBefore(s, run);
      StepKeepsInv(s, run[0]);
      StepShows(s, run[0], claims);
      RunShows(Apply(s, run[0]), run[1..], claims + ClaimIn(s, run[0]));
      ConcatAssoc(claims, ClaimIn(s, run[0]), Claims(Apply(s, run[0]), run[1..]));
    }
  }

  /**
   In every run with distinct ids the pending list shows the unclaimed requests in the order
   submitted, and the current list the requests claimed and not finished in the order claimed.
   */
  lemma ListsInOrder(concurrency: nat, run: seq<Step>)
    requires Legal(Init(concurrency), run) && DistinctIds(Run(Init(concurrency), run).requests)
    ensures var s := Run(Init(concurrency), run);
            && s.pendingOrder == IdsAt(s.requests, UpTo(|s.requests|), Unclaimed)
            && AreClaims(s, Claims(Init(concurrency), run))
            && s.current == IdsAt(s.requests, Claims(Init(concurrency), run), Claimed)
  {
    InitInv(concurrency);
    RunShows(Init(concurrency), run, []);
    assert [] + Claims(Init(concurrency), run) == Claims(Init(concurrency), run);
  }
}
