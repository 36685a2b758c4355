/**
 `SSEBroadcaster` (packages/shared_utils/task_queue.py:25-47): bounded subscriber queues, and a
 broadcast that drops the subscribers whose queue is full.
 */
module Broadcaster {
  import opened Seqs

  type QueueId = nat

  const MAXSIZE := 100

  /**
   `queues` are the `asyncio.Queue` objects handed out, `subscribers` those still registered.
   Histories: `log` is what was broadcast, `read` what each queue's client has taken out, and
   `since` and `until` delimit the broadcasts during which the queue was registered.
   */
  datatype State = State(
    queues: seq<seq<string>>,
    subscribers: set<QueueId>,
    log: seq<string>,
    read: seq<seq<string>>,
    since: seq<nat>,
    until: seq<nat>)

  datatype Step = Subscribe | Unsubscribe(q: QueueId) | Broadcast(data: string) | Read(q: QueueId)

  const INIT := State([], {}, [], [], [], [])

  predicate IsFull(queues: seq<seq<string>>, q: QueueId) {
    q < |queues| && |queues[q]| >= MAXSIZE
  }

  /** The subscribers that `put_nowait` does not reject. */
  function Live(queues: seq<seq<string>>, subscribers: set<QueueId>): set<QueueId> {
    set q <- subscribers | !IsFull(queues, q)
  }

  function Offered(queues: seq<seq<string>>, live: set<QueueId>, data: string): (r: seq<seq<string>>)
    ensures |r| == |queues|
    ensures forall q :: 0 <= q < |r| ==> r[q] == if q in live then queues[q] + [data] else queues[q]
  {
    seq(|queues|, q requires 0 <= q < |queues| => if q in live then queues[q] + [data] else queues[q])
  }

  ghost predicate Enabled(s: State, step: Step) {
    && |s.read| == |s.since| == |s.until| == |s.queues|
    && match step
       case Subscribe => true
       case Unsubscribe(_) => true
       case Broadcast(_) => true
       case Read(q) => q < |s.queues| && s.queues[q] != []
  }

  ghost function Apply(s: State, step: Step): State
    requires Enabled(s, step)
  {
    match step
    case Subscribe =>
      s.(queues := s.queues + [[]], subscribers := s.subscribers + {|s.queues|},
         read := s.read + [[]], since := s.since + [|s.log|], until := s.until + [|s.log|])
    case Unsubscribe(q) => s.(subscribers := s.subscribers - {q})
    case Broadcast(data) =>
      var live := Live(s.queues, s.subscribers);
      s.(queues := Offered(s.queues, live, data),
         subscribers := live,
         log := s.log + [data],
         until := seq(|s.until|, q requires 0 <= q < |s.until| => if q in live then |s.log| + 1 else s.until[q]))
    case Read(q) =>
      s.(queues := s.queues[q := s.queues[q][1..]], read := s.read[q := s.read[q] + [s.queues[q][0]]])
  }

  /** What a queue's client has read or can still read is a gap-free stretch of the log. */
  ghost predicate QueueAgrees(s: State, q: QueueId)
    requires q < |s.queues| == |s.read| == |s.since| == |s.until|
  {
    && s.since[q] <= s.until[q] <= |s.log|
    && s.read[q] + s.queues[q] == s.log[s.since[q]..s.until[q]]
    && |s.queues[q]| <= MAXSIZE
    && (q in s.subscribers ==> s.until[q] == |s.log|)
  }

  ghost predicate Inv(s: State) {
    && |s.read| == |s.since| == |s.until| == |s.queues|
    && (forall q :: q in s.subscribers ==> q < |s.queues|)
    && (forall q :: 0 <= q < |s.queues| ==> QueueAgrees(s, q))
  }

  lemma StepKeepsQueue(s: State, step: Step, q: QueueId)
    requires Inv(s) && Enabled(s, step) && q < |Apply(s, step).queues|
    ensures QueueAgrees(Apply(s, step), q)
  {
    var t := Apply(s, step);
    if q < |s.queues| {
      assert QueueAgrees(s, q);
      match step {
        case Broadcast(data) =>
          if q in t.subscribers {
            assert t.log[t.since[q]..t.until[q]] == s.log[s.since[q]..] + [data];
            assert s.log[s.since[q]..] == s.log[s.since[q]..s.until[q]];
            assert t.read[q] + t.queues[q] == (s.read[q] + s.queues[q]) + [data];
          } else {
            assert t.log[t.since[q]..t.until[q]] == s.log[s.since[q]..s.until[q]];
          }
        case Read(p) =>
          if p == q { assert s.queues[q] == [s.queues[q][0]] + s.queues[q][1..]; }
        case Subscribe =>
        case Unsubscribe(_) =>
      }
    }
  }

  lemma StepKeepsInv(s: State, step: Step)
    requires Inv(s) && Enabled(s, step)
    ensures Inv(Apply(s, step))
  {
    forall q | 0 <= q < |Apply(s, step).queues| ensures QueueAgrees(Apply(s, step), q) {
      StepKeepsQueue(s, step, q);
    }
  }

  ghost predicate Legal(s: State, run: seq<Step>)
    decreases |run|
  {
    run == [] || (Enabled(s, run[0]) && Legal(Apply(s, run[0]), run[1..]))
  }

  ghost function Run(s: State, run: seq<Step>): State
    requires Legal(s, run)
    decreases |run|
  {
    if run == [] then s else Run(Apply(s, run[0]), run[1..])
  }

  lemma {:induction false} RunKeepsInv(s: State, run: seq<Step>)
    requires Inv(s) && Legal(s, run)
    ensures Inv(Run(s, run))
    decreases |run|
  {
    if run != [] {
      StepKeepsInv(s, run[0]);
      RunKeepsInv(Apply(s, run[0]), run[1..]);
    }
  }

  /**
   In every run a registered subscriber sees every broadcast since it subscribed, in order and
   without a gap: it is dropped rather than made to miss one. A dropped client's stretch just ends.
   */
  lemma NoGaps(run: seq<Step>, q: QueueId)
    requires Legal(INIT, run) && q < |Run(INIT, run).queues|
    ensures var s := Run(INIT, run);
            && |s.queues| == |s.read| == |s.since| == |s.until| && |s.queues[q]| <= MAXSIZE
            && s.since[q] <= s.until[q] <= |s.log|
            && s.read[q] + s.queues[q] == s.log[s.since[q]..s.until[q]]
            && (q in s.subscribers ==> s.read[q] + s.queues[q] == s.log[s.since[q]..])
  {
    RunKeepsInv(INIT, run);
    assert QueueAgrees(Run(INIT, run), q);
  }

  /** The events broadcast, in order. */
  function Events(run: seq<Step>): seq<string> {
    if run == [] then [] else (if run[0].Broadcast? then [run[0].data] else []) + Events(run[1..])
  }

  /** The log is what was broadcast. */
  lemma {:induction false} LogIsEvents(s: State, run: seq<Step>)
    requires Legal(s, run)
    ensures Run(s, run).log == s.log + Events(run)
    decreases |run|
  {
    if run == [] {
      assert s.log + [] == s.log;
    } else {
      LogIsEvents(Apply(s, run[0]), run[1..]);
      ConcatAssoc(s.log, if run[0].Broadcast? then [run[0].data] else [], Events(run[1..]));
      assert s.log + [] == s.log;
    }
  }

  /** The step takes a registered queue off: its client unsubscribes, or a broadcast finds 100 events in it. */
  ghost predicate TakesOff(s: State, step: Step, q: QueueId) {
    q in s.subscribers && (step == Unsubscribe(q) || (step.Broadcast? && q < |s.queues| && |s.queues[q]| == 100))
  }

  ghost predicate TakenOff(s: State, run: seq<Step>, q: QueueId)
    requires Legal(s, run)
    decreases |run|
  {
    run != [] && (TakesOff(s, run[0], q) || TakenOff(Apply(s, run[0]), run[1..], q))
  }

  lemma {:induction false} NeverTakenOff(s: State, run: seq<Step>, q: QueueId)
    requires Inv(s) && Legal(s, run) && q < |s.queues| && q !in s.subscribers
    ensures q !in Run(s, run).subscribers && !TakenOff(s, run, q)
    decreases |run|
  {
    if run != [] {
      StepKeepsInv(s, run[0]);
      NeverTakenOff(Apply(s, run[0]), run[1..], q);
    }
  }

  lemma StepTakesOff(s: State, step: Step, q: QueueId)
    requires Inv(s) && Enabled(s, step) && q in s.subscribers
    ensures q in Apply(s, step).subscribers <==> !TakesOff(s, step, q)
  {
    assert QueueAgrees(s, q);
  }

  lemma {:induction false} LeavesIffTakenOff(s: State, run: seq<Step>, q: QueueId)
    requires Inv(s) && Legal(s, run) && (q in s.subscribers || q >= |s.queues|) && q < |Run(s, run).queues|
    ensures q !in Run(s, run).subscribers <==> TakenOff(s, run, q)
    decreases |run|
  {
    if run != [] {
      var t := Apply(s, run[0]);
      StepKeepsInv(s, run[0]);
      if q in s.subscribers { StepTakesOff(s, run[0], q); }
      if q < |t.queues| && q !in t.subscribers {
        NeverTakenOff(t, run[1..], q);
      } else {
        LeavesIffTakenOff(t, run[1..], q);
      }
    }
  }

  /** In every run a queue is no longer registered exactly when its client unsubscribed it or a broadcast found 100 events in it. */
  lemma DroppedIff(run: seq<Step>, q: QueueId)
    requires Legal(INIT, run) && q < |Run(INIT, run).queues|
    ensures q !in Run(INIT, run).subscribers <==> TakenOff(INIT, run, q)
  {
    LeavesIffTakenOff(INIT, run, q);
  }

  /** The source's fields, with the histories as ghosts. */
  class SSEBroadcaster {
    var queues: seq<seq<string>>
    var subscribers: set<QueueId>
    ghost var log: seq<string>
    ghost var read: seq<seq<string>>
    ghost var since: seq<nat>
    ghost var until: seq<nat>

    ghost function Abs(): State
      reads this
    {
      State(queues, subscribers, log, read, since, until)
    }

    constructor ()
      ensures Abs() == INIT && Inv(Abs())
    {
      queues, subscribers, log, read, since, until := [], {}, [], [], [], [];
    }

    method SubscribeNew() returns (q: QueueId)
      requires Inv(Abs())
      modifies this
      ensures Inv(Abs()) && Abs() == Apply(old(Abs()), Subscribe) && q == old(|queues|)
    {
      StepKeepsInv(Abs(), Subscribe);
      q := |queues|;
      queues := queues + [[]];
      subscribers := subscribers + {q};
      read, since, until := read + [[]], since + [|log|], until + [|log|];
    }

    method UnsubscribeQueue(q: QueueId)
      requires Inv(Abs())
      modifies this
      ensures Inv(Abs()) && Abs() == Apply(old(Abs()), Unsubscribe(q))
    {
      StepKeepsInv(Abs(), Unsubscribe(q));
      subscribers := subscribers - {q};
    }

    method BroadcastEvent(data: string)
      requires Inv(Abs())
      modifies this
      ensures Inv(Abs()) && Abs() == Apply(old(Abs()), Broadcast(data))
    {
      ghost var t := Apply(Abs(), Broadcast(data));
      StepKeepsInv(Abs(), Broadcast(data));
      var dead := OfferAll(data);
      DiscardAll(dead);
      log, until := t.log, t.until;
      assert subscribers == t.subscribers;
    }

    /** The first loop of `broadcast`: offer the event to every subscriber, noting the full ones. */
    method OfferAll(data: string) returns (dead: seq<QueueId>)
      requires forall q :: q in subscribers ==> q < |queues|
      modifies this`queues
      ensures queues == Offered(old(queues), Live(old(queues), subscribers), data)
      ensures forall q :: q in dead <==> q in subscribers && IsFull(old(queues), q)
    {
      dead := [];
      var todo := subscribers;
      while todo != {}
        invariant todo <= subscribers && |queues| == |old(queues)|
        invariant forall q :: 0 <= q < |queues| ==>
          queues[q] == if q in subscribers && q !in todo && !IsFull(old(queues), q) then old(queues)[q] + [data] else old(queues)[q]
        invariant forall q :: q in dead <==> q in subscribers && q !in todo && IsFull(old(queues), q)
        decreases todo
      {
        var q :| q in todo;
        if |queues[q]| < MAXSIZE {
          queues := queues[q := queues[q] + [data]];
        } else {
          dead := dead + [q];
        }
        todo := todo - {q};
      }
    }

    /** The second loop of `broadcast`. */
    method DiscardAll(dead: seq<QueueId>)
      modifies this`subscribers
      ensures forall q :: q in subscribers <==> q in old(subscribers) && q !in dead
    {
      for i := 0 to |dead|
        invariant forall q :: q in subscribers <==> q in old(subscribers) && q !in dead[..i]
      {
        assert dead[..i + 1] == dead[..i] + [dead[i]];
        subscribers := subscribers - {dead[i]};
      }
      assert dead[..|dead|] == dead;
    }
  }
}
