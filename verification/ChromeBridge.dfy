/**
 The request/response correlation of `ChromeBridge` (services/dev_agent/chrome_bridge.py:26-104):
 commands, responses, timeouts and disconnects as interleaved steps over the pending map.

 Message ids are fresh, a connection is accepted only after the previous one ended, and callers are
 not cancelled.
 */
module ChromeBridge {
  import opened Options

  /** Index of a `send_command` call. */
  type Handle = nat

  datatype Message = Message(id: Option<string>, data: string)

  datatype Future = Unset | Result(message: Message) | Failed | Cancelled

  datatype Outcome = Returned(message: Message) | ConnectionError | TimeoutError | SendError

  /** `Expiring`: the timer has fired and the call has not resumed yet. */
  datatype Phase = Sending | Waiting | Expiring | Done(outcome: Outcome)

  datatype Command = Command(id: string, future: Future, phase: Phase)

  datatype State = State(connected: bool, commands: seq<Command>, pending: map<string, Handle>)

  datatype Step =
    | Accept
    | Disconnect
    | Receive(message: Message)
    | Send(id: string)
    | Sent(h: Handle)
    | SendFails(h: Handle)
    | Expire(h: Handle)
    | Wake(h: Handle)
    | WakeExpired(h: Handle)

  const INIT := State(false, [], map[])

  predicate InPhase(s: State, h: Handle, phase: Phase) {
    h < |s.commands| && s.commands[h].phase == phase
  }

  predicate Fresh(s: State, id: string) {
    id != "" && forall c <- s.commands :: c.id != id
  }

  predicate Enabled(s: State, step: Step) {
    match step
    case Accept => !s.connected
    case Disconnect => true
    case Receive(_) => s.connected
    case Send(id) => Fresh(s, id)
    case Sent(h) => InPhase(s, h, Sending)
    case SendFails(h) => InPhase(s, h, Sending)
    case Expire(h) => InPhase(s, h, Waiting)
    case Wake(h) => (InPhase(s, h, Waiting) || InPhase(s, h, Expiring)) && (s.commands[h].future.Result? || s.commands[h].future.Failed?)
    case WakeExpired(h) => InPhase(s, h, Expiring)
  }

  function FailUnset(c: Command): Command {
    if c.future == Unset then c.(future := Failed) else c
  }

  /** `disconnect`: every pending future that is not done gets a `ConnectionError`. */
  function FailPending(commands: seq<Command>, pending: map<string, Handle>): (r: seq<Command>)
    ensures |r| == |commands|
    ensures forall h :: 0 <= h < |r| ==> r[h] == if h in pending.Values then FailUnset(commands[h]) else commands[h]
  {
    seq(|commands|, h requires 0 <= h < |commands| => if h in pending.Values then FailUnset(commands[h]) else commands[h])
  }

  /** A message without a pending id is ignored; the id leaves the map even if the future is done already. */
  function Deliver(s: State, message: Message): State {
    if message.id == None || message.id.value !in s.pending || s.pending[message.id.value] >= |s.commands| then s
    else
      var h := s.pending[message.id.value];
      var c := s.commands[h];
      State(s.connected,
        if c.future == Unset then s.commands[h := c.(future := Result(message))] else s.commands,
        s.pending - {message.id.value})
  }

  function Finish(s: State, h: Handle, outcome: Outcome): State
    requires h < |s.commands|
  {
    State(s.connected, s.commands[h := s.commands[h].(phase := Done(outcome))], s.pending - {s.commands[h].id})
  }

  function Apply(s: State, step: Step): State
    requires Enabled(s, step)
  {
    match step
    case Accept => s.(connected := true)
    case Disconnect => State(false, FailPending(s.commands, s.pending), map[])
    case Receive(message) => Deliver(s, message)
    case Send(id) =>
      if s.connected then
        State(true, s.commands + [Command(id, Unset, Sending)], s.pending[id := |s.commands|])
      else
        s.(commands := s.commands + [Command(id, Failed, Done(ConnectionError))])
    case Sent(h) => s.(commands := s.commands[h := s.commands[h].(phase := Waiting)])
    case SendFails(h) => Finish(s, h, SendError)
    case Expire(h) =>
      var c := s.commands[h];
      s.(commands := s.commands[h := c.(phase := Expiring, future := if c.future == Unset then Cancelled else c.future)])
    // a result was popped from the map with its message, so only the exception path pops here
    case Wake(h) =>
      var future := s.commands[h].future;
      if future.Result? then s.(commands := s.commands[h := s.commands[h].(phase := Done(Returned(future.message)))])
      else Finish(s, h, ConnectionError)
    case WakeExpired(h) => Finish(s, h, TimeoutError)
  }

  // ---- Invariant ----

  ghost predicate CommandAgrees(c: Command) {
    && (c.future.Result? ==> c.future.message.id == Some(c.id))
    && (c.phase.Done? && c.phase.outcome.Returned? ==> c.future == Result(c.phase.outcome.message))
    && (c.phase.Done? && c.phase.outcome == ConnectionError ==> c.future == Failed)
    && (c.phase == Expiring ==> c.future != Unset)
    && (c.future == Cancelled ==> c.phase == Expiring || c.phase == Done(TimeoutError))
  }

  ghost predicate PendingAgrees(s: State) {
    && (forall id :: id in s.pending ==>
          s.pending[id] < |s.commands| && s.commands[s.pending[id]].id == id && !s.commands[s.pending[id]].phase.Done?
          && (s.commands[s.pending[id]].future == Unset || s.commands[s.pending[id]].future == Cancelled))
    && (forall h :: 0 <= h < |s.commands| && !s.commands[h].phase.Done? && s.commands[h].future == Unset ==>
          s.commands[h].id in s.pending && s.pending[s.commands[h].id] == h)
    && (!s.connected ==> s.pending == map[])
  }

  ghost predicate Inv(s: State) {
    && (forall g, h :: 0 <= g < h < |s.commands| ==> s.commands[g].id != s.commands[h].id)
    && (forall h :: 0 <= h < |s.commands| ==> CommandAgrees(s.commands[h]))
    && PendingAgrees(s)
  }

  lemma FinishKeepsInv(s: State, h: Handle, outcome: Outcome)
    requires Inv(s) && h < |s.commands| && !s.commands[h].phase.Done? && !outcome.Returned?
    requires outcome == ConnectionError ==> s.commands[h].future == Failed
    requires s.commands[h].future == Cancelled ==> outcome == TimeoutError
    ensures Inv(Finish(s, h, outcome))
  {
  }

  lemma SendKeepsInv(s: State, id: string)
    requires Inv(s) && Enabled(s, Send(id))
    ensures Inv(Apply(s, Send(id)))
  {
    forall p | p in s.pending ensures p != id {
      assert s.commands[s.pending[p]] in s.commands;
    }
  }

  lemma StepKeepsInv(s: State, step: Step)
    requires Inv(s) && Enabled(s, step)
    ensures Inv(Apply(s, step))
  {
    match step
    case Send(id) => SendKeepsInv(s, id);
    case SendFails(h) => FinishKeepsInv(s, h, SendError);
    case Wake(h) => if s.commands[h].future == Failed { FinishKeepsInv(s, h, ConnectionError); }
    case WakeExpired(h) => FinishKeepsInv(s, h, TimeoutError);
    case Accept =>
    case Disconnect => DisconnectKeepsInv(s);
    case Receive(message) => ReceiveKeepsInv(s, message);
    case Sent(h) =>
    case Expire(h) => ExpireKeepsInv(s, h);
  }

  lemma ReceiveKeepsInv(s: State, message: Message)
    requires Inv(s)
    ensures Inv(Deliver(s, message))
  {
  }

  lemma ExpireKeepsInv(s: State, h: Handle)
    requires Inv(s) && Enabled(s, Expire(h))
    ensures Inv(Apply(s, Expire(h)))
  {
  }

  /** An id in the map belongs to a command that is still out and has no result. */
  lemma PendingOwner(s: State, h: Handle)
    requires Inv(s) && h < |s.commands|
    ensures s.commands[h].id in s.pending ==>
              s.pending[s.commands[h].id] == h && !s.commands[h].phase.Done? && !s.commands[h].future.Result?
    ensures h in s.pending.Values ==> s.commands[h].id in s.pending
  {
    if s.commands[h].id in s.pending {
      var g := s.pending[s.commands[h].id];
      assert s.commands[g].id == s.commands[h].id;
    }
  }

  lemma PendingWasSent(s: State, id: string)
    requires Inv(s) && id in s.pending
    ensures exists c :: c in s.commands && c.id == id
  {
    assert s.commands[s.pending[id]] in s.commands;
  }

  lemma DisconnectKeepsInv(s: State)
    requires Inv(s)
    ensures Inv(Apply(s, Disconnect))
  {
    var t := Apply(s, Disconnect);
    forall h | 0 <= h < |s.commands| && !s.commands[h].phase.Done? ensures t.commands[h].future != Unset {
      if s.commands[h].future == Unset { assert s.pending[s.commands[h].id] in s.pending.Values; }
    }
    forall h | 0 <= h < |s.commands| && h in s.pending.Values ensures CommandAgrees(t.commands[h]) {
      var id :| id in s.pending && s.pending[id] == h;
    }
  }

  // ---- Runs ----

  predicate Legal(s: State, run: seq<Step>)
    decreases |run|
  {
    run == [] || (Enabled(s, run[0]) && Legal(Apply(s, run[0]), run[1..]))
  }

  function Run(s: State, run: seq<Step>): State
    requires Legal(s, run)
    decreases |run|
  {
    if run == [] then s else Run(Apply(s, run[0]), run[1..])
  }

  lemma {:induction false} RunKeepsInv(s: State, run: seq<Step>)
    requires Inv(s) && Legal(s, run)
    ensures Inv(Run(s, run))
    decreases |run|
  {
    if run != [] {
      StepKeepsInv(s, run[0]);
      RunKeepsInv(Apply(s, run[0]), run[1..]);
    }
  }

  /** What a command returns is the response that carries its own id, in every run. */
  lemma OwnResponse(run: seq<Step>, h: Handle)
    requires Legal(INIT, run) && h < |Run(INIT, run).commands|
    ensures var c := Run(INIT, run).commands[h];
            c.phase.Done? && c.phase.outcome.Returned? ==> c.phase.outcome.message.id == Some(c.id)
  {
    RunKeepsInv(INIT, run);
    assert CommandAgrees(Run(INIT, run).commands[h]);
  }

  lemma StepKeepsDone(s: State, step: Step, h: Handle)
    requires Inv(s) && Enabled(s, step) && h < |s.commands|
    ensures var t := Apply(s, step);
            && h < |t.commands| && t.commands[h].id == s.commands[h].id
            && (s.commands[h].future != Unset ==> t.commands[h].future == s.commands[h].future)
            && (s.commands[h].phase.Done? ==> t.commands[h] == s.commands[h])
  {
    assert CommandAgrees(s.commands[h]);
    PendingOwner(s, h);
  }

  /** At most one outcome: a finished command, and a completed future, never change again. */
  lemma {:induction false} OutcomeIsFinal(s: State, run: seq<Step>, h: Handle)
    requires Inv(s) && Legal(s, run) && h < |s.commands|
    ensures var t := Run(s, run);
            && h < |t.commands| && t.commands[h].id == s.commands[h].id
            && (s.commands[h].future != Unset ==> t.commands[h].future == s.commands[h].future)
            && (s.commands[h].phase.Done? ==> t.commands[h] == s.commands[h])
    decreases |run|
  {
    if run != [] {
      StepKeepsInv(s, run[0]);
      StepKeepsDone(s, run[0], h);
      OutcomeIsFinal(Apply(s, run[0]), run[1..], h);
    }
  }

  /** A response to a command that is finished, or whose response has been delivered, changes nothing. */
  lemma LateResponseIgnored(run: seq<Step>, h: Handle, data: string)
    requires Legal(INIT, run) && h < |Run(INIT, run).commands|
    requires var c := Run(INIT, run).commands[h]; c.phase.Done? || c.future.Result?
    ensures var s := Run(INIT, run); Deliver(s, Message(Some(s.commands[h].id), data)) == s
  {
    RunKeepsInv(INIT, run);
    PendingOwner(Run(INIT, run), h);
  }

  /** A message for an id that no command was given changes nothing. */
  lemma UnknownResponseIgnored(run: seq<Step>, message: Message)
    requires Legal(INIT, run)
    requires message.id.Some? ==> forall c <- Run(INIT, run).commands :: c.id != message.id.value
    ensures Deliver(Run(INIT, run), message) == Run(INIT, run)
  {
    RunKeepsInv(INIT, run);
    var s := Run(INIT, run);
    forall id | id in s.pending { PendingWasSent(s, id); }
  }

  /**
   After `disconnect` nothing is pending, and every command still out has a future that is done:
   it either had its response already, or timed out, or now fails.
   */
  lemma DisconnectResolvesAll(run: seq<Step>, h: Handle)
    requires Legal(INIT, run) && h < |Run(INIT, run).commands| && !Run(INIT, run).commands[h].phase.Done?
    ensures var s := Run(INIT, run);
            var t := Apply(s, Disconnect);
            && t.pending == map[] && !t.connected
            && t.commands[h].future == (if s.commands[h].future == Unset then Failed else s.commands[h].future)
  {
    RunKeepsInv(INIT, run);
    var s := Run(INIT, run);
    if s.commands[h].future == Unset {
      assert s.pending[s.commands[h].id] in s.pending.Values;
    }
  }

  lemma FailedStaysFailed(s: State, run: seq<Step>, h: Handle)
    requires Inv(s) && Legal(s, run) && h < |s.commands| && s.commands[h].future == Failed
    ensures var t := Run(s, run);
            && h < |t.commands|
            && (t.commands[h].phase.Done? ==> !t.commands[h].phase.outcome.Returned?)
  {
    OutcomeIsFinal(s, run, h);
    RunKeepsInv(s, run);
    assert CommandAgrees(Run(s, run).commands[h]);
  }

  /** So a command unresolved at the disconnect never returns a result, even after a new connection. */
  lemma DisconnectFailsUnresolved(run: seq<Step>, h: Handle, later: seq<Step>)
    requires Legal(INIT, run) && h < |Run(INIT, run).commands|
    requires !Run(INIT, run).commands[h].phase.Done? && Run(INIT, run).commands[h].future == Unset
    requires Legal(Apply(Run(INIT, run), Disconnect), later)
    ensures var t := Run(Apply(Run(INIT, run), Disconnect), later);
            && h < |t.commands|
            && (t.commands[h].phase.Done? ==> !t.commands[h].phase.outcome.Returned?)
  {
    RunKeepsInv(INIT, run);
    DisconnectResolvesAll(run, h);
    StepKeepsInv(Run(INIT, run), Disconnect);
    FailedStaysFailed(Apply(Run(INIT, run), Disconnect), later, h);
  }

  // ---- Responses arrive ----

  /** A command whose response may still come: sent or being sent, its future not done. */
  predicate IsOpen(s: State, h: Handle) {
    h < |s.commands| && (s.commands[h].phase == Sending || s.commands[h].phase == Waiting) && s.commands[h].future == Unset
  }

  /**
   In every run the response to an open command completes its future and takes its id out of the map;
   no other command and no other id is touched.
   */
  lemma ResponseArrives(run: seq<Step>, h: Handle, message: Message)
    requires Legal(INIT, run) && IsOpen(Run(INIT, run), h) && message.id == Some(Run(INIT, run).commands[h].id)
    ensures var s := Run(INIT, run);
            && Enabled(s, Receive(message))
            && var t := Apply(s, Receive(message));
            && t.commands == s.commands[h := s.commands[h].(future := Result(message))]
            && t.pending == (map id | id in s.pending && id != message.id.value :: s.pending[id])
            && t.connected
  {
    RunKeepsInv(INIT, run);
    PendingOwner(Run(INIT, run), h);
  }

  /**
   From then on the response stays the command's: in whatever run follows, a waiting command can
   resume, and when it does it returns this response.
   */
  lemma ResponseIsReturned(run: seq<Step>, h: Handle, message: Message, later: seq<Step>)
    requires Legal(INIT, run) && IsOpen(Run(INIT, run), h) && message.id == Some(Run(INIT, run).commands[h].id)
    requires Enabled(Run(INIT, run), Receive(message)) && Legal(Apply(Run(INIT, run), Receive(message)), later)
    ensures var u := Run(Apply(Run(INIT, run), Receive(message)), later);
            && h < |u.commands| && u.commands[h].future == Result(message)
            && (u.commands[h].phase == Waiting ==>
                  Enabled(u, Wake(h)) && Apply(u, Wake(h)).commands == u.commands[h := u.commands[h].(phase := Done(Returned(message)))])
            && (Wake(h) in later ==> u.commands[h].phase == Done(Returned(message)))
  {
    var s := Run(INIT, run);
    RunKeepsInv(INIT, run);
    ResponseArrives(run, h, message);
    StepKeepsInv(s, Receive(message));
    OutcomeIsFinal(Apply(s, Receive(message)), later, h);
    if Wake(h) in later { EndsAsTold(Apply(s, Receive(message)), later, h); }
  }

  /** How the step ends the command, if it does. */
  function EndIn(s: State, step: Step, h: Handle): Option<Outcome>
    requires h < |s.commands|
  {
    match step
    case SendFails(g) => if g == h then Some(SendError) else None
    case WakeExpired(g) => if g == h then Some(TimeoutError) else None
    case Wake(g) =>
      if g != h then None
      else if s.commands[h].future.Result? then Some(Returned(s.commands[h].future.message))
      else Some(ConnectionError)
    case _ => None
  }

  lemma StepEnds(s: State, step: Step, h: Handle)
    requires Inv(s) && Enabled(s, step) && h < |s.commands| && !s.commands[h].phase.Done?
    ensures h < |Apply(s, step).commands|
    ensures var end, phase := EndIn(s, step, h), Apply(s, step).commands[h].phase;
            phase.Done? == end.Some? && (end.Some? ==> phase.outcome == end.value)
  {
  }

  /** A command that is out ends as its own step says: the send failed, the timer was handled, or it resumed. */
  lemma {:induction false} EndsAsTold(s: State, run: seq<Step>, h: Handle)
    requires Inv(s) && Legal(s, run) && h < |s.commands| && !s.commands[h].phase.Done?
    ensures h < |Run(s, run).commands|
    ensures var phase := Run(s, run).commands[h].phase;
            && (SendFails(h) in run <==> phase == Done(SendError))
            && (WakeExpired(h) in run <==> phase == Done(TimeoutError))
            && (Wake(h) in run <==> phase.Done? && (phase.outcome.Returned? || phase.outcome == ConnectionError))
    ensures Wake(h) in run && s.commands[h].future.Result? ==>
              Run(s, run).commands[h].phase == Done(Returned(s.commands[h].future.message))
    decreases |run|
  {
    if run != [] {
      var t := Apply(s, run[0]);
      assert run == [run[0]] + run[1..];
      StepKeepsInv(s, run[0]);
      StepEnds(s, run[0], h);
      StepKeepsDone(s, run[0], h);
      if t.commands[h].phase.Done? {
        OutcomeIsFinal(t, run[1..], h);
        DoneStepsNoMore(t, run[1..], h);
      } else {
        EndsAsTold(t, run[1..], h);
      }
    }
  }

  /** Where a command stands that is still out: being sent, waiting once sent, expiring once its timer fired. */
  lemma {:induction false} PhaseAsTold(s: State, run: seq<Step>, h: Handle)
    requires Inv(s) && Legal(s, run) && h < |s.commands| && !s.commands[h].phase.Done?
    ensures h < |Run(s, run).commands|
    ensures var before, after := s.commands[h].phase, Run(s, run).commands[h].phase;
            after.Done? || after == (if Expire(h) in run || before == Expiring then Expiring
                                     else if Sent(h) in run || before == Waiting then Waiting else Sending)
    decreases |run|
  {
    if run != [] {
      var t := Apply(s, run[0]);
      assert run == [run[0]] + run[1..];
      StepKeepsInv(s, run[0]);
      StepEnds(s, run[0], h);
      StepKeepsDone(s, run[0], h);
      if t.commands[h].phase.Done? {
        OutcomeIsFinal(t, run[1..], h);
      } else {
        StepPhase(s, run[0], h);
        PhaseAsTold(t, run[1..], h);
      }
    }
  }

  lemma StepPhase(s: State, step: Step, h: Handle)
    requires Enabled(s, step) && h < |s.commands| && h < |Apply(s, step).commands| && !s.commands[h].phase.Done?
    ensures var before, after := s.commands[h].phase, Apply(s, step).commands[h].phase;
            after.Done? || after == if step == Expire(h) then Expiring else if step == Sent(h) then Waiting else before
  {
  }

  lemma {:induction false} DoneStepsNoMore(s: State, run: seq<Step>, h: Handle)
    requires Inv(s) && Legal(s, run) && h < |s.commands| && s.commands[h].phase.Done?
    ensures SendFails(h) !in run && WakeExpired(h) !in run && Wake(h) !in run
    decreases |run|
  {
    if run != [] {
      assert run == [run[0]] + run[1..];
      StepKeepsInv(s, run[0]);
      StepKeepsDone(s, run[0], h);
      DoneStepsNoMore(Apply(s, run[0]), run[1..], h);
    }
  }

  // ---- The object ----

  /** The source's fields, with every call made so far in `commands`; a method is code between awaits. */
  class Bridge {
    var connected: bool
    var commands: seq<Command>
    var pending: map<string, Handle>

    ghost function Abs(): State
      reads this
    {
      State(connected, commands, pending)
    }

    constructor ()
      ensures Abs() == INIT && Inv(Abs())
    {
      connected, commands, pending := false, [], map[];
    }

    method AcceptConnection()
      requires Inv(Abs()) && Enabled(Abs(), Accept)
      modifies this
      ensures Inv(Abs()) && Abs() == Apply(old(Abs()), Accept)
    {
      StepKeepsInv(Abs(), Accept);
      connected := true;
    }

    /** The loop over `_pending.values()`. */
    method DisconnectAll()
      requires Inv(Abs())
      modifies this
      ensures Inv(Abs()) && Abs() == Apply(old(Abs()), Disconnect)
    {
      StepKeepsInv(Abs(), Disconnect);
      connected := false;
      FailFutures();
      pending := map[];
    }

    /** The loop over the pending futures. */
    method FailFutures()
      requires forall h <- pending.Values :: h < |commands|
      modifies this`commands
      ensures commands == FailPending(old(commands), pending)
    {
      var todo := pending.Values;
      while todo != {}
        invariant |commands| == |old(commands)| && todo <= pending.Values
        invariant forall h :: 0 <= h < |commands| ==>
          commands[h] == if h in pending.Values && h !in todo then FailUnset(old(commands)[h]) else old(commands)[h]
        decreases todo
      {
        var h :| h in todo;
        if commands[h].future == Unset {
          commands := commands[h := commands[h].(future := Failed)];
        }
        todo := todo - {h};
      }
    }

    method HandleMessage(message: Message)
      requires Inv(Abs()) && Enabled(Abs(), Receive(message))
      modifies this
      ensures Inv(Abs()) && Abs() == Apply(old(Abs()), Receive(message))
    {
      StepKeepsInv(Abs(), Receive(message));
      if message.id == None || message.id.value !in pending {
        return;
      }
      var h := pending[message.id.value];
      pending := pending - {message.id.value};
      if commands[h].future == Unset {
        commands := commands[h := commands[h].(future := Result(message))];
      }
    }

    /** `send_command` up to its first await; not connected, it raises at once. */
    method SendCommand(id: string) returns (h: Handle)
      requires Inv(Abs()) && Enabled(Abs(), Send(id))
      modifies this
      ensures Inv(Abs()) && Abs() == Apply(old(Abs()), Send(id))
      ensures h == |old(commands)| && (commands[h].phase == Done(ConnectionError) <==> !connected)
    {
      StepKeepsInv(Abs(), Send(id));
      h := |commands|;
      if !connected {
        commands := commands + [Command(id, Failed, Done(ConnectionError))];
        return;
      }
      commands := commands + [Command(id, Unset, Sending)];
      pending := pending[id := h];
    }

    method MarkSent(h: Handle)
      requires Inv(Abs()) && Enabled(Abs(), Sent(h))
      modifies this
      ensures Inv(Abs()) && Abs() == Apply(old(Abs()), Sent(h))
    {
      StepKeepsInv(Abs(), Sent(h));
      commands := commands[h := commands[h].(phase := Waiting)];
    }

    method TimerFires(h: Handle)
      requires Inv(Abs()) && Enabled(Abs(), Expire(h))
      modifies this
      ensures Inv(Abs()) && Abs() == Apply(old(Abs()), Expire(h))
    {
      StepKeepsInv(Abs(), Expire(h));
      var c := commands[h];
      if c.future == Unset {
        c := c.(future := Cancelled);
      }
      commands := commands[h := c.(phase := Expiring)];
    }

    /** `send_command` resuming from its last await: with the response, or popping the id and raising. */
    method Resume(h: Handle) returns (outcome: Outcome)
      requires Inv(Abs()) && Enabled(Abs(), Wake(h))
      modifies this
      ensures Inv(Abs()) && Abs() == Apply(old(Abs()), Wake(h))
      ensures outcome == commands[h].phase.outcome
      ensures outcome.Returned? ==> outcome.message.id == Some(commands[h].id)
    {
      StepKeepsInv(Abs(), Wake(h));
      assert CommandAgrees(commands[h]);
      var future := commands[h].future;
      if future.Result? {
        outcome := Returned(future.message);
      } else {
        outcome := ConnectionError;
        pending := pending - {commands[h].id};
      }
      commands := commands[h := commands[h].(phase := Done(outcome))];
    }

    /** The two `except` branches for a timeout and for a failed send. */
    method RaiseAfter(h: Handle, step: Step)
      requires Inv(Abs()) && (step == WakeExpired(h) || step == SendFails(h)) && Enabled(Abs(), step)
      modifies this
      ensures Inv(Abs()) && Abs() == Apply(old(Abs()), step)
    {
      StepKeepsInv(Abs(), step);
      pending := pending - {commands[h].id};
      commands := commands[h := commands[h].(phase := Done(if step.SendFails? then SendError else TimeoutError))];
    }
  }
}
