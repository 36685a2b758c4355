/**
 Accumulation of streamed tool-call deltas (packages/shared_utils/llm_client.py:934-998; the async
 twin is the same code).
 */
module ToolCallStream {
  import opened Seqs

  /** An absent id, name or argument fragment is the empty string: the source tests for truth. */
  datatype Delta = Delta(index: int, id: string, name: string, arguments: string)

  /** One parsed chunk; `finished` is `finish_reason == "tool_calls"`. */
  datatype Event = Event(deltas: seq<Delta>, finished: bool)

  datatype ToolCall = ToolCall(id: string, name: string, arguments: string)

  type Calls = map<int, ToolCall>

  const NEW_CALL := ToolCall("", "", "")

  // ---- The loop ----

  function Merge(call: ToolCall, d: Delta): ToolCall {
    ToolCall(if d.id != "" then d.id else call.id, if d.name != "" then d.name else call.name, call.arguments + d.arguments)
  }

  function Add(calls: Calls, d: Delta): Calls {
    calls[d.index := Merge(if d.index in calls then calls[d.index] else NEW_CALL, d)]
  }

  function Accumulate(calls: Calls, ds: seq<Delta>): Calls {
    if ds == [] then calls else Add(Accumulate(calls, ds[..|ds| - 1]), ds[|ds| - 1])
  }

  predicate IsMin(s: set<int>, m: int) {
    m in s && forall x :: x in s ==> m <= x
  }

  lemma AnyOf<T>(s: set<T>) returns (x: T)
    requires s != {}
    ensures x in s
  {
    x :| x in s;
  }

  lemma {:induction false} MinExists(s: set<int>) returns (m: int)
    requires s != {}
    ensures IsMin(s, m)
  {
    var x := AnyOf(s);
    m := x;
    if s != {x} {
      var rest := s - {x};
      assert s == rest + {x};
      assert rest != {};
      var least := MinExists(rest);
      if least < m { m := least; }
    }
  }

  /** `sorted(...)` of the keys. */
  function SortedKeys(s: set<int>): (ks: seq<int>)
    ensures forall x :: x in ks <==> x in s
    ensures forall i, j :: 0 <= i < j < |ks| ==> ks[i] < ks[j]
  {
    if s == {} then []
    else
      assert exists m :: IsMin(s, m) by { var m := MinExists(s); }
      var m :| IsMin(s, m);
      [m] + SortedKeys(s - {m})
  }

  function EmitAll(calls: Calls): (out: seq<ToolCall>)
    ensures |out| == |SortedKeys(calls.Keys)|
    ensures forall i :: 0 <= i < |out| ==> out[i] == calls[SortedKeys(calls.Keys)[i]]
  {
    var ks := SortedKeys(calls.Keys);
    seq(|ks|, i requires 0 <= i < |ks| => calls[ks[i]])
  }

  class Accumulator {
    var toolCalls: Calls

    constructor ()
      ensures toolCalls == map[]
    {
      toolCalls := map[];
    }

    /** One pass of the source's loop body; returns the tool calls yielded. */
    method Consume(event: Event) returns (out: seq<ToolCall>)
      modifies this
      ensures var calls := Accumulate(old(toolCalls), event.deltas);
              && out == (if event.finished then EmitAll(calls) else [])
              && toolCalls == if event.finished then map[] else calls
    {
      for i := 0 to |event.deltas|
        invariant toolCalls == Accumulate(old(toolCalls), event.deltas[..i])
      {
        assert event.deltas[..i + 1][..i] == event.deltas[..i];
        AddDelta(event.deltas[i]);
      }
      assert event.deltas[..|event.deltas|] == event.deltas;
      out := [];
      if event.finished && toolCalls != map[] {
        out := Flush();
      }
    }

    method AddDelta(tc: Delta)
      modifies this
      ensures toolCalls == Add(old(toolCalls), tc)
    {
      if tc.index !in toolCalls {
        toolCalls := toolCalls[tc.index := NEW_CALL];
      }
      var entry := toolCalls[tc.index];
      if tc.id != "" {
        entry := entry.(id := tc.id);
      }
      if tc.name != "" {
        entry := entry.(name := tc.name);
      }
      if tc.arguments != "" {
        entry := entry.(arguments := entry.arguments + tc.arguments);
      }
      assert entry == Merge(toolCalls[tc.index], tc);
      toolCalls := toolCalls[tc.index := entry];
    }

    method Flush() returns (out: seq<ToolCall>)
      modifies this
      ensures out == EmitAll(old(toolCalls)) && toolCalls == map[]
    {
      out := [];
      var ks := SortedKeys(toolCalls.Keys);
      for i := 0 to |ks|
        invariant toolCalls == old(toolCalls) && out == EmitAll(toolCalls)[..i]
      {
        out := out + [toolCalls[ks[i]]];
      }
      toolCalls := map[];
    }
  }

  /** The tool calls yielded over a whole stream. */
  method Stream(events: seq<Event>) returns (out: seq<ToolCall>)
    ensures out == Emitted(events)
  {
    var acc := new Accumulator();
    out := [];
    for i := 0 to |events|
      invariant out == Emitted(events[..i]) && acc.toolCalls == Accumulate(map[], Pending(events[..i]))
      invariant fresh(acc)
    {
      assert events[..i + 1][..i] == events[..i];
      var more := acc.Consume(events[i]);
      AccumulateConcat(map[], Pending(events[..i]), events[i].deltas);
      out := out + more;
    }
    assert events[..|events|] == events;
  }

  // ---- What the stream means ----

  /** Deltas since the last flush. */
  function Pending(events: seq<Event>): seq<Delta> {
    if events == [] || events[|events| - 1].finished then []
    else Pending(events[..|events| - 1]) + events[|events| - 1].deltas
  }

  /** The delta sequences that the flushes end. */
  function Segments(events: seq<Event>): seq<seq<Delta>> {
    if events == [] then []
    else
      var before, last := events[..|events| - 1], events[|events| - 1];
      Segments(before) + if last.finished then [Pending(before) + last.deltas] else []
  }

  function AllDeltas(events: seq<Event>): seq<Delta> {
    if events == [] then [] else AllDeltas(events[..|events| - 1]) + events[|events| - 1].deltas
  }

  function FlatDeltas(segments: seq<seq<Delta>>): seq<Delta> {
    if segments == [] then [] else FlatDeltas(segments[..|segments| - 1]) + segments[|segments| - 1]
  }

  /** The segments and what comes after the last flush are all deltas, in order. */
  lemma {:induction false} SegmentsCover(events: seq<Event>)
    ensures FlatDeltas(Segments(events)) + Pending(events) == AllDeltas(events)
  {
    if events != [] {
      var before, last := events[..|events| - 1], events[|events| - 1];
      var segments, open := Segments(before), Pending(before);
      SegmentsCover(before);
      ConcatAssoc(FlatDeltas(segments), open, last.deltas);
      if last.finished {
        assert (segments + [open + last.deltas])[..|segments|] == segments;
        assert FlatDeltas(segments) + (open + last.deltas) + [] == FlatDeltas(segments) + (open + last.deltas);
      } else {
        assert segments + [] == segments;
      }
    }
  }

  /** A stream loses deltas exactly when some come after its last flush: these never make a call. */
  lemma DeltasLostIff(events: seq<Event>)
    ensures FlatDeltas(Segments(events)) != AllDeltas(events) <==> Pending(events) != []
  {
    SegmentsCover(events);
    assert Pending(events) == [] ==> FlatDeltas(Segments(events)) + Pending(events) == FlatDeltas(Segments(events));
    assert |FlatDeltas(Segments(events))| + |Pending(events)| == |AllDeltas(events)|;
  }

  function Emitted(events: seq<Event>): seq<ToolCall> {
    if events == [] then []
    else
      var before, last := events[..|events| - 1], events[|events| - 1];
      Emitted(before) + if last.finished then EmitAll(Accumulate(map[], Pending(before) + last.deltas)) else []
  }

  /** A call whose only chunk does not say that it is finished is never made. */
  lemma UnflushedCallLost(call: Delta)
    ensures var events := [Event([call], false)]; Emitted(events) == [] && FlatDeltas(Segments(events)) != AllDeltas(events)
  {
    var events := [Event([call], false)];
    assert events[..0] == [] && Pending(events) == [call];
    DeltasLostIff(events);
  }

  lemma {:induction false} AccumulateConcat(calls: Calls, a: seq<Delta>, b: seq<Delta>)
    ensures Accumulate(calls, a + b) == Accumulate(Accumulate(calls, a), b)
  {
    if b == [] {
      assert a + b == a;
    } else {
      assert (a + b)[..|a + b| - 1] == a + b[..|b| - 1];
      AccumulateConcat(calls, a, b[..|b| - 1]);
    }
  }

  /** The deltas of one index, in arrival order. */
  function Sub(ds: seq<Delta>, i: int): seq<Delta> {
    if ds == [] then []
    else Sub(ds[..|ds| - 1], i) + if ds[|ds| - 1].index == i then [ds[|ds| - 1]] else []
  }

  function Arguments(ds: seq<Delta>): string {
    if ds == [] then "" else Arguments(ds[..|ds| - 1]) + ds[|ds| - 1].arguments
  }

  function LastId(ds: seq<Delta>): string {
    if ds == [] then "" else if ds[|ds| - 1].id != "" then ds[|ds| - 1].id else LastId(ds[..|ds| - 1])
  }

  function LastName(ds: seq<Delta>): string {
    if ds == [] then "" else if ds[|ds| - 1].name != "" then ds[|ds| - 1].name else LastName(ds[..|ds| - 1])
  }

  /** The call that one index's deltas make: last id and name given, all argument fragments in order. */
  function CallOf(ds: seq<Delta>): ToolCall {
    ToolCall(LastId(ds), LastName(ds), Arguments(ds))
  }

  lemma {:induction false} CallOfConcat(a: seq<Delta>, b: seq<Delta>)
    ensures Arguments(a + b) == Arguments(a) + Arguments(b)
    ensures LastId(a + b) == if LastId(b) != "" then LastId(b) else LastId(a)
    ensures LastName(a + b) == if LastName(b) != "" then LastName(b) else LastName(a)
  {
    if b == [] {
      assert a + b == a;
    } else {
      assert (a + b)[..|a + b| - 1] == a + b[..|b| - 1];
      CallOfConcat(a, b[..|b| - 1]);
    }
  }

  lemma CallOfOne(d: Delta)
    ensures CallOf([d]) == ToolCall(d.id, d.name, d.arguments)
  {
    assert [d][..0] == [];
    assert Arguments([]) == "" && LastId([]) == "" && LastName([]) == "";
  }

  /** Each index is accumulated from its own deltas alone. */
  lemma {:induction false} AccumulatesPerIndex(ds: seq<Delta>, i: int)
    ensures var calls := Accumulate(map[], ds);
            && (i in calls <==> Sub(ds, i) != [])
            && (i in calls ==> calls[i] == CallOf(Sub(ds, i)))
  {
    if ds != [] {
      var before, d := ds[..|ds| - 1], ds[|ds| - 1];
      AccumulatesPerIndex(before, i);
      if d.index == i {
        CallOfConcat(Sub(before, i), [d]);
        CallOfOne(d);
        assert Sub(ds, i) == Sub(before, i) + [d];
        assert CallOf(Sub(ds, i)) == Merge(CallOf(Sub(before, i)), d);
        assert CallOf([]) == NEW_CALL;
      } else {
        assert Sub(ds, i) == Sub(before, i);
      }
    }
  }

  /** A flush yields each index once, ascending, with the call of the index's deltas since the last flush. */
  lemma FlushIsOrderedAndComplete(ds: seq<Delta>)
    ensures var out, ks := EmitAll(Accumulate(map[], ds)), SortedKeys(Accumulate(map[], ds).Keys);
            && |out| == |ks|
            && (forall i, j :: 0 <= i < j < |ks| ==> ks[i] < ks[j])
            && (forall i :: i in ks <==> Sub(ds, i) != [])
            && (forall j :: 0 <= j < |out| ==> out[j] == CallOf(Sub(ds, ks[j])))
  {
    forall i ensures i in Accumulate(map[], ds) <==> Sub(ds, i) != []
             ensures i in Accumulate(map[], ds) ==> Accumulate(map[], ds)[i] == CallOf(Sub(ds, i)) {
      AccumulatesPerIndex(ds, i);
    }
  }

  /** Same indices, and for each the same id, name and argument text. */
  ghost predicate Equivalent(a: seq<Delta>, b: seq<Delta>) {
    forall i :: (Sub(a, i) == [] <==> Sub(b, i) == []) && CallOf(Sub(a, i)) == CallOf(Sub(b, i))
  }

  lemma EquivalentAccumulate(a: seq<Delta>, b: seq<Delta>)
    requires Equivalent(a, b)
    ensures Accumulate(map[], a) == Accumulate(map[], b)
  {
    var x, y := Accumulate(map[], a), Accumulate(map[], b);
    forall i ensures i in x <==> i in y
             ensures i in x && i in y ==> x[i] == y[i] {
      AccumulatesPerIndex(a, i);
      AccumulatesPerIndex(b, i);
    }
    assert x.Keys == y.Keys;
  }

  function Flat(outs: seq<seq<ToolCall>>): seq<ToolCall> {
    if outs == [] then [] else Flat(outs[..|outs| - 1]) + outs[|outs| - 1]
  }

  function Flushes(segments: seq<seq<Delta>>): (outs: seq<seq<ToolCall>>)
    ensures |outs| == |segments|
    ensures forall i :: 0 <= i < |outs| ==> outs[i] == EmitAll(Accumulate(map[], segments[i]))
  {
    seq(|segments|, i requires 0 <= i < |segments| => EmitAll(Accumulate(map[], segments[i])))
  }

  lemma FlatSnoc(outs: seq<seq<ToolCall>>, out: seq<ToolCall>)
    ensures Flat(outs + [out]) == Flat(outs) + out
  {
    assert (outs + [out])[..|outs|] == outs;
  }

  lemma FlushesSnoc(segments: seq<seq<Delta>>, segment: seq<Delta>)
    ensures Flushes(segments + [segment]) == Flushes(segments) + [EmitAll(Accumulate(map[], segment))]
  {
  }

  /** The output is the flushes of the segments: how deltas are grouped into chunks does not matter. */
  lemma {:induction false} EmittedBySegments(events: seq<Event>)
    ensures Emitted(events) == Flat(Flushes(Segments(events)))
  {
    if events != [] {
      var before, last := events[..|events| - 1], events[|events| - 1];
      EmittedBySegments(before);
      if last.finished {
        var segment := Pending(before) + last.deltas;
        FlushesSnoc(Segments(before), segment);
        FlatSnoc(Flushes(Segments(before)), EmitAll(Accumulate(map[], segment)));
      } else {
        assert Segments(events) == Segments(before);
      }
    }
  }

  /**
   Streams whose segments agree index by index yield the same calls: fragments may be split anew,
   deltas of different indices reordered between flushes, and chunks regrouped.
   */
  lemma OutputDependsOnContentOnly(es: seq<Event>, fs: seq<Event>)
    requires |Segments(es)| == |Segments(fs)|
    requires forall k :: 0 <= k < |Segments(es)| ==> Equivalent(Segments(es)[k], Segments(fs)[k])
    ensures Emitted(es) == Emitted(fs)
  {
    EmittedBySegments(es);
    EmittedBySegments(fs);
    forall k | 0 <= k < |Segments(es)| ensures Flushes(Segments(es))[k] == Flushes(Segments(fs))[k] {
      EquivalentAccumulate(Segments(es)[k], Segments(fs)[k]);
    }
    assert Flushes(Segments(es)) == Flushes(Segments(fs));
  }

  lemma {:induction false} SubConcat(a: seq<Delta>, b: seq<Delta>, i: int)
    ensures Sub(a + b, i) == Sub(a, i) + Sub(b, i)
  {
    if b == [] {
      assert a + b == a;
    } else {
      assert (a + b)[..|a + b| - 1] == a + b[..|b| - 1];
      SubConcat(a, b[..|b| - 1], i);
    }
  }

  lemma EquivalentInContext(a: seq<Delta>, m: seq<Delta>, m': seq<Delta>, b: seq<Delta>)
    requires Equivalent(m, m')
    ensures Equivalent(a + m + b, a + m' + b)
  {
    forall i ensures (Sub(a + m + b, i) == [] <==> Sub(a + m' + b, i) == [])
             ensures CallOf(Sub(a + m + b, i)) == CallOf(Sub(a + m' + b, i)) {
      SubConcat(a + m, b, i);
      SubConcat(a, m, i);
      SubConcat(a + m', b, i);
      SubConcat(a, m', i);
      CallOfConcat(Sub(a, i) + Sub(m, i), Sub(b, i));
      CallOfConcat(Sub(a, i), Sub(m, i));
      CallOfConcat(Sub(a, i) + Sub(m', i), Sub(b, i));
      CallOfConcat(Sub(a, i), Sub(m', i));
      assert CallOf(Sub(m, i)) == CallOf(Sub(m', i));
    }
  }

  lemma SubPair(d: Delta, e: Delta, i: int)
    ensures Sub([d, e], i) == (if d.index == i then [d] else []) + (if e.index == i then [e] else [])
    ensures Sub([d], i) == if d.index == i then [d] else []
  {
    assert [d, e][..1] == [d] && [d][..0] == [];
    assert Sub([], i) == [];
  }

  /** Swapping neighbouring deltas of different indices keeps the segment's content. */
  lemma SwapIsEquivalent(a: seq<Delta>, d: Delta, e: Delta, b: seq<Delta>)
    requires d.index != e.index
    ensures Equivalent(a + [d, e] + b, a + [e, d] + b)
  {
    forall i ensures Sub([d, e], i) == Sub([e, d], i) {
      SubPair(d, e, i);
      SubPair(e, d, i);
    }
    EquivalentInContext(a, [d, e], [e, d], b);
  }

  /** So does splitting a fragment in two, the id and name going with the first part. */
  lemma ResplitIsEquivalent(a: seq<Delta>, d: Delta, first: string, second: string, b: seq<Delta>)
    requires d.arguments == first + second
    ensures Equivalent(a + [d] + b, a + [d.(arguments := first), Delta(d.index, "", "", second)] + b)
  {
    var d1, d2 := d.(arguments := first), Delta(d.index, "", "", second);
    forall i ensures Sub([d], i) == [] <==> Sub([d1, d2], i) == []
             ensures CallOf(Sub([d], i)) == CallOf(Sub([d1, d2], i)) {
      SubPair(d, d, i);
      SubPair(d1, d2, i);
      CallOfOne(d);
      CallOfOne(d1);
      CallOfOne(d2);
      CallOfConcat([d1], [d2]);
    }
    EquivalentInContext(a, [d], [d1, d2], b);
  }
}
