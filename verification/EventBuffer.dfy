module EventBuffer {
  // The bounded buffer between the worker's reader and one subscriber (model_worker/events.py):
  // telemetry is coalesced and may be dropped, everything else is delivered in order or the
  // subscriber is declared slow.

  import opened Basics

  datatype Kind = Started | PhaseChanged | FinalDelta | Progress | Heartbeat
  datatype Event = Event(requestId: string, attemptId: string, kind: Kind, sequence: nat, size: nat)

  predicate IsTelemetry(e: Event) { e.kind == Progress || e.kind == Heartbeat }

  datatype Limits = Limits(requestId: string, attemptId: string, maxEvents: nat, maxBytes: nat)

  datatype Buffer = Buffer(
    events: seq<Event>, queuedBytes: int, nextSequence: nat, closed: bool, slow: bool, coalescedTotal: nat, droppedTotal: nat)

  datatype Result = Enqueued | Coalesced | DroppedTelemetry | SlowConsumer | Closed | CorrelationMismatch | SequenceMismatch

  function Empty(next: nat): Buffer { Buffer([], 0, next, false, false, 0, 0) }

  // ----- publish -----

  /** Place of the first queued event of a kind. */
  function FirstOf(events: seq<Event>, kind: Kind): (i: Option<nat>)
    ensures i.Some? ==> i.value < |events| && events[i.value].kind == kind && forall k :: 0 <= k < i.value ==> events[k].kind != kind
    ensures i.None? ==> forall k :: 0 <= k < |events| ==> events[k].kind != kind
    decreases |events|
  {
    if events == [] then None
    else
      var before := FirstOf(events[..|events| - 1], kind);
      if before.Some? then before
      else if events[|events| - 1].kind == kind then Some(|events| - 1)
      else None
  }

  function Without(events: seq<Event>, i: nat): seq<Event>
    requires i < |events|
  {
    events[..i] + events[i + 1..]
  }

  function RemoveOlder(b: Buffer, kind: Kind): (r: (Buffer, bool))
    ensures r.0 == b.(events := r.0.events, queuedBytes := r.0.queuedBytes)
  {
    var i := FirstOf(b.events, kind);
    if i.None? then (b, false)
    else (b.(events := Without(b.events, i.value), queuedBytes := b.queuedBytes - b.events[i.value].size), true)
  }

  predicate Fits(l: Limits, b: Buffer, e: Event) { |b.events| < l.maxEvents && b.queuedBytes + e.size <= l.maxBytes }

  function Publish(l: Limits, b: Buffer, e: Event): (Buffer, Result) {
    if b.closed then (b, Closed)
    else if e.requestId != l.requestId || e.attemptId != l.attemptId then (b, CorrelationMismatch)
    else if e.sequence != b.nextSequence then (b, SequenceMismatch)
    else
      var b1 := b.(nextSequence := b.nextSequence + 1);
      if b1.slow then (b1, SlowConsumer)
      else
        var (b2, coalesced) := if IsTelemetry(e) then RemoveOlder(b1, e.kind) else (b1, false);
        if Fits(l, b2, e) then
          (b2.(events := b2.events + [e], queuedBytes := b2.queuedBytes + e.size,
               coalescedTotal := b2.coalescedTotal + if coalesced then 1 else 0),
           if coalesced then Coalesced else Enqueued)
        else if IsTelemetry(e) then (b2.(droppedTotal := b2.droppedTotal + 1), DroppedTelemetry)
        else (b2.(slow := true), SlowConsumer)
  }

  /** `get` with events queued; with none it waits or gives up and changes nothing. */
  function Get(b: Buffer): (Buffer, Option<Event>) {
    if b.events == [] then (b, None)
    else (b.(events := b.events[1..], queuedBytes := b.queuedBytes - b.events[0].size), Some(b.events[0]))
  }

  function Drain(b: Buffer): (Buffer, seq<Event>) { (b.(events := [], queuedBytes := 0), b.events) }

  function Close(b: Buffer): Buffer { b.(closed := true) }

  // ----- what has gone through it -----

  /** The buffer with what its producer has published, what of it was accepted, and what its
      subscriber has been given. */
  datatype Stream = Stream(buffer: Buffer, published: seq<Event>, accepted: seq<Event>, delivered: seq<Event>)

  datatype Op = DoPublish(event: Event) | DoGet | DoDrain | DoClose

  /** An event counts as published when `publish` does not raise, and as accepted when it
      answers that the event is queued. */
  function Do(l: Limits, s: Stream, op: Op): Stream {
    match op
    case DoPublish(e) =>
      var (b, r) := Publish(l, s.buffer, e);
      Stream(b, if r == CorrelationMismatch || r == SequenceMismatch then s.published else s.published + [e],
             if r == Enqueued || r == Coalesced then s.accepted + [e] else s.accepted, s.delivered)
    case DoGet =>
      var (b, e) := Get(s.buffer);
      Stream(b, s.published, s.accepted, if e.Some? then s.delivered + [e.value] else s.delivered)
    case DoDrain =>
      var (b, events) := Drain(s.buffer);
      Stream(b, s.published, s.accepted, s.delivered + events)
    case DoClose => s.(buffer := Close(s.buffer))
  }

  function DoAll(l: Limits, next: nat, ops: seq<Op>): Stream
    decreases |ops|
  {
    if ops == [] then Stream(Empty(next), [], [], []) else Do(l, DoAll(l, next, ops[..|ops| - 1]), ops[|ops| - 1])
  }

  /** Everything but telemetry, in order. */
  function Output(events: seq<Event>): seq<Event>
    decreases |events|
  {
    if events == [] then []
    else
      var init, last := Output(events[..|events| - 1]), events[|events| - 1];
      if IsTelemetry(last) then init else init + [last]
  }

  function TotalSize(events: seq<Event>): nat
    decreases |events|
  {
    if events == [] then 0 else TotalSize(events[..|events| - 1]) + events[|events| - 1].size
  }

  predicate Increasing(events: seq<Event>) { forall i, j :: 0 <= i < j < |events| ==> events[i].sequence < events[j].sequence }

  predicate Below(events: seq<Event>, n: nat) { forall k :: 0 <= k < |events| ==> events[k].sequence < n }

  predicate OneOfEach(events: seq<Event>) {
    forall i, j :: 0 <= i < j < |events| && IsTelemetry(events[i]) ==> events[i].kind != events[j].kind
  }

  predicate BufferOk(l: Limits, b: Buffer) {
    && b.queuedBytes == TotalSize(b.events) && b.queuedBytes <= l.maxBytes && |b.events| <= l.maxEvents && OneOfEach(b.events)
  }

  predicate IsPrefix(a: seq<Event>, b: seq<Event>) { a <= b }

  predicate StreamOk(l: Limits, s: Stream) {
    && BufferOk(l, s.buffer)
    && Increasing(s.delivered + s.buffer.events) && Below(s.delivered + s.buffer.events, s.buffer.nextSequence)
    && Output(s.delivered + s.buffer.events) == Output(s.accepted)
    && IsPrefix(Output(s.accepted), Output(s.published))
    && (!s.buffer.closed && !s.buffer.slow ==> Output(s.accepted) == Output(s.published))
  }

  lemma {:induction false} OutputAdds(a: seq<Event>, b: seq<Event>)
    ensures Output(a + b) == Output(a) + Output(b)
    decreases |b|
  {
    if b == [] {
      assert a + b == a;
    } else {
      OutputAdds(a, b[..|b| - 1]);
      assert (a + b)[..|a + b| - 1] == a + b[..|b| - 1];
    }
  }

  lemma {:induction false} SizeAdds(a: seq<Event>, b: seq<Event>)
    ensures TotalSize(a + b) == TotalSize(a) + TotalSize(b)
    decreases |b|
  {
    if b == [] {
      assert a + b == a;
    } else {
      SizeAdds(a, b[..|b| - 1]);
      assert (a + b)[..|a + b| - 1] == a + b[..|b| - 1];
    }
  }

  lemma OneEvent(e: Event)
    ensures TotalSize([e]) == e.size && Output([e]) == if IsTelemetry(e) then [] else [e]
  {
    assert [e][..0] == [];
  }

  /** Taking a telemetry event out of the middle changes no output. */
  lemma {:induction false} WithoutOne(events: seq<Event>, i: nat)
    requires i < |events|
    ensures TotalSize(Without(events, i)) == TotalSize(events) - events[i].size
    ensures IsTelemetry(events[i]) ==> Output(Without(events, i)) == Output(events)
  {
    var a, e, b := events[..i], events[i], events[i + 1..];
    assert events == (a + [e]) + b;
    SizeAdds(a + [e], b);
    SizeAdds(a, [e]);
    SizeAdds(a, b);
    OutputAdds(a + [e], b);
    OutputAdds(a, [e]);
    OutputAdds(a, b);
    OneEvent(e);
    hide TotalSize;
    hide Output;
    assert Output(a) + [] == Output(a);
  }

  lemma {:induction false} WithoutAt(events: seq<Event>, i: nat)
    requires i < |events|
    ensures forall k :: 0 <= k < |events| - 1 ==> Without(events, i)[k] == events[if k < i then k else k + 1]
    ensures |Without(events, i)| == |events| - 1
  {
  }

  lemma {:induction false} WithoutKeepsOrder(before: seq<Event>, events: seq<Event>, i: nat, n: nat)
    requires i < |events| && Increasing(before + events) && Below(before + events, n)
    ensures Increasing(before + Without(events, i)) && Below(before + Without(events, i), n)
  {
    WithoutAt(events, i);
    var all, less := before + events, before + Without(events, i);
    var at := |before| + i;
    assert forall k :: 0 <= k < |less| ==> less[k] == all[if k < at then k else k + 1];
  }

  lemma {:induction false} WithoutKeepsOne(events: seq<Event>, i: nat)
    requires i < |events| && OneOfEach(events)
    ensures OneOfEach(Without(events, i))
    ensures IsTelemetry(events[i]) ==> forall k :: 0 <= k < |events| - 1 ==> Without(events, i)[k].kind != events[i].kind
  {
    WithoutAt(events, i);
  }

  // ----- every operation keeps it -----

  /** After coalescing no event of the kind is queued, and nothing else has changed. */
  lemma {:induction false} RemoveOlderOk(l: Limits, s: Stream, kind: Kind)
    requires StreamOk(l, s) && (kind == Progress || kind == Heartbeat)
    ensures var (b, done) := RemoveOlder(s.buffer, kind);
            && StreamOk(l, s.(buffer := b)) && b.nextSequence == s.buffer.nextSequence
            && forall k :: 0 <= k < |b.events| ==> b.events[k].kind != kind
  {
    var i := FirstOf(s.buffer.events, kind);
    if i.Some? {
      var events := s.buffer.events;
      WithoutOne(events, i.value);
      WithoutKeepsOrder(s.delivered, events, i.value, s.buffer.nextSequence);
      WithoutKeepsOne(events, i.value);
      OutputAdds(s.delivered, events);
      OutputAdds(s.delivered, Without(events, i.value));
      hide Increasing;
      hide Below;
      hide TotalSize;
      hide Output;
    }
  }

  lemma {:induction false} AppendOk(l: Limits, s: Stream, e: Event)
    requires StreamOk(l, s) && !s.buffer.closed && !s.buffer.slow && Fits(l, s.buffer, e)
    requires e.sequence == s.buffer.nextSequence
    requires IsTelemetry(e) ==> forall k :: 0 <= k < |s.buffer.events| ==> s.buffer.events[k].kind != e.kind
    ensures StreamOk(l, Stream(s.buffer.(events := s.buffer.events + [e], queuedBytes := s.buffer.queuedBytes + e.size,
                                         nextSequence := s.buffer.nextSequence + 1), s.published + [e], s.accepted + [e], s.delivered))
  {
    hide TotalSize;
    hide Output;
    hide Increasing;
    hide Below;
    hide OneOfEach;
    hide IsTelemetry;
    var events := s.buffer.events;
    var all := s.delivered + events;
    assert s.delivered + (events + [e]) == all + [e];
    OrderAppends(all, e, s.buffer.nextSequence);
    OneAppends(events, e);
    SizeAdds(events, [e]);
    OutputAdds(all, [e]);
    OutputAdds(s.published, [e]);
    OutputAdds(s.accepted, [e]);
    OneEvent(e);
  }

  lemma {:induction false} OrderAppends(events: seq<Event>, e: Event, n: nat)
    requires Increasing(events) && Below(events, n) && e.sequence == n
    ensures Increasing(events + [e]) && Below(events + [e], n + 1)
  {
  }

  lemma {:induction false} OneAppends(events: seq<Event>, e: Event)
    requires OneOfEach(events) && (IsTelemetry(e) ==> forall k :: 0 <= k < |events| ==> events[k].kind != e.kind)
    ensures OneOfEach(events + [e])
  {
  }

  /** A telemetry event that is not queued, or an event refused for good, leaves the stream's
      output a prefix of what was published. */
  lemma {:induction false} RefuseOk(l: Limits, s: Stream, e: Event, b: Buffer)
    requires StreamOk(l, s) && b == s.buffer.(nextSequence := b.nextSequence, slow := b.slow, coalescedTotal := b.coalescedTotal, droppedTotal := b.droppedTotal)
    requires b.nextSequence >= s.buffer.nextSequence && (s.buffer.slow ==> b.slow) && (IsTelemetry(e) || b.slow || b.closed)
    ensures StreamOk(l, Stream(b, s.published + [e], s.accepted, s.delivered))
  {
    OutputAdds(s.published, [e]);
    OneEvent(e);
    hide TotalSize;
    hide Output;
    assert Output(s.published) + [] == Output(s.published);
  }

  lemma {:induction false} CountsAreFree(l: Limits, s: Stream, b: Buffer)
    requires StreamOk(l, s) && b == s.buffer.(coalescedTotal := b.coalescedTotal, droppedTotal := b.droppedTotal)
    ensures StreamOk(l, s.(buffer := b))
  {
  }

  /** Output: queued if it fits, and otherwise the subscriber is slow. */
  lemma {:induction false} PublishOutputOk(l: Limits, s: Stream, e: Event)
    requires StreamOk(l, s) && !IsTelemetry(e) && !s.buffer.closed && !s.buffer.slow
    requires e.requestId == l.requestId && e.attemptId == l.attemptId && e.sequence == s.buffer.nextSequence
    ensures StreamOk(l, Do(l, s, DoPublish(e)))
  {
    hide StreamOk;
    if Fits(l, s.buffer, e) { AppendOk(l, s, e); } else { RefuseOk(l, s, e, Publish(l, s.buffer, e).0); }
  }

  /** Telemetry: it takes the place of an older event of its kind if it fits, and is dropped with
      it otherwise. */
  lemma {:induction false} PublishTelemetryOk(l: Limits, s: Stream, e: Event)
    requires StreamOk(l, s) && IsTelemetry(e) && !s.buffer.closed && !s.buffer.slow
    requires e.requestId == l.requestId && e.attemptId == l.attemptId && e.sequence == s.buffer.nextSequence
    ensures StreamOk(l, Do(l, s, DoPublish(e)))
  {
    hide StreamOk;
    hide FirstOf;
    hide Without;
    RemoveOlderOk(l, s, e.kind);
    var s2 := s.(buffer := RemoveOlder(s.buffer, e.kind).0);
    if Fits(l, s2.buffer, e) {
      AppendOk(l, s2, e);
      var s3 := Do(l, s, DoPublish(e));
      CountsAreFree(l, s3.(buffer := s3.buffer.(coalescedTotal := s2.buffer.coalescedTotal)), s3.buffer);
    } else {
      RefuseOk(l, s2, e, Publish(l, s.buffer, e).0);
    }
  }

  lemma {:induction false} PublishOk(l: Limits, s: Stream, e: Event)
    requires StreamOk(l, s)
    ensures StreamOk(l, Do(l, s, DoPublish(e)))
  {
    hide StreamOk;
    var r := Publish(l, s.buffer, e).1;
    if r == Closed || (r == SlowConsumer && s.buffer.slow) {
      RefuseOk(l, s, e, Publish(l, s.buffer, e).0);
    } else if r != CorrelationMismatch && r != SequenceMismatch {
      hide Do;
      if IsTelemetry(e) { PublishTelemetryOk(l, s, e); } else { PublishOutputOk(l, s, e); }
    }
  }

  lemma {:induction false} GetOk(l: Limits, s: Stream)
    requires StreamOk(l, s)
    ensures StreamOk(l, Do(l, s, DoGet))
  {
    hide TotalSize;
    hide Output;
    hide Increasing;
    hide Below;
    hide OneOfEach;
    var events := s.buffer.events;
    if events != [] {
      OneOfRest(events);
      assert (s.delivered + [events[0]]) + events[1..] == s.delivered + events;
      assert events == [events[0]] + events[1..];
      SizeAdds([events[0]], events[1..]);
      OneEvent(events[0]);
    }
  }

  lemma {:induction false} OneOfRest(events: seq<Event>)
    requires events != [] && OneOfEach(events)
    ensures OneOfEach(events[1..])
  {
  }

  lemma {:induction false} DrainOk(l: Limits, s: Stream)
    requires StreamOk(l, s)
    ensures StreamOk(l, Do(l, s, DoDrain))
  {
    assert (s.delivered + s.buffer.events) + [] == s.delivered + s.buffer.events;
  }

  lemma {:induction false} RunOk(l: Limits, next: nat, ops: seq<Op>)
    ensures StreamOk(l, DoAll(l, next, ops))
    decreases |ops|
  {
    if ops != [] {
      RunOk(l, next, ops[..|ops| - 1]);
      var s := DoAll(l, next, ops[..|ops| - 1]);
      hide StreamOk;
      match ops[|ops| - 1]
      case DoPublish(e) => PublishOk(l, s, e);
      case DoGet => GetOk(l, s);
      case DoDrain => DrainOk(l, s);
      case DoClose => CloseOk(l, s);
    }
  }

  lemma {:induction false} CloseOk(l: Limits, s: Stream)
    requires StreamOk(l, s)
    ensures StreamOk(l, s.(buffer := Close(s.buffer)))
  {
  }

  /** Lossless for output: over every interleaving, the events other than telemetry that were
      delivered, followed by those still queued, are exactly the accepted ones, also after the
      buffer is closed or the subscriber declared slow. The accepted ones are a prefix of those
      published, all of them until one of the two happens. Sequence numbers
      delivered increase, at most one event of each telemetry kind is queued, and bytes and
      events are counted exactly and within bounds. */
  lemma OutputIsLossless(l: Limits, next: nat, ops: seq<Op>)
    ensures var s := DoAll(l, next, ops); var b := s.buffer;
            && Output(s.delivered) + Output(b.events) == Output(s.accepted)
            && Output(s.accepted) <= Output(s.published)
            && (!b.closed && !b.slow ==> Output(s.accepted) == Output(s.published))
            && Increasing(s.delivered) && OneOfEach(b.events)
            && b.queuedBytes == TotalSize(b.events) <= l.maxBytes && |b.events| <= l.maxEvents
  {
    RunOk(l, next, ops);
    var s := DoAll(l, next, ops);
    OutputAdds(s.delivered, s.buffer.events);
    hide DoAll;
    var all := s.delivered + s.buffer.events;
    assert forall k :: 0 <= k < |s.delivered| ==> s.delivered[k] == all[k];
  }
}

/** The buffer as an object. */
module EventBufferObject {
  import opened Basics
  import opened EventBuffer
  import Spec = EventBuffer

  class BoundedRequestEventBuffer {
    const limits: Limits
    var events: seq<Event>
    var queuedBytes: int
    var nextSequence: nat
    var closed: bool
    var slowConsumer: bool
    var coalescedTotal: nat
    var droppedTotal: nat

    function View(): Buffer
      reads this
    {
      Buffer(events, queuedBytes, nextSequence, closed, slowConsumer, coalescedTotal, droppedTotal)
    }

    constructor (limits: Limits, next: nat)
      requires limits.maxEvents > 0 && limits.maxBytes > 0
      ensures this.limits == limits && View() == Empty(next)
    {
      this.limits := limits;
      events, queuedBytes, nextSequence := [], 0, next;
      closed, slowConsumer, coalescedTotal, droppedTotal := false, false, 0, 0;
    }

    /** Takes the first queued event of the kind out, if there is one. */
    method RemoveOlderTelemetry(kind: Kind) returns (removed: bool)
      modifies this`events, this`queuedBytes
      ensures (View(), removed) == RemoveOlder(old(View()), kind)
    {
      hide FirstOf;
      for k := 0 to |events|
        invariant events == old(events) && queuedBytes == old(queuedBytes)
        invariant forall j :: 0 <= j < k ==> events[j].kind != kind
      {
        if events[k].kind == kind {
          assert FirstOf(events, kind) == Some(k);
          queuedBytes := queuedBytes - events[k].size;
          events := events[..k] + events[k + 1..];
          return true;
        }
      }
      return false;
    }

    method Publish(e: Event) returns (r: Result)
      modifies this
      ensures (View(), r) == Spec.Publish(limits, old(View()), e)
    {
      if closed { return Closed; }
      if e.requestId != limits.requestId || e.attemptId != limits.attemptId { return CorrelationMismatch; }
      if e.sequence != nextSequence { return SequenceMismatch; }
      nextSequence := nextSequence + 1;
      if slowConsumer { return SlowConsumer; }
      var coalesced := false;
      if IsTelemetry(e) { coalesced := RemoveOlderTelemetry(e.kind); }
      if |events| < limits.maxEvents && queuedBytes + e.size <= limits.maxBytes {
        events := events + [e];
        queuedBytes := queuedBytes + e.size;
        if coalesced { coalescedTotal := coalescedTotal + 1; }
        return if coalesced then Coalesced else Enqueued;
      }
      if IsTelemetry(e) {
        droppedTotal := droppedTotal + 1;
        return DroppedTelemetry;
      }
      slowConsumer := true;
      return SlowConsumer;
    }

    method Get() returns (e: Option<Event>)
      modifies this`events, this`queuedBytes
      ensures (View(), e) == Spec.Get(old(View()))
    {
      if events == [] { return None; }
      e := Some(events[0]);
      events := events[1..];
      queuedBytes := queuedBytes - e.value.size;
    }

    method Drain() returns (all: seq<Event>)
      modifies this`events, this`queuedBytes
      ensures (View(), all) == Spec.Drain(old(View()))
    {
      all := events;
      events, queuedBytes := [], 0;
    }

    method Close()
      modifies this`closed
      ensures View() == Spec.Close(old(View()))
    {
      closed := true;
    }
  }
}
