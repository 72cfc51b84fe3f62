/** What the event buffer answers and hands out, on the queued events alone. */
module EventAnswers {
  import opened Basics
  import opened EventBuffer

  predicate Coalescible(e: Event) { e.kind.Progress? || e.kind.Heartbeat? }

  /** The queued events that stay when `e` arrives: a progress or a heartbeat takes the place of
      the ones of its kind. */
  function Staying(events: seq<Event>, e: Event): seq<Event>
    decreases |events|
  {
    if events == [] then []
    else
      var last := events[|events| - 1];
      Staying(events[..|events| - 1], e) + if Coalescible(e) && last.kind == e.kind then [] else [last]
  }

  /** Is this the event the buffer expects next? */
  predicate Expected(l: Limits, b: Buffer, e: Event) {
    e.requestId == l.requestId && e.attemptId == l.attemptId && e.sequence == b.nextSequence
  }

  /** Room for `e` beside the events that stay. */
  predicate RoomFor(l: Limits, b: Buffer, e: Event) {
    |Staying(b.events, e)| < l.maxEvents && TotalSize(Staying(b.events, e)) + e.size <= l.maxBytes
  }

  /** Is `e` taken up, if there is room for it? */
  predicate Listens(l: Limits, b: Buffer, e: Event) { !b.closed && Expected(l, b, e) && !b.slow }

  /** The answer to `publish` and what it leaves. */
  predicate PublishAnswers(l: Limits, b: Buffer, e: Event, b1: Buffer, r: Result) {
    var listens, room := Listens(l, b, e), RoomFor(l, b, e);
    && (r == Closed <==> b.closed)
    && (r == CorrelationMismatch <==> !b.closed && (e.requestId != l.requestId || e.attemptId != l.attemptId))
    && (r == SequenceMismatch <==>
          !b.closed && e.requestId == l.requestId && e.attemptId == l.attemptId && e.sequence != b.nextSequence)
    && (r == SlowConsumer <==> !b.closed && Expected(l, b, e) && (b.slow || (!room && !Coalescible(e))))
    && (r == DroppedTelemetry <==> listens && !room && Coalescible(e))
    && (r == Coalesced <==> listens && room && Staying(b.events, e) != b.events)
    && (r == Enqueued <==> listens && room && Staying(b.events, e) == b.events)
    && b1.events == (if listens then Staying(b.events, e) + if room then [e] else [] else b.events)
    && b1.nextSequence == (if !b.closed && Expected(l, b, e) then b.nextSequence + 1 else b.nextSequence)
    && b1.closed == b.closed
    && (b1.slow <==> b.slow || (listens && !room && !Coalescible(e)))
    && b1.queuedBytes == TotalSize(b1.events)
    && b1.coalescedTotal == b.coalescedTotal + (if r == Coalesced then 1 else 0)
    && b1.droppedTotal == b.droppedTotal + (if r == DroppedTelemetry then 1 else 0)
  }

  lemma {:induction false} StayingAdds(a: seq<Event>, b: seq<Event>, e: Event)
    ensures Staying(a + b, e) == Staying(a, e) + Staying(b, e)
    decreases |b|
  {
    if b == [] {
      assert a + b == a;
    } else {
      StayingAdds(a, b[..|b| - 1], e);
      assert (a + b)[..|a + b| - 1] == a + b[..|b| - 1];
    }
  }

  lemma {:induction false} AllStay(events: seq<Event>, e: Event)
    requires Coalescible(e) ==> forall k :: 0 <= k < |events| ==> events[k].kind != e.kind
    ensures Staying(events, e) == events
    decreases |events|
  {
    if events != [] { AllStay(events[..|events| - 1], e); }
  }

  /** With one event of the kind queued, the others stay. */
  lemma {:induction false} OthersStay(events: seq<Event>, i: nat, e: Event)
    requires i < |events| && OneOfEach(events) && Coalescible(e) && events[i].kind == e.kind
    ensures Staying(events, e) == Without(events, i) && Staying(events, e) != events
  {
    var a, b := events[..i], events[i + 1..];
    OthersDiffer(events, i, a, b);
    AllStay(a, e);
    AllStay(b, e);
    OneGoes(events[i], e);
    hide Staying;
    hide OneOfEach;
    assert events == a + [events[i]] + b;
    StayingAdds(a + [events[i]], b, e);
    StayingAdds(a, [events[i]], e);
    assert a + [] == a;
    assert |Without(events, i)| == |events| - 1;
  }

  lemma OthersDiffer(events: seq<Event>, i: nat, a: seq<Event>, b: seq<Event>)
    requires i < |events| && OneOfEach(events) && IsTelemetry(events[i]) && a == events[..i] && b == events[i + 1..]
    ensures forall k :: 0 <= k < |a| ==> a[k].kind != events[i].kind
    ensures forall k :: 0 <= k < |b| ==> b[k].kind != events[i].kind
  {
    forall k | 0 <= k < |events| && k != i
      ensures events[k].kind != events[i].kind
    {
      if k < i { assert IsTelemetry(events[k]) ==> events[k].kind != events[i].kind; }
    }
  }

  lemma OneGoes(last: Event, e: Event)
    requires Coalescible(e) && last.kind == e.kind
    ensures Staying([last], e) == []
  {
    assert [last][..0] == [];
  }

  lemma WhatStays(b: Buffer, e: Event)
    requires OneOfEach(b.events) && b.queuedBytes == TotalSize(b.events)
    ensures var r := if IsTelemetry(e) then RemoveOlder(b, e.kind) else (b, false);
            && r.0.events == Staying(b.events, e) && r.0.queuedBytes == TotalSize(r.0.events)
            && (r.1 <==> Staying(b.events, e) != b.events)
  {
    if IsTelemetry(e) {
      var i := FirstOf(b.events, e.kind);
      if i.Some? {
        OthersStay(b.events, i.value, e);
        WithoutOne(b.events, i.value);
      } else {
        AllStay(b.events, e);
      }
    } else {
      AllStay(b.events, e);
    }
  }

  /** The queue without what `e` replaces, and whether anything was. */
  function Cleared(b: Buffer, e: Event): (Buffer, bool) {
    if IsTelemetry(e) then RemoveOlder(b, e.kind) else (b, false)
  }

  lemma ClearedIs(b: Buffer, e: Event)
    requires OneOfEach(b.events) && b.queuedBytes == TotalSize(b.events)
    ensures var stay := Staying(b.events, e);
            Cleared(b, e) == (b.(events := stay, queuedBytes := TotalSize(stay)), stay != b.events)
  {
    WhatStays(b, e);
    hide RemoveOlder;
    hide TotalSize;
    hide Staying;
  }

  /** What `publish` does with an event it takes up. */
  lemma TakenExactly(l: Limits, b: Buffer, e: Event)
    requires OneOfEach(b.events) && b.queuedBytes == TotalSize(b.events) && Listens(l, b, e)
    ensures var stay := Staying(b.events, e);
            var instead := stay != b.events;
            Publish(l, b, e) ==
              if RoomFor(l, b, e) then
                (Buffer(stay + [e], TotalSize(stay + [e]), b.nextSequence + 1, false, false,
                        b.coalescedTotal + if instead then 1 else 0, b.droppedTotal), if instead then Coalesced else Enqueued)
              else if Coalescible(e) then
                (Buffer(stay, TotalSize(stay), b.nextSequence + 1, false, false, b.coalescedTotal, b.droppedTotal + 1), DroppedTelemetry)
              else (Buffer(b.events, TotalSize(b.events), b.nextSequence + 1, false, true, b.coalescedTotal, b.droppedTotal), SlowConsumer)
  {
    ClearedIs(b.(nextSequence := b.nextSequence + 1), e);
    TotalOfOneMore(Staying(b.events, e), e);
    AllStayUnless(b.events, e);
    PublishCleared(l, b, e);
    hide Publish;
    hide Cleared;
    hide TotalSize;
    hide Staying;
    hide OneOfEach;
  }

  lemma TotalOfOneMore(events: seq<Event>, e: Event)
    ensures TotalSize(events + [e]) == TotalSize(events) + e.size
  {
    SizeAdds(events, [e]);
    OneEvent(e);
  }

  /** `publish` once the queue is cleared. */
  lemma PublishCleared(l: Limits, b: Buffer, e: Event)
    requires Listens(l, b, e)
    ensures var (b2, coalesced) := Cleared(b.(nextSequence := b.nextSequence + 1), e);
            Publish(l, b, e) ==
              if Fits(l, b2, e) then
                (b2.(events := b2.events + [e], queuedBytes := b2.queuedBytes + e.size,
                     coalescedTotal := b2.coalescedTotal + if coalesced then 1 else 0),
                 if coalesced then Coalesced else Enqueued)
              else if IsTelemetry(e) then (b2.(droppedTotal := b2.droppedTotal + 1), DroppedTelemetry)
              else (b2.(slow := true), SlowConsumer)
  {
    hide RemoveOlder;
  }

  lemma AllStayUnless(events: seq<Event>, e: Event)
    ensures !Coalescible(e) ==> Staying(events, e) == events
  {
    if !Coalescible(e) { AllStay(events, e); }
  }

  lemma PublishExactly(l: Limits, b: Buffer, e: Event)
    requires OneOfEach(b.events) && b.queuedBytes == TotalSize(b.events)
    ensures var (b1, r) := Publish(l, b, e); PublishAnswers(l, b, e, b1, r)
  {
    hide OneOfEach;
    hide TotalSize;
    hide Staying;
    if Listens(l, b, e) {
      TakenExactly(l, b, e);
      AllStayUnless(b.events, e);
      hide Publish;
      hide RoomFor;
      assert Staying(b.events, e) + [] == Staying(b.events, e);
    }
  }

  /** In every reached stream: `publish` answers as the queued events say; `get` hands out the
      oldest queued event, and nothing only if none is queued; `drain` hands out all. */
  lemma AnswersOverRuns(l: Limits, next: nat, ops: seq<Op>, e: Event)
    ensures var s := DoAll(l, next, ops);
            && PublishAnswers(l, s.buffer, e, Publish(l, s.buffer, e).0, Publish(l, s.buffer, e).1)
            && (Get(s.buffer).1.None? <==> s.buffer.events == [])
            && (s.buffer.events != [] ==> [Get(s.buffer).1.value] + Get(s.buffer).0.events == s.buffer.events)
            && Drain(s.buffer).1 + Drain(s.buffer).0.events == s.buffer.events && Drain(s.buffer).0.events == []
  {
    hide PublishAnswers;
    RunOk(l, next, ops);
    PublishExactly(l, DoAll(l, next, ops).buffer, e);
  }

  function Gets(n: nat): seq<Op> { seq(n, _ => DoGet) }

  lemma {:induction false} GetsDeliver(l: Limits, next: nat, ops: seq<Op>, n: nat)
    requires n <= |DoAll(l, next, ops).buffer.events|
    ensures var (s, t) := (DoAll(l, next, ops), DoAll(l, next, ops + Gets(n)));
            && t.delivered == s.delivered + s.buffer.events[..n] && t.buffer.events == s.buffer.events[n..]
            && t.accepted == s.accepted
    decreases n
  {
    hide DoAll;
    hide Do;
    hide Gets;
    var s := DoAll(l, next, ops);
    NoGets();
    if n == 0 {
      assert ops + [] == ops;
      assert s.delivered + [] == s.delivered;
    } else {
      GetsDeliver(l, next, ops, n - 1);
      OneMoreGet(l, next, ops, n);
      GetNext(l, DoAll(l, next, ops + Gets(n - 1)), s.delivered, s.buffer.events, n);
    }
  }

  lemma NoGets()
    ensures Gets(0) == []
  {
  }

  lemma OneMoreGet(l: Limits, next: nat, ops: seq<Op>, n: nat)
    requires n > 0
    ensures DoAll(l, next, ops + Gets(n)) == Do(l, DoAll(l, next, ops + Gets(n - 1)), DoGet)
  {
    hide Do;
    var all := ops + Gets(n);
    assert all[..|all| - 1] == ops + Gets(n - 1);
    assert all[|all| - 1] == DoGet;
  }

  lemma GetNext(l: Limits, t: Stream, before: seq<Event>, queue: seq<Event>, n: nat)
    requires 0 < n <= |queue| && t.delivered == before + queue[..n - 1] && t.buffer.events == queue[n - 1..]
    ensures var u := Do(l, t, DoGet);
            u.delivered == before + queue[..n] && u.buffer.events == queue[n..] && u.accepted == t.accepted
  {
    assert queue[n - 1..][1..] == queue[n..];
    assert queue[..n] == queue[..n - 1] + [queue[n - 1]];
  }

  /** A subscriber that keeps asking gets everything: with as many gets as events are queued the
      delivered output is all that was ever accepted, also from a buffer closed meanwhile. */
  lemma EverythingArrives(l: Limits, next: nat, ops: seq<Op>)
    ensures var s := DoAll(l, next, ops);
            var t := DoAll(l, next, ops + Gets(|s.buffer.events|));
            t.buffer.events == [] && Output(t.delivered) == Output(s.accepted)
  {
    var s := DoAll(l, next, ops);
    var n := |s.buffer.events|;
    GetsDeliver(l, next, ops, n);
    OutputIsLossless(l, next, ops);
    OutputIsLossless(l, next, ops + Gets(n));
    hide DoAll;
    assert Output([]) == [];
    hide Output;
    var t := DoAll(l, next, ops + Gets(n));
    assert Output(t.delivered) + [] == Output(t.delivered);
  }
}
