/** What the deterministic scheduler publishes about each request over whole runs: at most one
    end, nothing after it, and the confirmed release of its sequence right before it. */
module SchedulerEvents {
  import opened Basics
  import opened Simulator

  // ----- what is published -----

  function Trace(log: seq<Event>, id: string): seq<EventKind>
    decreases |log|
  {
    if log == [] then []
    else
      var e := log[|log| - 1];
      if e.requestId == id then Trace(log[..|log| - 1], id) + [e.kind] else Trace(log[..|log| - 1], id)
  }

  predicate IsEnd(k: EventKind) { k == RequestCompleted || k == RequestFailed }

  /** No release and no end among the events. */
  predicate Quiet(t: seq<EventKind>) { forall k :: 0 <= k < |t| ==> !IsEnd(t[k]) && t[k] != SequenceReleased }

  predicate EndsReleased(t: seq<EventKind>) { t != [] && t[|t| - 1] == SequenceReleased && Quiet(t[..|t| - 1]) }

  /** An active request has published neither a release nor an end. An ended one has published
      exactly one end, as its last event, right after the release of its sequence if it had
      one and the release was confirmed; only then may it have ended other than in error. */
  predicate TraceOk(t: seq<EventKind>, e: Entry) {
    if IsActive(e) then Quiet(t) && !e.releaseAttempted
    else
      && t != [] && e.termination.Some? && e.releaseAttempted == e.handle.Some?
      && t[|t| - 1] == (if e.termination == Some(Completed) then RequestCompleted else RequestFailed)
      && (if e.handle.None? then Quiet(t[..|t| - 1])
          else EndsReleased(t[..|t| - 1]) || (Quiet(t[..|t| - 1]) && e.termination == Some(BackendError)))
  }

  predicate DistinctIds(entries: seq<Entry>) {
    forall i, j :: 0 <= i < j < |entries| ==> entries[i].scheduling.requestId != entries[j].scheduling.requestId
  }

  predicate Published(sim: Sim) {
    && DistinctIds(sim.entries)
    && (forall k :: 0 <= k < |sim.log| ==> Find(sim.entries, sim.log[k].requestId).Some?)
    && forall i :: 0 <= i < |sim.entries| ==> TraceOk(Trace(sim.log, sim.entries[i].scheduling.requestId), sim.entries[i])
  }

  lemma {:induction false} FindFinds(entries: seq<Entry>, id: string)
    ensures Find(entries, id).Some? ==> Find(entries, id).value < |entries| && entries[Find(entries, id).value].scheduling.requestId == id
    ensures Find(entries, id).Some? <==> exists k :: 0 <= k < |entries| && entries[k].scheduling.requestId == id
    decreases |entries|
  {
    if entries != [] {
      var init := entries[..|entries| - 1];
      FindFinds(init, id);
      assert forall k :: 0 <= k < |init| ==> init[k] == entries[k];
      assert entries[|entries| - 1].scheduling.requestId == id ==> Find(entries, id).Some?;
    }
  }

  lemma {:induction false} TraceAdds(log: seq<Event>, more: seq<Event>, id: string)
    ensures Trace(log + more, id) == Trace(log, id) + Trace(more, id)
    decreases |more|
  {
    if more == [] {
      assert log + more == log;
    } else {
      TraceAdds(log, more[..|more| - 1], id);
      assert (log + more)[..|log + more| - 1] == log + more[..|more| - 1];
    }
  }

  lemma {:induction false} TraceOfOthers(more: seq<Event>, id: string)
    requires forall k :: 0 <= k < |more| ==> more[k].requestId != id
    ensures Trace(more, id) == []
    decreases |more|
  {
    if more != [] { TraceOfOthers(more[..|more| - 1], id); }
  }

  lemma {:induction false} TraceOfOwn(more: seq<Event>, id: string)
    requires forall k :: 0 <= k < |more| ==> more[k].requestId == id
    ensures |Trace(more, id)| == |more| && forall k :: 0 <= k < |more| ==> Trace(more, id)[k] == more[k].kind
    decreases |more|
  {
    if more != [] { TraceOfOwn(more[..|more| - 1], id); }
  }

  /** Rewriting one entry while publishing only about it. */
  lemma {:induction false} StepPublished(sim: Sim, i: nat, e: Entry, more: seq<Event>)
    requires Published(sim) && i < |sim.entries| && e.scheduling == sim.entries[i].scheduling
    requires forall k :: 0 <= k < |more| ==> more[k].requestId == e.scheduling.requestId
    requires TraceOk(Trace(sim.log, e.scheduling.requestId) + Trace(more, e.scheduling.requestId), e)
    ensures Published(Sim(sim.entries[i := e], sim.log + more))
  {
    hide TraceOk;
    var r := Sim(sim.entries[i := e], sim.log + more);
    forall j | 0 <= j < |r.entries|
      ensures TraceOk(Trace(r.log, r.entries[j].scheduling.requestId), r.entries[j])
    {
      var id := r.entries[j].scheduling.requestId;
      TraceAdds(sim.log, more, id);
      if j != i {
        assert id != e.scheduling.requestId;
        TraceOfOthers(more, id);
        assert Trace(sim.log, id) + [] == Trace(sim.log, id);
      }
    }
    forall k | 0 <= k < |r.log|
      ensures Find(r.entries, r.log[k].requestId).Some?
    {
      StillFound(sim, i, e, r.log[k].requestId);
    }
  }

  lemma StillFound(sim: Sim, i: nat, e: Entry, id: string)
    requires i < |sim.entries| && e.scheduling == sim.entries[i].scheduling
    ensures Find(sim.entries, id).Some? ==> Find(sim.entries[i := e], id).Some?
    ensures id == e.scheduling.requestId ==> Find(sim.entries[i := e], id).Some?
  {
    FindFinds(sim.entries, id);
    FindFinds(sim.entries[i := e], id);
    var after := sim.entries[i := e];
    assert forall k :: 0 <= k < |after| ==> after[k].scheduling == sim.entries[k].scheduling;
    assert after[i].scheduling.requestId == e.scheduling.requestId;
  }

  lemma QuietAdds(t: seq<EventKind>, more: seq<EventKind>)
    requires Quiet(t) && Quiet(more)
    ensures Quiet(t + more)
  {
  }

  lemma EndsOk(t: seq<EventKind>, e: Entry, termination: Termination, b: Backend)
    requires IsActive(e) && Quiet(t)
    ensures var id := e.scheduling.requestId;
            TraceOk(t + Trace(EndEvents(e, termination, b), id), Ended(e, termination, b))
  {
    var id := e.scheduling.requestId;
    var more := EndEvents(e, termination, b);
    TraceOfOwn(more, id);
    var r := t + Trace(more, id);
    assert |more| == 1 ==> r[..|r| - 1] == t;
    assert |more| == 2 ==> r[..|r| - 1] == t + [SequenceReleased] && (t + [SequenceReleased])[..|t|] == t;
  }

  lemma TerminalizePublished(sim: Sim, i: nat, termination: Termination, b: Backend)
    requires Published(sim) && i < |sim.entries|
    ensures Published(Terminalize(sim, i, termination, b))
  {
    hide Published;
    hide EndEvents;
    var e := sim.entries[i];
    if IsActive(e) {
      PublishedAt(sim, i);
      EndsOk(Trace(sim.log, e.scheduling.requestId), e, termination, b);
      EndEventsOwn(e, termination, b);
      StepPublished(sim, i, Ended(e, termination, b), EndEvents(e, termination, b));
    }
  }

  lemma EndEventsOwn(e: Entry, termination: Termination, b: Backend)
    ensures forall k :: 0 <= k < |EndEvents(e, termination, b)| ==> EndEvents(e, termination, b)[k].requestId == e.scheduling.requestId
  {
  }

  lemma PublishedAt(sim: Sim, i: nat)
    requires Published(sim) && i < |sim.entries|
    ensures TraceOk(Trace(sim.log, sim.entries[i].scheduling.requestId), sim.entries[i])
  {
  }

  lemma {:induction false} ExpirePublished(sim: Sim, now: real, b: Backend, n: nat)
    requires Published(sim) && n <= |sim.entries|
    ensures Published(Expire(sim, now, b, n))
    decreases n
  {
    hide Published;
    if n > 0 {
      ExpirePublished(sim, now, b, n - 1);
      TerminalizePublished(Expire(sim, now, b, n - 1), n - 1, DeadlineExceeded, b);
    }
  }

  /** A step that goes on publishes one event, and not a release or an end. */
  lemma ProgressPublished(sim: Sim, i: nat, e: Entry, kind: EventKind)
    requires Published(sim) && i < |sim.entries| && IsActive(sim.entries[i]) && IsActive(e) && !e.releaseAttempted
    requires e.scheduling == sim.entries[i].scheduling && !IsEnd(kind) && kind != SequenceReleased
    ensures Published(Publish(sim.(entries := sim.entries[i := e]), kind, e.scheduling.requestId))
  {
    hide Published;
    var id := e.scheduling.requestId;
    PublishedAt(sim, i);
    TraceOfOwn([Event(kind, id)], id);
    QuietAdds(Trace(sim.log, id), Trace([Event(kind, id)], id));
    StepPublished(sim, i, e, [Event(kind, id)]);
  }

  lemma ActPublished(p: Policy, sim: Sim, i: nat, b: Backend)
    requires Published(sim) && i < |sim.entries| && IsActive(sim.entries[i])
    ensures Published(Act(p, sim, i, b))
  {
    hide Published;
    hide Terminalize;
    hide Publish;
    hide Usable;
    var e := sim.entries[i];
    var id := e.scheduling.requestId;
    PublishedAt(sim, i);
    var next := e.(steps := e.steps + 1);
    TerminalizePublished(sim, i, BackendError, b);
    if e.lifecycle == Admitted && b.answer.Opens? {
      ProgressPublished(sim, i, next.(handle := b.answer.returned, lifecycle := Prefilling), SequenceOpened);
    } else if e.lifecycle == Prefilling {
      ProgressPublished(sim, i, next, PrefillCompleted);
      ProgressPublished(sim, i, next.(lifecycle := Decoding), PrefillCompleted);
    } else if e.lifecycle == Decoding {
      ProgressPublished(sim, i, next, DecodeCompleted);
      var s := Publish(sim.(entries := sim.entries[i := next]), DecodeCompleted, id);
      assert s.entries == sim.entries[i := next] by { PublishKeeps(sim.(entries := sim.entries[i := next]), DecodeCompleted, id); }
      TerminalizePublished(s, i, Completed, b);
      TerminalizePublished(s, i, BackendError, b);
    }
  }

  lemma PublishKeeps(sim: Sim, kind: EventKind, id: string)
    ensures Publish(sim, kind, id).entries == sim.entries
  {
  }

  lemma AdmitPublished(p: Policy, sim: Sim, now: real, s: Scheduling)
    requires Published(sim)
    ensures Published(Admit(p, sim, now, s).0)
  {
    hide TraceOk;
    var (r, outcome) := Admit(p, sim, now, s);
    if outcome == Accepted {
      var id := s.requestId;
      FindFinds(sim.entries, id);
      forall k | 0 <= k < |r.log|
        ensures Find(r.entries, r.log[k].requestId).Some?
      {
        assert r.entries[..|r.entries| - 1] == sim.entries;
      }
      forall j | 0 <= j < |r.entries|
        ensures TraceOk(Trace(r.log, r.entries[j].scheduling.requestId), r.entries[j])
      {
        var it := r.entries[j].scheduling.requestId;
        TraceAdds(sim.log, [Event(RequestAdmitted, id)], it);
        if j < |sim.entries| {
          TraceOfOthers([Event(RequestAdmitted, id)], it);
        } else {
          NewIsQuiet(sim, id, r.entries[j]);
        }
      }
    }
  }

  lemma NewIsQuiet(sim: Sim, id: string, e: Entry)
    requires Published(sim) && Find(sim.entries, id).None? && IsActive(e) && !e.releaseAttempted
    ensures TraceOk(Trace(sim.log, id) + Trace([Event(RequestAdmitted, id)], id), e)
  {
    TraceOfOthers(sim.log, id);
    TraceOfOwn([Event(RequestAdmitted, id)], id);
  }

  lemma DoPublished(p: Policy, sim: Sim, op: Op)
    requires PolicyOk(p) && Published(sim)
    ensures Published(Do(p, sim, op))
  {
    hide Published;
    hide Admit;
    hide Terminalize;
    hide Expire;
    hide Act;
    match op
    case DoAdmit(now, s) => AdmitPublished(p, sim, now, s);
    case DoCancel(_, id, b) =>
      var i := Find(sim.entries, id);
      if i.Some? && i.value < |sim.entries| { TerminalizePublished(sim, i.value, Cancelled, b); }
    case DoTick(now, b) =>
      ExpirePublished(sim, now, b, |sim.entries|);
      var s := Expire(sim, now, b, |sim.entries|);
      var chosen := Best(p, s.entries, now, |s.entries|);
      if chosen.Some? { ActPublished(p, s, chosen.value, b); }
  }

  /** In every run each request publishes at most one end, nothing after it, and the confirmed
      release of its sequence right before it. */
  lemma {:induction false} RunPublished(p: Policy, ops: seq<Op>)
    requires PolicyOk(p)
    ensures Published(Run(p, Start, ops))
    decreases |ops|
  {
    hide Do;
    if ops != [] {
      RunPublished(p, ops[..|ops| - 1]);
      DoPublished(p, Run(p, Start, ops[..|ops| - 1]), ops[|ops| - 1]);
    }
  }

  // ----- sequences the backend has opened -----

  /** The backend opened a sequence for an entry and returned something; did the entry keep it? */
  datatype Opening = Opening(entry: nat, returned: Option<Handle>, kept: bool)

  /** The opening a step of a run makes, if any. */
  function OpeningBy(p: Policy, sim: Sim, op: Op): Option<Opening>
    requires PolicyOk(p)
  {
    if !op.DoTick? then None
    else
      var s := Expire(sim, op.now, op.backend, |sim.entries|);
      var c := Best(p, s.entries, op.now, |s.entries|);
      if c.None? || s.entries[c.value].lifecycle != Admitted || !op.backend.answer.Opens? then None
      else Some(Opening(c.value, op.backend.answer.returned, Act(p, s, c.value, op.backend).entries[c.value].handle.Some?))
  }

  function Openings(p: Policy, ops: seq<Op>): seq<Opening>
    requires PolicyOk(p)
    decreases |ops|
  {
    if ops == [] then []
    else
      var o := OpeningBy(p, Run(p, Start, ops[..|ops| - 1]), ops[|ops| - 1]);
      Openings(p, ops[..|ops| - 1]) + if o.Some? then [o.value] else []
  }

  /** A sequence the backend has opened is kept exactly when what it returned is a handle, of
      this backend, for one of its models, and not another active request's. Otherwise the
      request ends in error and the handle is dropped. */
  lemma OpenedIsKeptExactly(p: Policy, sim: Sim, i: nat, b: Backend)
    requires i < |sim.entries| && sim.entries[i].lifecycle == Admitted && sim.entries[i].handle.None? && b.answer.Opens?
    ensures var (e, h) := (Act(p, sim, i, b).entries[i], b.answer.returned);
            && (e.handle.Some? <==>
                  h.Some? && h.value.backend == p.backend && h.value.model in p.models && !HandleTaken(sim.entries, i, h.value))
            && (e.handle.Some? ==> e.handle == h && e.lifecycle == Prefilling)
            && (e.handle.None? ==> && e.lifecycle == Terminal
                                   && Act(p, sim, i, b).log == sim.log + [Event(RequestFailed, e.scheduling.requestId)])
  {
    var e := sim.entries[i];
    assert EndEvents(e, BackendError, b) == [Event(RequestFailed, e.scheduling.requestId)];
  }

  /** Nobody has a handle before opening. */
  predicate Unopened(e: Entry) { e.lifecycle == Admitted ==> e.handle.None? }

  /** Once past admission an entry's handle is settled. */
  predicate SameHandle(now: Entry, was: Entry) {
    && (was.lifecycle != Admitted ==> now.handle == was.handle && now.lifecycle != Admitted)
    && (was.lifecycle == Terminal ==> now == was)
  }

  lemma {:induction false} ExpireHandle(sim: Sim, now: real, b: Backend, n: nat, g: nat)
    requires n <= |sim.entries| && g < |sim.entries|
    ensures var e := Expire(sim, now, b, n).entries[g];
            SameHandle(e, sim.entries[g]) && e.handle == sim.entries[g].handle && (e.lifecycle == sim.entries[g].lifecycle || e.lifecycle == Terminal)
    decreases n
  {
    if n > 0 { ExpireHandle(sim, now, b, n - 1, g); }
  }

  lemma ActHandle(p: Policy, sim: Sim, i: nat, b: Backend, g: nat)
    requires i < |sim.entries| && IsActive(sim.entries[i]) && g < |sim.entries| && Unopened(sim.entries[i])
    ensures var e := Act(p, sim, i, b).entries[g];
            && SameHandle(e, sim.entries[g]) && (g != i ==> e == sim.entries[g])
            && (g == i ==> Unopened(e) && (e.handle != sim.entries[g].handle ==> sim.entries[g].lifecycle == Admitted && b.answer.Opens?))
  {
    hide Usable;
  }

  /** What one step does to an entry's handle, told by the opening it makes. */
  lemma StepHandle(p: Policy, sim: Sim, op: Op, g: nat)
    requires PolicyOk(p) && g < |sim.entries| && (forall k :: 0 <= k < |sim.entries| ==> Unopened(sim.entries[k]))
    ensures |Do(p, sim, op).entries| >= |sim.entries|
    ensures var (e, o) := (Do(p, sim, op).entries[g], OpeningBy(p, sim, op));
            && SameHandle(e, sim.entries[g]) && Unopened(e)
            && (if o.Some? && o.value.entry == g
                then sim.entries[g].lifecycle == Admitted && OpeningOk(Do(p, sim, op), o.value)
                else e.handle == sim.entries[g].handle)
  {
    hide Expire;
    hide Act;
    if op.DoTick? {
      var n := |sim.entries|;
      var s := Expire(sim, op.now, op.backend, n);
      ExpireHandle(sim, op.now, op.backend, n, g);
      var c := Best(p, s.entries, op.now, |s.entries|);
      if c.Some? {
        ExpireHandle(sim, op.now, op.backend, n, c.value);
        ActHandle(p, s, c.value, op.backend, g);
        if s.entries[c.value].lifecycle == Admitted && op.backend.answer.Opens? { OpenedIsKeptExactly(p, s, c.value, op.backend); }
      }
    }
  }

  /** A kept opening is the entry's handle; a dropped one left an ended entry without one. */
  predicate OpeningOk(sim: Sim, o: Opening) {
    && o.entry < |sim.entries|
    && var e := sim.entries[o.entry];
    if o.kept then o.returned.Some? && e.handle == o.returned && e.lifecycle != Admitted
    else e.lifecycle == Terminal && e.handle.None?
  }

  predicate OpeningsOk(sim: Sim, os: seq<Opening>) {
    && (forall i :: 0 <= i < |sim.entries| ==> Unopened(sim.entries[i]))
    && (forall k :: 0 <= k < |os| ==> OpeningOk(sim, os[k]))
    && (forall j, k :: 0 <= j < k < |os| ==> os[j].entry != os[k].entry)
    && (forall i :: 0 <= i < |sim.entries| && sim.entries[i].handle.Some? ==> IsOpened(os, i))
  }

  predicate IsOpened(os: seq<Opening>, i: nat) { exists k :: 0 <= k < |os| && os[k].entry == i && os[k].kept }

  lemma NewEntryUnopened(p: Policy, sim: Sim, op: Op, g: nat)
    requires PolicyOk(p) && |sim.entries| <= g < |Do(p, sim, op).entries|
    ensures var e := Do(p, sim, op).entries[g]; e.handle.None? && e.lifecycle == Admitted
  {
    hide Tick;
    DoAdds(p, sim, op);
  }

  lemma OpeningInside(p: Policy, sim: Sim, op: Op)
    requires PolicyOk(p)
    ensures OpeningBy(p, sim, op).Some? ==> OpeningBy(p, sim, op).value.entry < |sim.entries|
  {
    hide Expire;
    hide Act;
  }

  lemma {:induction false} DoOpenings(p: Policy, sim: Sim, op: Op, os: seq<Opening>)
    requires PolicyOk(p) && OpeningsOk(sim, os)
    ensures var o := OpeningBy(p, sim, op);
            OpeningsOk(Do(p, sim, op), os + if o.Some? then [o.value] else [])
  {
    hide Do;
    hide OpeningBy;
    hide Unopened;
    hide SameHandle;
    var o := OpeningBy(p, sim, op);
    var sim1, more := Do(p, sim, op), os + if o.Some? then [o.value] else [];
    OpeningInside(p, sim, op);
    forall i | 0 <= i < |sim1.entries|
      ensures Unopened(sim1.entries[i]) && (sim1.entries[i].handle.Some? ==> IsOpened(more, i))
    {
      if i < |sim.entries| {
        StepHandle(p, sim, op, i);
        HandleTraced(sim, sim1, os, o, i);
      } else {
        NewEntryUnopened(p, sim, op, i);
        UnopenedWithout(sim1.entries[i]);
      }
    }
    forall k | 0 <= k < |more|
      ensures OpeningOk(sim1, more[k]) && forall j :: 0 <= j < k ==> more[j].entry != more[k].entry
    {
      StepHandle(p, sim, op, more[k].entry);
      if k < |os| {
        StillSettled(sim, sim1, os[k]);
      } else {
        FirstOpening(sim, os, o.value);
      }
    }
  }

  lemma UnopenedWithout(e: Entry)
    requires e.handle.None?
    ensures Unopened(e)
  {
  }

  lemma {:induction false} HandleTraced(sim: Sim, sim1: Sim, os: seq<Opening>, o: Option<Opening>, i: nat)
    requires i < |sim.entries| <= |sim1.entries| && (sim.entries[i].handle.Some? ==> IsOpened(os, i))
    requires if o.Some? && o.value.entry == i then OpeningOk(sim1, o.value) else sim1.entries[i].handle == sim.entries[i].handle
    ensures sim1.entries[i].handle.Some? ==> IsOpened(os + if o.Some? then [o.value] else [], i)
  {
    var more := os + if o.Some? then [o.value] else [];
    if sim1.entries[i].handle.Some? {
      if o.Some? && o.value.entry == i {
        assert more[|os|] == o.value;
      } else {
        var k :| 0 <= k < |os| && os[k].entry == i && os[k].kept;
        assert more[k] == os[k];
      }
    }
  }

  lemma StillSettled(sim: Sim, sim1: Sim, o: Opening)
    requires OpeningOk(sim, o) && |sim1.entries| >= |sim.entries| && SameHandle(sim1.entries[o.entry], sim.entries[o.entry])
    ensures OpeningOk(sim1, o)
  {
  }

  lemma {:induction false} FirstOpening(sim: Sim, os: seq<Opening>, o: Opening)
    requires (forall k :: 0 <= k < |os| ==> OpeningOk(sim, os[k])) && o.entry < |sim.entries| && sim.entries[o.entry].lifecycle == Admitted
    ensures forall j :: 0 <= j < |os| ==> os[j].entry != o.entry
  {
    forall j | 0 <= j < |os|
      ensures os[j].entry != o.entry
    {
      assert OpeningOk(sim, os[j]);
    }
  }

  lemma {:induction false} RunOpenings(p: Policy, ops: seq<Op>)
    requires PolicyOk(p)
    ensures OpeningsOk(Run(p, Start, ops), Openings(p, ops))
    decreases |ops|
  {
    hide Do;
    hide OpeningBy;
    hide OpeningsOk;
    if ops == [] {
      NothingOpened();
    } else {
      RunOpenings(p, ops[..|ops| - 1]);
      DoOpenings(p, Run(p, Start, ops[..|ops| - 1]), ops[|ops| - 1], Openings(p, ops[..|ops| - 1]));
    }
  }

  lemma NothingOpened()
    ensures OpeningsOk(Start, [])
  {
  }

  /** Over whole runs: the backend opens at most one sequence per request. One that was kept is
      released before its request's terminal event, or its release was attempted, not
      confirmed, and the request ended in error. One that was not kept is never released, and
      nothing else is released either: a release is always of a kept sequence. */
  lemma OpenedIsReleasedOrDropped(p: Policy, ops: seq<Op>, k: nat)
    requires PolicyOk(p) && k < |Openings(p, ops)|
    ensures var (sim, o) := (Run(p, Start, ops), Openings(p, ops)[k]);
            && o.entry < |sim.entries|
            && (forall j :: 0 <= j < |Openings(p, ops)| && j != k ==> Openings(p, ops)[j].entry != o.entry)
            && var (e, t) := (sim.entries[o.entry], Trace(sim.log, sim.entries[o.entry].scheduling.requestId));
            && (o.kept ==> e.handle == o.returned)
            && (o.kept && e.lifecycle == Terminal ==>
                  && t != [] && IsEnd(t[|t| - 1]) && e.releaseAttempted
                  && (EndsReleased(t[..|t| - 1]) || (Quiet(t[..|t| - 1]) && e.termination == Some(BackendError))))
            && (!o.kept ==> e.lifecycle == Terminal && e.termination.Some? && !e.releaseAttempted && SequenceReleased !in t)
  {
    hide Run;
    hide Openings;
    RunOpenings(p, ops);
    RunPublished(p, ops);
    var (sim, o) := (Run(p, Start, ops), Openings(p, ops)[k]);
    assert OpeningOk(sim, o);
    PublishedAt(sim, o.entry);
  }

  /** And the other way round: whatever has been released was opened and kept. */
  lemma ReleasedWasKept(p: Policy, ops: seq<Op>, i: nat)
    requires PolicyOk(p) && i < |Run(p, Start, ops).entries|
    requires SequenceReleased in Trace(Run(p, Start, ops).log, Run(p, Start, ops).entries[i].scheduling.requestId)
    ensures IsOpened(Openings(p, ops), i)
  {
    hide Run;
    hide Openings;
    RunOpenings(p, ops);
    RunPublished(p, ops);
    var sim := Run(p, Start, ops);
    PublishedAt(sim, i);
    var t := Trace(sim.log, sim.entries[i].scheduling.requestId);
    if sim.entries[i].handle.None? { NotReleasedYet(t, sim.entries[i]); }
  }

  lemma NotReleasedYet(t: seq<EventKind>, e: Entry)
    requires TraceOk(t, e) && e.handle.None?
    ensures SequenceReleased !in t
  {
    if !IsActive(e) { assert t == t[..|t| - 1] + [t[|t| - 1]]; }
  }

  // ----- runs in which openings are dropped -----

  predicate NoDeadlines(entries: seq<Entry>) { forall k :: 0 <= k < |entries| ==> entries[k].scheduling.deadline.None? }

  lemma {:induction false} NothingExpires(sim: Sim, now: real, b: Backend, n: nat)
    requires n <= |sim.entries| && NoDeadlines(sim.entries)
    ensures Expire(sim, now, b, n) == sim
    decreases n
  {
    if n > 0 { NothingExpires(sim, now, b, n - 1); }
  }

  /** A request without a deadline, admitted at time zero. */
  function Plain(id: string, class_: string): Scheduling { Scheduling(id, class_, 1, None) }

  function Waiting(s: Scheduling, order: nat): Entry { Entry(s, order, 0.0, Admitted, None, None, 0, false) }

  predicate Serves(p: Policy, class_: string) {
    PolicyOk(p) && class_ in p.priorities && p.maxRequests >= 2 && p.maxSequences >= 2
  }

  lemma FirstAdmitted(p: Policy, s: Scheduling)
    requires Serves(p, s.serviceClass) && s.deadline.None?
    ensures Admit(p, Start, 0.0, s).0 == Sim([Waiting(s, 0)], [Event(RequestAdmitted, s.requestId)])
  {
    assert [] + [Waiting(s, 0)] == [Waiting(s, 0)];
  }

  lemma OneBest(p: Policy, e: Entry)
    requires PolicyOk(p) && p.maxSequences >= 2 && e.lifecycle == Admitted && e.handle.None?
    ensures Best(p, [e], 0.0, 1) == Some(0)
  {
    assert [e][..0] == [];
    assert OpenHandles([e]) == 0;
    assert Best(p, [e], 0.0, 0).None?;
  }

  /** A handle of another backend or of an unknown model, although in nobody's use, is dropped. */
  lemma ForeignHandleIsDropped(p: Policy, id: string, class_: string, h: Handle, confirms: string -> bool)
    requires Serves(p, class_) && (h.backend != p.backend || h.model !in p.models)
    ensures Openings(p, [DoAdmit(0.0, Plain(id, class_)), DoTick(0.0, Backend(Opens(Some(h)), confirms))])
              == [Opening(0, Some(h), false)]
  {
    var s := Plain(id, class_);
    var b := Backend(Opens(Some(h)), confirms);
    var ops := [DoAdmit(0.0, s), DoTick(0.0, b)];
    FirstAdmitted(p, s);
    var sim := Sim([Waiting(s, 0)], [Event(RequestAdmitted, id)]);
    assert ops[..1] == [DoAdmit(0.0, s)] && ops[..1][..0] == [];
    assert Run(p, Start, ops[..1]) == sim;
    NothingExpires(sim, 0.0, b, 1);
    OneBest(p, sim.entries[0]);
    OpenedIsKeptExactly(p, sim, 0, b);
    assert OpeningBy(p, sim, ops[1]) == Some(Opening(0, Some(h), false));
    assert Openings(p, []) == [] && Openings(p, ops[..1]) == [];
  }

  lemma SecondAdmitted(p: Policy, s: Scheduling, s': Scheduling)
    requires Serves(p, s'.serviceClass) && s'.deadline.None? && s.requestId != s'.requestId
    ensures Admit(p, Sim([Waiting(s, 0)], [Event(RequestAdmitted, s.requestId)]), 0.0, s').0 ==
              Sim([Waiting(s, 0), Waiting(s', 1)], [Event(RequestAdmitted, s.requestId), Event(RequestAdmitted, s'.requestId)])
  {
    var one := [Waiting(s, 0)];
    assert one[..0] == [];
    assert Find(one, s'.requestId).None?;
    assert ActiveCount(one) == 1;
    assert one + [Waiting(s', 1)] == [Waiting(s, 0), Waiting(s', 1)];
  }

  /** Of two entries admitted together the one with less service is chosen, the first of equals. */
  lemma BestOfTwo(p: Policy, a: Entry, b: Entry)
    requires PolicyOk(p) && p.maxSequences >= 2 && IsActive(a) && b.lifecycle == Admitted && b.handle.None? && !b.releaseAttempted
    requires a.admittedAt == b.admittedAt == 0.0 && a.scheduling.weight == b.scheduling.weight == 1
    requires a.scheduling.serviceClass == b.scheduling.serviceClass && a.scheduling.deadline == b.scheduling.deadline
    requires a.order < b.order && b.steps == 0 && (a.lifecycle == Admitted ==> a.handle.None?)
    ensures Best(p, [a, b], 0.0, 2) == Some(if a.steps == 0 then 0 else 1)
  {
    var both := [a, b];
    assert both[..1] == [a] && [a][..0] == [];
    assert OpenHandles([a]) <= 1 && OpenHandles(both) <= 1;
    assert Age(p, a, 0.0) == 0.0 && Age(p, b, 0.0) == 0.0;
    assert Served(a) == a.steps as real && Served(b) == 0.0;
    assert Best(p, both, 0.0, 0).None?;
    assert Best(p, both, 0.0, 1) == Some(0);
    hide OpenHandles;
  }

  lemma SharedNext(p: Policy, sim: Sim, s: Scheduling, s': Scheduling, h: Handle, b: Backend)
    requires sim.entries == [Waiting(s, 0), Waiting(s', 1)] && b.answer == Opens(Some(h)) && h.backend == p.backend && h.model in p.models
    ensures Act(p, sim, 0, b).entries == [Waiting(s, 0).(handle := Some(h), lifecycle := Prefilling, steps := 1), Waiting(s', 1)]
  {
    assert !HandleTaken(sim.entries, 0, h);
  }

  function Both(s: Scheduling, s': Scheduling): seq<Entry> { [Waiting(s, 0), Waiting(s', 1)] }

  lemma TwoAdmitted(p: Policy, s: Scheduling, s': Scheduling)
    requires Serves(p, s.serviceClass) && Serves(p, s'.serviceClass) && s.deadline.None? && s'.deadline.None? && s.requestId != s'.requestId
    ensures Run(p, Start, [DoAdmit(0.0, s), DoAdmit(0.0, s')]).entries == Both(s, s')
  {
    var ops := [DoAdmit(0.0, s), DoAdmit(0.0, s')];
    assert ops[..1] == [DoAdmit(0.0, s)] && ops[..1][..0] == [];
    hide Admit;
    FirstAdmitted(p, s);
    SecondAdmitted(p, s, s');
    assert Run(p, Start, ops[..1]) == Admit(p, Start, 0.0, s).0;
  }

  lemma FirstOpens(p: Policy, sim: Sim, s: Scheduling, s': Scheduling, h: Handle, b: Backend)
    requires PolicyOk(p) && p.maxSequences >= 2 && sim.entries == Both(s, s') && s.weight == s'.weight == 1
    requires s.serviceClass == s'.serviceClass && s.deadline.None? && s'.deadline.None?
    requires b.answer == Opens(Some(h)) && h.backend == p.backend && h.model in p.models
    ensures OpeningBy(p, sim, DoTick(0.0, b)) == Some(Opening(0, Some(h), true))
    ensures Do(p, sim, DoTick(0.0, b)).entries == [Waiting(s, 0).(handle := Some(h), lifecycle := Prefilling, steps := 1), Waiting(s', 1)]
  {
    hide Best;
    hide Act;
    NothingExpires(sim, 0.0, b, 2);
    BestOfTwo(p, sim.entries[0], sim.entries[1]);
    SharedNext(p, sim, s, s', h, b);
  }

  lemma SecondOpens(p: Policy, sim: Sim, s: Scheduling, s': Scheduling, h: Handle, b: Backend)
    requires PolicyOk(p) && p.maxSequences >= 2 && s.weight == s'.weight == 1
    requires sim.entries == [Waiting(s, 0).(handle := Some(h), lifecycle := Prefilling, steps := 1), Waiting(s', 1)]
    requires s.serviceClass == s'.serviceClass && s.deadline.None? && s'.deadline.None? && b.answer == Opens(Some(h))
    ensures OpeningBy(p, sim, DoTick(0.0, b)) == Some(Opening(1, Some(h), false))
  {
    hide Best;
    hide Act;
    NothingExpires(sim, 0.0, b, 2);
    BestOfTwo(p, sim.entries[0], sim.entries[1]);
    OpenedIsKeptExactly(p, sim, 1, b);
    assert HandleTaken(sim.entries, 1, h) by { assert sim.entries[0].handle == Some(h); }
  }

  lemma TwoOpenings(p: Policy, ops: seq<Op>, opens: Op)
    requires PolicyOk(p) && |ops| == 4 && ops[0].DoAdmit? && ops[1].DoAdmit? && ops[2] == ops[3] == opens
    requires OpeningBy(p, Run(p, Start, ops[..2]), opens).Some? && OpeningBy(p, Run(p, Start, ops[..3]), opens).Some?
    ensures Openings(p, ops) == [OpeningBy(p, Run(p, Start, ops[..2]), opens).value, OpeningBy(p, Run(p, Start, ops[..3]), opens).value]
  {
    hide Run;
    assert ops[..3][..2] == ops[..2] && ops[..2][..1] == ops[..1] && ops[..1][..0] == [];
    assert OpeningBy(p, Run(p, Start, ops[..1]), ops[1]).None? && OpeningBy(p, Run(p, Start, ops[..0]), ops[0]).None?;
    assert Openings(p, ops[..1]) == [] && Openings(p, ops[..2]) == [];
  }

  /** Two requests given one handle: the first keeps it, the second's opening is dropped. */
  lemma SharedHandleIsDropped(p: Policy, id: string, id': string, class_: string, h: Handle, confirms: string -> bool)
    requires Serves(p, class_) && id != id' && h.backend == p.backend && h.model in p.models
    ensures var opens := DoTick(0.0, Backend(Opens(Some(h)), confirms));
            Openings(p, [DoAdmit(0.0, Plain(id, class_)), DoAdmit(0.0, Plain(id', class_)), opens, opens])
              == [Opening(0, Some(h), true), Opening(1, Some(h), false)]
  {
    hide Do;
    hide OpeningBy;
    var s, s', b := Plain(id, class_), Plain(id', class_), Backend(Opens(Some(h)), confirms);
    var opens := DoTick(0.0, b);
    var ops := [DoAdmit(0.0, s), DoAdmit(0.0, s'), opens, opens];
    assert ops[..2] == [DoAdmit(0.0, s), DoAdmit(0.0, s')] && ops[..3][..2] == ops[..2];
    TwoAdmitted(p, s, s');
    var two := Run(p, Start, ops[..2]);
    FirstOpens(p, two, s, s', h, b);
    assert Run(p, Start, ops[..3]) == Do(p, two, opens);
    SecondOpens(p, Run(p, Start, ops[..3]), s, s', h, b);
    TwoOpenings(p, ops, opens);
  }
}
