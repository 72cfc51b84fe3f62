/** The deterministic reference scheduler. */
module Simulator {
  // The deterministic scheduler (inference_runtime/simulator.py): requests age towards the
  // front, service pushes them back, and each tick performs one backend action for the best.
  // The clock and the backend's answers are inputs.

  import opened Basics

  /** The scoring policy, and what the backend says of itself: its capacities, name and models. */
  datatype Policy = Policy(
    priorities: map<string, int>, agingInterval: real, maxRequests: nat, maxSequences: nat, backend: string, models: set<string>)

  datatype Scheduling = Scheduling(requestId: string, serviceClass: string, weight: Positive, deadline: Option<real>)

  datatype Lifecycle = Admitted | Prefilling | Decoding | Terminal
  datatype Termination = Completed | Cancelled | DeadlineExceeded | BackendError

  datatype Handle = Handle(backend: string, model: string, sequence: string, generation: nat)

  datatype Entry = Entry(
    scheduling: Scheduling, order: nat, admittedAt: real, lifecycle: Lifecycle, termination: Option<Termination>,
    handle: Option<Handle>, steps: nat, releaseAttempted: bool)

  datatype EventKind = RequestAdmitted | SequenceOpened | PrefillCompleted | DecodeCompleted | SequenceReleased | RequestCompleted | RequestFailed
  datatype Event = Event(kind: EventKind, requestId: string)

  /** Entries in admission order, and the events published so far. */
  datatype Sim = Sim(entries: seq<Entry>, log: seq<Event>)

  const Start := Sim([], [])

  /** What the backend does when asked for the step of the chosen request. An opening returns a
      handle, or something that is none. */
  datatype Answer = Raises | Opens(returned: Option<Handle>) | PrefillContinues | PrefillReady | DecodeContinues | DecodeFinished | DecodeFailed

  /** The answers of one call: the step's, and whether a release is confirmed, per request. */
  datatype Backend = Backend(answer: Answer, confirms: string -> bool)

  predicate PolicyOk(p: Policy) { p.agingInterval > 0.0 }

  predicate IsActive(e: Entry) { e.lifecycle != Terminal }

  function ActiveCount(entries: seq<Entry>): nat
    decreases |entries|
  {
    if entries == [] then 0 else ActiveCount(entries[..|entries| - 1]) + if IsActive(entries[|entries| - 1]) then 1 else 0
  }

  function OpenHandles(entries: seq<Entry>): nat
    decreases |entries|
  {
    if entries == [] then 0
    else
      var e := entries[|entries| - 1];
      OpenHandles(entries[..|entries| - 1]) + if IsActive(e) && e.handle.Some? && !e.releaseAttempted then 1 else 0
  }

  function Find(entries: seq<Entry>, id: string): Option<nat>
    decreases |entries|
  {
    if entries == [] then None
    else if entries[|entries| - 1].scheduling.requestId == id then Some(|entries| - 1)
    else Find(entries[..|entries| - 1], id)
  }

  function Publish(sim: Sim, kind: EventKind, id: string): Sim { sim.(log := sim.log + [Event(kind, id)]) }

  // ----- admit -----

  datatype Admission = Accepted | DuplicateRequest | UnknownServiceClass | DeadlineElapsed | NoCapacity

  function Admit(p: Policy, sim: Sim, now: real, s: Scheduling): (Sim, Admission) {
    if Find(sim.entries, s.requestId).Some? then (sim, DuplicateRequest)
    else if s.serviceClass !in p.priorities then (sim, UnknownServiceClass)
    else if s.deadline.Some? && s.deadline.value <= now then (sim, DeadlineElapsed)
    else if ActiveCount(sim.entries) >= p.maxRequests then (sim, NoCapacity)
    else
      var e := Entry(s, |sim.entries|, now, Admitted, None, None, 0, false);
      (Publish(sim.(entries := sim.entries + [e]), RequestAdmitted, s.requestId), Accepted)
  }

  // ----- terminalize -----

  /** Does ending `e` leave it released, given the backend's answer? */
  predicate Confirmed(e: Entry, b: Backend) { e.handle.None? || b.confirms(e.scheduling.requestId) }

  function Ended(e: Entry, termination: Termination, b: Backend): Entry {
    e.(lifecycle := Terminal, releaseAttempted := e.handle.Some?,
       termination := Some(if Confirmed(e, b) then termination else BackendError))
  }

  function EndEvents(e: Entry, termination: Termination, b: Backend): seq<Event> {
    (if e.handle.Some? && Confirmed(e, b) then [Event(SequenceReleased, e.scheduling.requestId)] else [])
    + [Event(if Confirmed(e, b) && termination == Completed then RequestCompleted else RequestFailed, e.scheduling.requestId)]
  }

  /** Releases the sequence if there is one, then publishes the one terminal event. */
  function Terminalize(sim: Sim, i: nat, termination: Termination, b: Backend): Sim
    requires i < |sim.entries|
  {
    var e := sim.entries[i];
    if e.lifecycle == Terminal then sim
    else Sim(sim.entries[i := Ended(e, termination, b)], sim.log + EndEvents(e, termination, b))
  }

  function Cancel(sim: Sim, id: string, b: Backend): (Sim, bool) {
    var i := Find(sim.entries, id);
    if i.None? || i.value >= |sim.entries| || sim.entries[i.value].lifecycle == Terminal then (sim, false)
    else (Terminalize(sim, i.value, Cancelled, b), true)
  }

  // ----- tick -----

  predicate IsDue(e: Entry, now: real) { IsActive(e) && e.scheduling.deadline.Some? && e.scheduling.deadline.value <= now }

  /** Ends the overdue among the first `n` entries, in admission order. */
  function Expire(sim: Sim, now: real, b: Backend, n: nat): (r: Sim)
    requires n <= |sim.entries|
    ensures |r.entries| == |sim.entries|
    decreases n
  {
    if n == 0 then sim
    else
      var s := Expire(sim, now, b, n - 1);
      if IsDue(s.entries[n - 1], now) then Terminalize(s, n - 1, DeadlineExceeded, b) else s
  }

  predicate IsEligible(p: Policy, entries: seq<Entry>, i: nat)
    requires i < |entries|
  {
    IsActive(entries[i]) && (entries[i].lifecycle != Admitted || OpenHandles(entries) < p.maxSequences)
  }

  /** Truncation towards zero, as `int` does. */
  function Truncate(x: real): int { if x >= 0.0 then x.Floor else -((-x).Floor) }

  function Priority(p: Policy, e: Entry): int { if e.scheduling.serviceClass in p.priorities then p.priorities[e.scheduling.serviceClass] else 0 }

  /** Time waited, in aging intervals. */
  function Age(p: Policy, e: Entry, now: real): real
    requires PolicyOk(p)
  {
    (now - e.admittedAt) / p.agingInterval
  }

  /** Steps had, by weight. */
  function Served(e: Entry): real { e.steps as real / e.scheduling.weight as real }

  function Score(p: Policy, e: Entry, now: real): real
    requires PolicyOk(p)
  {
    (Priority(p, e) + Truncate(Age(p, e, now))) as real - Served(e)
  }

  predicate Sooner(a: Option<real>, b: Option<real>) { a.Some? && (b.None? || a.value < b.value) }

  /** The order of the selection keys: score, then deadline, then admission. */
  predicate Before(p: Policy, a: Entry, b: Entry, now: real)
    requires PolicyOk(p)
  {
    if Score(p, a, now) != Score(p, b, now) then Score(p, a, now) > Score(p, b, now)
    else if a.scheduling.deadline != b.scheduling.deadline then Sooner(a.scheduling.deadline, b.scheduling.deadline)
    else a.order < b.order
  }

  /** The best of the eligible among the first `n` entries. */
  function Best(p: Policy, entries: seq<Entry>, now: real, n: nat): (r: Option<nat>)
    requires PolicyOk(p) && n <= |entries|
    ensures r.Some? ==> r.value < n && IsEligible(p, entries, r.value)
    decreases n
  {
    if n == 0 then None
    else
      var best := Best(p, entries, now, n - 1);
      if !IsEligible(p, entries, n - 1) then best
      else if best.None? || Before(p, entries[n - 1], entries[best.value], now) then Some(n - 1)
      else best
  }

  /** Another active entry owns this handle. */
  predicate HandleTaken(entries: seq<Entry>, i: nat, h: Handle) {
    exists j :: 0 <= j < |entries| && j != i && IsActive(entries[j]) && entries[j].handle == Some(h)
  }

  /** The checks on what an opening returned: a handle of this backend, for one of its models,
      in nobody else's use. */
  predicate Usable(p: Policy, entries: seq<Entry>, i: nat, returned: Option<Handle>) {
    && returned.Some? && returned.value.backend == p.backend && returned.value.model in p.models
    && !HandleTaken(entries, i, returned.value)
  }

  /** One backend action for entry `i`; an answer that does not fit is an error. */
  function Act(p: Policy, sim: Sim, i: nat, b: Backend): (r: Sim)
    requires i < |sim.entries|
    ensures |r.entries| == |sim.entries|
  {
    var e := sim.entries[i];
    var id := e.scheduling.requestId;
    var next := e.(steps := e.steps + 1);
    match (e.lifecycle, b.answer)
    case (Admitted, Opens(returned)) =>
      if !Usable(p, sim.entries, i, returned) then Terminalize(sim, i, BackendError, b)
      else Publish(sim.(entries := sim.entries[i := next.(handle := returned, lifecycle := Prefilling)]), SequenceOpened, id)
    case (Prefilling, PrefillContinues) => Publish(sim.(entries := sim.entries[i := next]), PrefillCompleted, id)
    case (Prefilling, PrefillReady) => Publish(sim.(entries := sim.entries[i := next.(lifecycle := Decoding)]), PrefillCompleted, id)
    case (Decoding, DecodeContinues) => Publish(sim.(entries := sim.entries[i := next]), DecodeCompleted, id)
    case (Decoding, DecodeFinished) =>
      Terminalize(Publish(sim.(entries := sim.entries[i := next]), DecodeCompleted, id), i, Completed, b)
    case (Decoding, DecodeFailed) =>
      Terminalize(Publish(sim.(entries := sim.entries[i := next]), DecodeCompleted, id), i, BackendError, b)
    case _ => Terminalize(sim, i, BackendError, b)
  }

  function Tick(p: Policy, sim: Sim, now: real, b: Backend): (Sim, Option<nat>)
    requires PolicyOk(p)
  {
    var s := Expire(sim, now, b, |sim.entries|);
    var chosen := Best(p, s.entries, now, |s.entries|);
    (if chosen.Some? then Act(p, s, chosen.value, b) else s, chosen)
  }

  // ----- the choice -----

  lemma BeforeTransitive(p: Policy, a: Entry, b: Entry, c: Entry, now: real)
    requires PolicyOk(p) && !Before(p, b, a, now) && !Before(p, c, b, now)
    ensures !Before(p, c, a, now)
  {
    hide Score;
  }

  lemma BeforeAsymmetric(p: Policy, a: Entry, b: Entry, now: real)
    requires PolicyOk(p) && Before(p, a, b, now)
    ensures !Before(p, b, a, now)
  {
    hide Score;
  }

  /** Nobody eligible comes before the choice, and there is a choice if anybody is eligible. */
  lemma {:induction false} BestIsBest(p: Policy, entries: seq<Entry>, now: real, n: nat, k: nat)
    requires PolicyOk(p) && k < n <= |entries| && IsEligible(p, entries, k)
    ensures var r := Best(p, entries, now, n); r.Some? && !Before(p, entries[k], entries[r.value], now)
    decreases n
  {
    hide Before;
    hide IsEligible;
    BeforeIrreflexive(p, entries[k], now);
    if k < n - 1 {
      BestIsBest(p, entries, now, n - 1, k);
      var best := Best(p, entries, now, n - 1);
      if IsEligible(p, entries, n - 1) && Before(p, entries[n - 1], entries[best.value], now) {
        BeforeAsymmetric(p, entries[n - 1], entries[best.value], now);
        BeforeTransitive(p, entries[n - 1], entries[best.value], entries[k], now);
      }
    }
  }

  lemma BeforeIrreflexive(p: Policy, a: Entry, now: real)
    requires PolicyOk(p)
    ensures !Before(p, a, a, now)
  {
  }

  // ----- overtaking -----

  /** `f` may be chosen over `e` only with fewer than weight times this many steps. */
  function Lead(p: Policy, f: Entry, e: Entry): real
    requires PolicyOk(p)
  {
    (Priority(p, f) - Priority(p, e)) as real + (e.admittedAt - f.admittedAt) / p.agingInterval + 1.0 + Served(e)
  }

  function Ceiling(x: real): int { -((-x).Floor) }

  /** How often `f` can overtake `e`, counted from no steps. */
  function Quota(p: Policy, f: Entry, e: Entry): nat
    requires PolicyOk(p)
  {
    var c := Ceiling(f.scheduling.weight as real * Lead(p, f, e));
    if c < 0 then 0 else c
  }

  lemma FloorsApart(x: real, y: real)
    requires x >= 0.0 && y >= 0.0
    ensures (Truncate(x) - Truncate(y)) as real < x - y + 1.0
  {
  }

  lemma AgesApart(p: Policy, f: Entry, e: Entry, now: real)
    requires PolicyOk(p)
    ensures Age(p, f, now) - Age(p, e, now) == (e.admittedAt - f.admittedAt) / p.agingInterval
    ensures now >= f.admittedAt ==> Age(p, f, now) >= 0.0
  {
    var a, b, i := now - f.admittedAt, now - e.admittedAt, p.agingInterval;
    assert a / i - b / i == (a - b) / i;
  }

  lemma ServedIsBelow(p: Policy, f: Entry, e: Entry, now: real)
    requires PolicyOk(p) && now >= f.admittedAt && now >= e.admittedAt && !Before(p, e, f, now)
    ensures Served(f) < Lead(p, f, e)
  {
    AgesApart(p, f, e, now);
    AgesApart(p, e, f, now);
    hide Age;
    hide Served;
    FloorsApart(Age(p, f, now), Age(p, e, now));
    hide Truncate;
  }

  lemma ScaleUp(steps: nat, weight: Positive, lead: real)
    requires steps as real / weight as real < lead
    ensures steps as real < weight as real * lead
  {
    var w := weight as real;
    assert steps as real / w * w == steps as real;
    assert (lead - steps as real / w) * w > 0.0;
  }

  /** Bounded overtaking, one tick: `f` is chosen although `e` could run only while its steps
      are below weight * (priority gap + admission gap in aging intervals + 1 + e's own
      normalized service). */
  lemma OvertakingIsBounded(p: Policy, f: Entry, e: Entry, now: real)
    requires PolicyOk(p) && now >= f.admittedAt && now >= e.admittedAt && !Before(p, e, f, now)
    ensures f.steps as real < f.scheduling.weight as real * Lead(p, f, e)
  {
    hide Lead;
    hide Before;
    ServedIsBelow(p, f, e, now);
    ScaleUp(f.steps, f.scheduling.weight, Lead(p, f, e));
  }

  lemma WithinQuota(p: Policy, f: Entry, e: Entry)
    requires PolicyOk(p) && f.steps as real < f.scheduling.weight as real * Lead(p, f, e)
    ensures f.steps < Quota(p, f, e)
  {
    var x := f.scheduling.weight as real * Lead(p, f, e);
    assert Ceiling(x) as real >= x;
  }

  /** A request admitted late enough never overtakes. */
  lemma LateArrivalsNever(p: Policy, f: Entry, e: Entry)
    requires PolicyOk(p)
    requires (f.admittedAt - e.admittedAt) / p.agingInterval >=
               (Priority(p, f) - Priority(p, e)) as real + 1.0 + Served(e)
    ensures Quota(p, f, e) == 0
  {
    var i := p.agingInterval;
    assert (e.admittedAt - f.admittedAt) / i == -((f.admittedAt - e.admittedAt) / i);
    assert Lead(p, f, e) <= 0.0;
    var x := f.scheduling.weight as real * Lead(p, f, e);
    assert x <= 0.0;
  }

  // ----- runs -----

  datatype Op =
    | DoAdmit(now: real, scheduling: Scheduling)
    | DoCancel(now: real, requestId: string, backend: Backend)
    | DoTick(now: real, backend: Backend)

  function Do(p: Policy, sim: Sim, op: Op): Sim
    requires PolicyOk(p)
  {
    match op
    case DoAdmit(now, s) => Admit(p, sim, now, s).0
    case DoCancel(_, id, b) => Cancel(sim, id, b).0
    case DoTick(now, b) => Tick(p, sim, now, b).0
  }

  function Run(p: Policy, sim: Sim, ops: seq<Op>): Sim
    requires PolicyOk(p)
    decreases |ops|
  {
    if ops == [] then sim else Do(p, Run(p, sim, ops[..|ops| - 1]), ops[|ops| - 1])
  }

  /** The clock never goes back. */
  predicate Monotone(clock: real, ops: seq<Op>) {
    && (forall k :: 0 <= k < |ops| ==> ops[k].now >= clock)
    && (forall i, j :: 0 <= i < j < |ops| ==> ops[i].now <= ops[j].now)
  }

  function ClockAfter(clock: real, ops: seq<Op>): real { if ops == [] then clock else ops[|ops| - 1].now }

  predicate AdmittedBy(sim: Sim, clock: real) { forall k :: 0 <= k < |sim.entries| ==> sim.entries[k].admittedAt <= clock }

  /** The part of an entry that never changes, and the ways the rest may. */
  predicate Continues(now: Entry, was: Entry, chosen: bool) {
    && now.scheduling == was.scheduling && now.admittedAt == was.admittedAt && now.order == was.order
    && (!IsActive(was) ==> now == was)
    && (if chosen then now.steps == was.steps + 1 || (now.steps == was.steps && !IsActive(now)) else now.steps == was.steps)
  }

  lemma {:induction false} ExpireContinues(sim: Sim, now: real, b: Backend, n: nat, g: nat)
    requires n <= |sim.entries| && g < |sim.entries|
    ensures var r := Expire(sim, now, b, n).entries[g];
            Continues(r, sim.entries[g], false) && (IsActive(r) ==> r == sim.entries[g])
    decreases n
  {
    if n > 0 { ExpireContinues(sim, now, b, n - 1, g); }
  }

  lemma ActContinues(p: Policy, sim: Sim, i: nat, b: Backend, g: nat)
    requires i < |sim.entries| && IsActive(sim.entries[i]) && g < |sim.entries|
    ensures Continues(Act(p, sim, i, b).entries[g], sim.entries[g], g == i)
    ensures g != i ==> Act(p, sim, i, b).entries[g] == sim.entries[g]
  {
  }

  /** The request a step of the run selects, if any. */
  function ChosenBy(p: Policy, sim: Sim, op: Op): Option<nat>
    requires PolicyOk(p)
  {
    if op.DoTick? then Tick(p, sim, op.now, op.backend).1 else None
  }

  lemma TickContinues(p: Policy, sim: Sim, now: real, b: Backend, g: nat)
    requires PolicyOk(p) && g < |sim.entries|
    ensures var (sim1, chosen) := Tick(p, sim, now, b);
            |sim1.entries| == |sim.entries| && Continues(sim1.entries[g], sim.entries[g], chosen == Some(g))
  {
    hide Act;
    hide Expire;
    var s := Expire(sim, now, b, |sim.entries|);
    ExpireContinues(sim, now, b, |sim.entries|, g);
    var chosen := Best(p, s.entries, now, |s.entries|);
    if chosen.Some? { ActContinues(p, s, chosen.value, b, g); }
  }

  lemma DoContinues(p: Policy, sim: Sim, op: Op, g: nat)
    requires PolicyOk(p) && g < |sim.entries|
    ensures var sim1 := Do(p, sim, op);
            |sim1.entries| >= |sim.entries| && Continues(sim1.entries[g], sim.entries[g], ChosenBy(p, sim, op) == Some(g))
  {
    hide Tick;
    if op.DoTick? { TickContinues(p, sim, op.now, op.backend, g); }
  }

  lemma DoAdds(p: Policy, sim: Sim, op: Op)
    requires PolicyOk(p)
    ensures var sim1 := Do(p, sim, op);
            || |sim1.entries| == |sim.entries|
            || (op.DoAdmit? && |sim1.entries| == |sim.entries| + 1 && sim1.entries[|sim.entries|].steps == 0
                && sim1.entries[|sim.entries|].admittedAt == op.now)
  {
    hide Tick;
    if op.DoTick? && sim.entries != [] { TickContinues(p, sim, op.now, op.backend, 0); }
    if op.DoTick? && sim.entries == [] { NothingToTick(p, sim, op.now, op.backend); }
  }

  lemma NothingToTick(p: Policy, sim: Sim, now: real, b: Backend)
    requires PolicyOk(p) && sim.entries == []
    ensures Tick(p, sim, now, b) == (sim, None)
  {
  }

  lemma {:induction false} RunAdmittedBy(p: Policy, sim: Sim, ops: seq<Op>, clock: real)
    requires PolicyOk(p) && AdmittedBy(sim, clock) && Monotone(clock, ops)
    ensures AdmittedBy(Run(p, sim, ops), ClockAfter(clock, ops))
    decreases |ops|
  {
    hide Do;
    hide Continues;
    if ops != [] {
      var init, op := ops[..|ops| - 1], ops[|ops| - 1];
      RunAdmittedBy(p, sim, init, clock);
      var s := Run(p, sim, init);
      DoAdds(p, s, op);
      forall k | 0 <= k < |Do(p, s, op).entries|
        ensures Do(p, s, op).entries[k].admittedAt <= op.now
      {
        if k < |s.entries| { KeepsAdmission(p, s, op, k); }
      }
    }
  }

  lemma KeepsAdmission(p: Policy, sim: Sim, op: Op, g: nat)
    requires PolicyOk(p) && g < |sim.entries|
    ensures |Do(p, sim, op).entries| > g && Do(p, sim, op).entries[g].admittedAt == sim.entries[g].admittedAt
  {
    hide Do;
    DoContinues(p, sim, op, g);
  }

  /** Entry `k` could have run at every tick of the run, and was never chosen. */
  predicate Waits(p: Policy, sim: Sim, ops: seq<Op>, k: nat)
    requires PolicyOk(p)
    decreases |ops|
  {
    ops == [] ||
    var s, op := Run(p, sim, ops[..|ops| - 1]), ops[|ops| - 1];
    && Waits(p, sim, ops[..|ops| - 1], k)
    && (op.DoTick? ==> CouldRun(p, s, op.now, op.backend, k) && ChosenBy(p, s, op) != Some(k))
  }

  predicate CouldRun(p: Policy, sim: Sim, now: real, b: Backend, k: nat) {
    k < |sim.entries| && IsEligible(p, Expire(sim, now, b, |sim.entries|).entries, k)
  }

  function Selections(p: Policy, sim: Sim, ops: seq<Op>, g: nat): nat
    requires PolicyOk(p)
    decreases |ops|
  {
    if ops == [] then 0
    else
      Selections(p, sim, ops[..|ops| - 1], g)
      + if ChosenBy(p, Run(p, sim, ops[..|ops| - 1]), ops[|ops| - 1]) == Some(g) then 1 else 0
  }

  lemma {:induction false} NotYetSelected(p: Policy, sim: Sim, ops: seq<Op>, g: nat)
    requires PolicyOk(p) && g >= |Run(p, sim, ops).entries|
    ensures Selections(p, sim, ops, g) == 0 && g >= |sim.entries|
    decreases |ops|
  {
    hide Do;
    hide Tick;
    if ops != [] {
      var s, op := Run(p, sim, ops[..|ops| - 1]), ops[|ops| - 1];
      DoAdds(p, s, op);
      NotYetSelected(p, sim, ops[..|ops| - 1], g);
      ChosenExists(p, s, op);
    }
  }

  lemma ChosenExists(p: Policy, sim: Sim, op: Op)
    requires PolicyOk(p)
    ensures ChosenBy(p, sim, op).Some? ==> ChosenBy(p, sim, op).value < |sim.entries|
  {
  }

  /** A tick at which `k` could run chooses somebody within quota. */
  lemma TickChooses(p: Policy, sim: Sim, now: real, b: Backend, k: nat)
    requires PolicyOk(p) && CouldRun(p, sim, now, b, k) && AdmittedBy(sim, now)
    ensures var g := Tick(p, sim, now, b).1;
            && g.Some? && g.value < |sim.entries| && IsActive(sim.entries[g.value])
            && sim.entries[g.value].steps < Quota(p, sim.entries[g.value], sim.entries[k])
  {
    hide Expire;
    hide Act;
    hide Before;
    hide Quota;
    var s := Expire(sim, now, b, |sim.entries|);
    BestIsBest(p, s.entries, now, |s.entries|, k);
    var g := Best(p, s.entries, now, |s.entries|).value;
    ExpireContinues(sim, now, b, |sim.entries|, g);
    ExpireContinues(sim, now, b, |sim.entries|, k);
    var f, e := sim.entries[g], sim.entries[k];
    OvertakingIsBounded(p, f, e, now);
    WithinQuota(p, f, e);
  }

  lemma QuotaDependsOn(p: Policy, f: Entry, f': Entry, e: Entry, e': Entry)
    requires PolicyOk(p) && f.scheduling == f'.scheduling && f.admittedAt == f'.admittedAt
    requires e.scheduling == e'.scheduling && e.admittedAt == e'.admittedAt && e.steps == e'.steps
    ensures Quota(p, f, e) == Quota(p, f', e')
  {
  }

  function StepsAt(sim: Sim, g: nat): nat { if g < |sim.entries| then sim.entries[g].steps else 0 }

  /** Where entry `g` stands after `n` selections since the start. */
  predicate Tallied(p: Policy, sim: Sim, fin: Sim, k: nat, g: nat, n: nat)
    requires PolicyOk(p) && k < |sim.entries| <= |fin.entries| && g < |fin.entries|
  {
    && fin.entries[k].steps == sim.entries[k].steps
    && (IsActive(fin.entries[g]) ==> fin.entries[g].steps == StepsAt(sim, g) + n)
    && (n == 0 || StepsAt(sim, g) + n <= Quota(p, fin.entries[g], fin.entries[k]))
  }

  lemma TallyStep(p: Policy, sim: Sim, s: Sim, op: Op, k: nat, g: nat, n: nat)
    requires PolicyOk(p) && k < |sim.entries| <= |s.entries| && g < |s.entries| && Tallied(p, sim, s, k, g, n)
    requires AdmittedBy(s, op.now)
    requires op.DoTick? ==> CouldRun(p, s, op.now, op.backend, k) && ChosenBy(p, s, op) != Some(k)
    ensures |Do(p, s, op).entries| >= |s.entries|
    ensures Tallied(p, sim, Do(p, s, op), k, g, n + if ChosenBy(p, s, op) == Some(g) then 1 else 0)
  {
    hide Do;
    hide Tick;
    hide Quota;
    hide CouldRun;
    DoContinues(p, s, op, g);
    DoContinues(p, s, op, k);
    var t := Do(p, s, op);
    QuotaDependsOn(p, s.entries[g], t.entries[g], s.entries[k], t.entries[k]);
    if op.DoTick? { TickChooses(p, s, op.now, op.backend, k); }
  }

  lemma {:induction false} RunGrows(p: Policy, sim: Sim, ops: seq<Op>)
    requires PolicyOk(p)
    ensures |Run(p, sim, ops).entries| >= |sim.entries|
    decreases |ops|
  {
    hide Do;
    if ops != [] {
      RunGrows(p, sim, ops[..|ops| - 1]);
      DoAdds(p, Run(p, sim, ops[..|ops| - 1]), ops[|ops| - 1]);
    }
  }

  /** Bounded overtaking, whole runs: while entry `k` could run at every tick, whatever else is
      admitted, cancelled or expires, another request is chosen at most its quota of times,
      less the steps it already had. */
  lemma {:induction false} BoundedOvertaking(p: Policy, sim: Sim, ops: seq<Op>, clock: real, k: nat, g: nat)
    requires PolicyOk(p) && AdmittedBy(sim, clock) && Monotone(clock, ops) && Waits(p, sim, ops, k)
    requires k < |sim.entries| && g < |Run(p, sim, ops).entries|
    ensures |sim.entries| <= |Run(p, sim, ops).entries|
    ensures Tallied(p, sim, Run(p, sim, ops), k, g, Selections(p, sim, ops, g))
    decreases |ops|
  {
    hide Do;
    hide Tick;
    hide Quota;
    hide CouldRun;
    RunGrows(p, sim, ops);
    if ops != [] {
      var init, op := ops[..|ops| - 1], ops[|ops| - 1];
      var s := Run(p, sim, init);
      RunGrows(p, sim, init);
      RunAdmittedBy(p, sim, init, clock);
      DoAdds(p, s, op);
      if g < |s.entries| {
        BoundedOvertaking(p, sim, init, clock, k, g);
        TallyStep(p, sim, s, op, k, g, Selections(p, sim, init, g));
      } else {
        NotYetSelected(p, sim, init, g);
        BoundedOvertaking(p, sim, init, clock, k, k);
        TallyStep(p, sim, s, op, k, k, Selections(p, sim, init, k));
        ChosenExists(p, s, op);
      }
    }
  }

  // ----- no starvation -----

  function Ticks(ops: seq<Op>): nat
    decreases |ops|
  {
    if ops == [] then 0 else Ticks(ops[..|ops| - 1]) + if ops[|ops| - 1].DoTick? then 1 else 0
  }

  function TotalSelections(p: Policy, sim: Sim, ops: seq<Op>, n: nat): nat
    requires PolicyOk(p)
    decreases n
  {
    if n == 0 then 0 else TotalSelections(p, sim, ops, n - 1) + Selections(p, sim, ops, n - 1)
  }

  lemma {:induction false} OneMoreSelection(p: Policy, sim: Sim, ops: seq<Op>, n: nat)
    requires PolicyOk(p) && ops != []
    ensures var c := ChosenBy(p, Run(p, sim, ops[..|ops| - 1]), ops[|ops| - 1]);
            TotalSelections(p, sim, ops, n) ==
              TotalSelections(p, sim, ops[..|ops| - 1], n) + if c.Some? && c.value < n then 1 else 0
    decreases n
  {
    hide ChosenBy;
    hide Run;
    if n > 0 { OneMoreSelection(p, sim, ops, n - 1); }
  }

  /** While `k` waits, every tick serves some entry. */
  lemma {:induction false} TicksAreSelections(p: Policy, sim: Sim, ops: seq<Op>, clock: real, k: nat, n: nat)
    requires PolicyOk(p) && AdmittedBy(sim, clock) && Monotone(clock, ops) && Waits(p, sim, ops, k) && k < |sim.entries|
    requires n >= |Run(p, sim, ops).entries|
    ensures Ticks(ops) == TotalSelections(p, sim, ops, n)
    decreases |ops|
  {
    hide Do;
    hide Tick;
    hide Quota;
    hide CouldRun;
    if ops == [] {
      NoOpsNoSelections(p, sim, n);
    } else {
      var init, op := ops[..|ops| - 1], ops[|ops| - 1];
      var s := Run(p, sim, init);
      DoAdds(p, s, op);
      RunAdmittedBy(p, sim, init, clock);
      TicksAreSelections(p, sim, init, clock, k, n);
      OneMoreSelection(p, sim, ops, n);
      if op.DoTick? { TickChooses(p, s, op.now, op.backend, k); }
    }
  }

  lemma {:induction false} NoOpsNoSelections(p: Policy, sim: Sim, n: nat)
    requires PolicyOk(p)
    ensures TotalSelections(p, sim, [], n) == 0
    decreases n
  {
    if n > 0 { NoOpsNoSelections(p, sim, n - 1); }
  }

  /** The quotas of everybody but `k` against `k`. */
  function TotalQuota(p: Policy, sim: Sim, k: nat, n: nat): nat
    requires PolicyOk(p) && k < |sim.entries| && n <= |sim.entries|
    decreases n
  {
    if n == 0 then 0
    else TotalQuota(p, sim, k, n - 1) + if n - 1 == k then 0 else Quota(p, sim.entries[n - 1], sim.entries[k])
  }

  lemma {:induction false} NeverSelected(p: Policy, sim: Sim, ops: seq<Op>, k: nat)
    requires PolicyOk(p) && Waits(p, sim, ops, k)
    ensures Selections(p, sim, ops, k) == 0
    decreases |ops|
  {
    hide Do;
    hide Tick;
    hide CouldRun;
    if ops != [] { NeverSelected(p, sim, ops[..|ops| - 1], k); }
  }

  lemma {:induction false} SelectionsWithinQuota(p: Policy, sim: Sim, ops: seq<Op>, clock: real, k: nat, n: nat)
    requires PolicyOk(p) && AdmittedBy(sim, clock) && Monotone(clock, ops) && Waits(p, sim, ops, k)
    requires k < |sim.entries| <= |Run(p, sim, ops).entries| && n <= |Run(p, sim, ops).entries|
    ensures TotalSelections(p, sim, ops, n) <= TotalQuota(p, Run(p, sim, ops), k, n)
    decreases n
  {
    hide Do;
    hide Run;
    hide Waits;
    hide Selections;
    hide Quota;
    if n > 0 {
      SelectionsWithinQuota(p, sim, ops, clock, k, n - 1);
      BoundedOvertaking(p, sim, ops, clock, k, n - 1);
      NeverSelected(p, sim, ops, k);
    }
  }

  /** No starvation: a request that could run at every tick is chosen after at most the total
      quota of the requests admitted by then, and a request admitted late enough adds nothing
      to that total. */
  lemma NoStarvation(p: Policy, sim: Sim, ops: seq<Op>, clock: real, k: nat)
    requires PolicyOk(p) && AdmittedBy(sim, clock) && Monotone(clock, ops) && Waits(p, sim, ops, k) && k < |sim.entries|
    ensures var fin := Run(p, sim, ops);
            k < |fin.entries| && Ticks(ops) <= TotalQuota(p, fin, k, |fin.entries|)
  {
    RunGrows(p, sim, ops);
    var n := |Run(p, sim, ops).entries|;
    TicksAreSelections(p, sim, ops, clock, k, n);
    SelectionsWithinQuota(p, sim, ops, clock, k, n);
  }
}

/** The scheduler as an object: `tick` as the loops it runs. */
module SimulatorObject {
  import opened Basics
  import opened Simulator
  import opened SchedulerEvents
  import Spec = Simulator

  class DeterministicScheduler {
    const policy: Policy
    var entries: seq<Entry>
    var log: seq<Event>

    function View(): Sim
      reads this
    {
      Sim(entries, log)
    }

    constructor (policy: Policy)
      requires PolicyOk(policy)
      ensures this.policy == policy && View() == Start
    {
      this.policy := policy;
      entries, log := [], [];
    }

    method FindEntry(id: string) returns (i: Option<nat>)
      ensures i == Find(entries, id)
    {
      i := None;
      for k := 0 to |entries|
        invariant i == Find(entries[..k], id)
      {
        assert entries[..k + 1][..k] == entries[..k];
        if entries[k].scheduling.requestId == id { i := Some(k); }
      }
      assert entries[..|entries|] == entries;
    }

    method CountActive() returns (n: nat)
      ensures n == ActiveCount(entries)
    {
      n := 0;
      for k := 0 to |entries|
        invariant n == ActiveCount(entries[..k])
      {
        assert entries[..k + 1][..k] == entries[..k];
        if IsActive(entries[k]) { n := n + 1; }
      }
      assert entries[..|entries|] == entries;
    }

    method Admit(now: real, s: Scheduling) returns (r: Admission)
      modifies this`entries, this`log
      ensures (View(), r) == Spec.Admit(policy, old(View()), now, s)
    {
      var known := FindEntry(s.requestId);
      if known.Some? { return DuplicateRequest; }
      if s.serviceClass !in policy.priorities { return UnknownServiceClass; }
      if s.deadline.Some? && s.deadline.value <= now { return DeadlineElapsed; }
      var active := CountActive();
      if active >= policy.maxRequests { return NoCapacity; }
      entries := entries + [Entry(s, |entries|, now, Admitted, None, None, 0, false)];
      log := log + [Event(RequestAdmitted, s.requestId)];
      return Accepted;
    }

    /** Releases the sequence, then marks the entry and publishes its end. */
    method End(i: nat, termination: Termination, b: Backend)
      requires i < |entries|
      modifies this`entries, this`log
      ensures View() == Terminalize(old(View()), i, termination, b)
    {
      var e := entries[i];
      if e.lifecycle == Terminal { return; }
      var outcome, confirmed := termination, true;
      if e.handle.Some? {
        e := e.(releaseAttempted := true);
        confirmed := b.confirms(e.scheduling.requestId);
        if confirmed { log := log + [Event(SequenceReleased, e.scheduling.requestId)]; }
      } else {
        e := e.(releaseAttempted := false);
      }
      if e.handle.Some? && !confirmed { outcome := BackendError; }
      entries := entries[i := e.(lifecycle := Terminal, termination := Some(outcome))];
      log := log + [Event(if outcome == Completed then RequestCompleted else RequestFailed, e.scheduling.requestId)];
    }

    method Cancel(id: string, b: Backend) returns (done: bool)
      modifies this`entries, this`log
      ensures (View(), done) == Spec.Cancel(old(View()), id, b)
    {
      var i := FindEntry(id);
      FindFinds(entries, id);
      if i.None? || entries[i.value].lifecycle == Terminal { return false; }
      End(i.value, Cancelled, b);
      return true;
    }

    method CountHandles() returns (n: nat)
      ensures n == OpenHandles(entries)
    {
      n := 0;
      for k := 0 to |entries|
        invariant n == OpenHandles(entries[..k])
      {
        assert entries[..k + 1][..k] == entries[..k];
        var e := entries[k];
        if IsActive(e) && e.handle.Some? && !e.releaseAttempted { n := n + 1; }
      }
      assert entries[..|entries|] == entries;
    }

    /** The eligible entries and the least selection key among them, in one pass. */
    method Choose(now: real) returns (best: Option<nat>)
      requires PolicyOk(policy)
      ensures best == Best(policy, entries, now, |entries|)
    {
      var handles := CountHandles();
      best := None;
      for k := 0 to |entries|
        invariant best == Best(policy, entries, now, k)
      {
        if IsActive(entries[k]) && (entries[k].lifecycle != Admitted || handles < policy.maxSequences) {
          if best.None? || Before(policy, entries[k], entries[best.value], now) { best := Some(k); }
        }
      }
    }

    method IsTaken(i: nat, h: Handle) returns (taken: bool)
      ensures taken == HandleTaken(entries, i, h)
    {
      for j := 0 to |entries|
        invariant !HandleTaken(entries[..j], i, h)
      {
        if j != i && IsActive(entries[j]) && entries[j].handle == Some(h) { return true; }
      }
      assert entries[..|entries|] == entries;
      return false;
    }

    /** The checks of `_open_sequence` on what the backend returned, in order. */
    method IsUsable(i: nat, returned: Option<Handle>) returns (ok: bool)
      ensures ok == Usable(policy, entries, i, returned)
    {
      if returned.None? { return false; }
      if returned.value.backend != policy.backend { return false; }
      if returned.value.model !in policy.models { return false; }
      var taken := IsTaken(i, returned.value);
      return !taken;
    }

    method Step(i: nat, b: Backend)
      requires i < |entries| && IsActive(entries[i])
      modifies this`entries, this`log
      ensures View() == Act(policy, old(View()), i, b)
    {
      hide Terminalize;
      var e := entries[i];
      var id := e.scheduling.requestId;
      var usable := false;
      if e.lifecycle == Admitted && b.answer.Opens? { usable := IsUsable(i, b.answer.returned); }
      if usable {
        entries := entries[i := e.(handle := b.answer.returned, lifecycle := Prefilling, steps := e.steps + 1)];
        log := log + [Event(SequenceOpened, id)];
      } else if e.lifecycle == Prefilling && (b.answer.PrefillContinues? || b.answer.PrefillReady?) {
        log := log + [Event(PrefillCompleted, id)];
        if b.answer.PrefillReady? { e := e.(lifecycle := Decoding); }
        entries := entries[i := e.(steps := e.steps + 1)];
      } else if e.lifecycle == Decoding && (b.answer.DecodeContinues? || b.answer.DecodeFinished? || b.answer.DecodeFailed?) {
        log := log + [Event(DecodeCompleted, id)];
        entries := entries[i := e.(steps := e.steps + 1)];
        if b.answer.DecodeFinished? { End(i, Completed, b); }
        if b.answer.DecodeFailed? { End(i, BackendError, b); }
      } else {
        End(i, BackendError, b);
      }
    }

    method Tick(now: real, b: Backend) returns (chosen: Option<nat>)
      requires PolicyOk(policy)
      modifies this`entries, this`log
      ensures (View(), chosen) == Spec.Tick(policy, old(View()), now, b)
    {
      hide Terminalize;
      hide Act;
      ghost var start := View();
      for n := 0 to |entries|
        invariant View() == Expire(start, now, b, n)
        invariant |entries| == |start.entries|
      {
        if IsDue(entries[n], now) {
          End(n, DeadlineExceeded, b);
          assert View() == Expire(start, now, b, n + 1);
        }
      }
      chosen := Choose(now);
      if chosen.Some? { Step(chosen.value, b); }
    }
  }
}
