/** Nested admission quotas under the scheduler's loop. */
module Quota {
  // Nested quotas (inference_runtime/governance.py) under the scheduler's loop
  // (inference_runtime/continuous_scheduler.py): every request holds a reservation from its
  // submission to its confirmed end, and limits bind globally, per workflow and per agent.

  import opened Basics

  datatype Scheduling = Scheduling(requestId: string, workflow: string, agent: string, serviceClass: string)

  datatype ServiceClass = ServiceClass(priority: int, emergency: bool)

  /** Pending until the backend has opened the sequence; then `tokens` are reserved. */
  datatype Reservation = Reservation(scheduling: Scheduling, estimate: nat, tokens: Option<nat>)

  datatype Limits = Limits(
    maxPending: nat, maxSequences: nat, kvBudget: nat,
    maxPendingPerWorkflow: nat, maxPendingPerAgent: nat,
    maxSequencesPerWorkflow: nat, maxSequencesPerAgent: nat,
    maxKvPerWorkflow: nat, maxKvPerAgent: nat,
    shedThreshold: nat, shedPriority: int, classes: map<string, ServiceClass>)

  /** The scopes a limit can bind. */
  datatype Within = Everywhere | InWorkflow(workflow: string) | InAgent(workflow: string, agent: string)

  predicate Belongs(s: Scheduling, w: Within) {
    match w
    case Everywhere => true
    case InWorkflow(f) => s.workflow == f
    case InAgent(f, a) => s.workflow == f && s.agent == a
  }

  function MaxPending(l: Limits, w: Within): nat {
    match w case Everywhere => l.maxPending case InWorkflow(_) => l.maxPendingPerWorkflow case InAgent(_, _) => l.maxPendingPerAgent
  }

  function MaxSequences(l: Limits, w: Within): nat {
    match w case Everywhere => l.maxSequences case InWorkflow(_) => l.maxSequencesPerWorkflow case InAgent(_, _) => l.maxSequencesPerAgent
  }

  function MaxTokens(l: Limits, w: Within): nat {
    match w case Everywhere => l.kvBudget case InWorkflow(_) => l.maxKvPerWorkflow case InAgent(_, _) => l.maxKvPerAgent
  }

  function PendingIn(rs: seq<Reservation>, w: Within): nat
    decreases |rs|
  {
    if rs == [] then 0
    else
      var r := rs[|rs| - 1];
      PendingIn(rs[..|rs| - 1], w) + if r.tokens.None? && Belongs(r.scheduling, w) then 1 else 0
  }

  function ActiveIn(rs: seq<Reservation>, w: Within): nat
    decreases |rs|
  {
    if rs == [] then 0
    else
      var r := rs[|rs| - 1];
      ActiveIn(rs[..|rs| - 1], w) + if r.tokens.Some? && Belongs(r.scheduling, w) then 1 else 0
  }

  function TokensIn(rs: seq<Reservation>, w: Within): nat
    decreases |rs|
  {
    if rs == [] then 0
    else
      var r := rs[|rs| - 1];
      TokensIn(rs[..|rs| - 1], w) + if r.tokens.Some? && Belongs(r.scheduling, w) then r.tokens.value else 0
  }

  function Find(rs: seq<Reservation>, id: string): (i: Option<nat>)
    ensures i.Some? ==> i.value < |rs| && rs[i.value].scheduling.requestId == id
    ensures i.None? ==> forall k :: 0 <= k < |rs| ==> rs[k].scheduling.requestId != id
    decreases |rs|
  {
    if rs == [] then None
    else if rs[|rs| - 1].scheduling.requestId == id then Some(|rs| - 1)
    else Find(rs[..|rs| - 1], id)
  }

  // ----- the ledger's operations -----

  datatype Admission =
    | Admitted | InvalidEstimate | ContextOverflow | WorkflowKvQuota | AgentKvQuota | UnknownServiceClass | DuplicateRequest
    | QueueFull | Overloaded | WorkflowQueueQuota | AgentQueueQuota

  predicate IsShed(l: Limits, c: ServiceClass) { c.priority < l.shedPriority && !c.emergency }

  function Admit(l: Limits, rs: seq<Reservation>, s: Scheduling, estimate: int): (seq<Reservation>, Admission) {
    if estimate <= 0 then (rs, InvalidEstimate)
    else if estimate > l.kvBudget then (rs, ContextOverflow)
    else if estimate > l.maxKvPerWorkflow then (rs, WorkflowKvQuota)
    else if estimate > l.maxKvPerAgent then (rs, AgentKvQuota)
    else if s.serviceClass !in l.classes then (rs, UnknownServiceClass)
    else if Find(rs, s.requestId).Some? then (rs, DuplicateRequest)
    else if PendingIn(rs, Everywhere) >= l.maxPending then (rs, QueueFull)
    else if PendingIn(rs, Everywhere) >= l.shedThreshold && IsShed(l, l.classes[s.serviceClass]) then (rs, Overloaded)
    else if PendingIn(rs, InWorkflow(s.workflow)) >= l.maxPendingPerWorkflow then (rs, WorkflowQueueQuota)
    else if PendingIn(rs, InAgent(s.workflow, s.agent)) >= l.maxPendingPerAgent then (rs, AgentQueueQuota)
    else (rs + [Reservation(s, estimate, None)], Admitted)
  }

  predicate HasRoom(l: Limits, rs: seq<Reservation>, w: Within, estimate: nat) {
    ActiveIn(rs, w) < MaxSequences(l, w) && TokensIn(rs, w) + estimate <= MaxTokens(l, w)
  }

  predicate CanActivate(l: Limits, rs: seq<Reservation>, id: string) {
    var i := Find(rs, id);
    i.Some? &&
    var r := rs[i.value];
    && r.tokens.None?
    && HasRoom(l, rs, Everywhere, r.estimate)
    && HasRoom(l, rs, InWorkflow(r.scheduling.workflow), r.estimate)
    && HasRoom(l, rs, InAgent(r.scheduling.workflow, r.scheduling.agent), r.estimate)
  }

  datatype Activation = Activated | UnknownRequest | StateConflict | InvalidReservation | Underestimated

  function Activate(rs: seq<Reservation>, id: string, reported: Option<int>): (seq<Reservation>, Activation) {
    var i := Find(rs, id);
    if i.None? then (rs, UnknownRequest)
    else
      var r := rs[i.value];
      var actual := if reported.Some? then reported.value else r.estimate;
      if r.tokens.Some? then (rs, StateConflict)
      else if actual <= 0 then (rs, InvalidReservation)
      else if actual > r.estimate then (rs, Underestimated)
      else (rs[i.value := r.(tokens := Some(actual))], Activated)
  }

  function Drop(rs: seq<Reservation>, id: string): seq<Reservation> {
    var i := Find(rs, id);
    if i.None? then rs else rs[..i.value] + rs[i.value + 1..]
  }

  // ----- quotas -----

  ghost predicate QuotasOk(l: Limits, rs: seq<Reservation>) {
    forall w: Within :: WithinQuota(l, rs, w)
  }

  predicate WithinQuota(l: Limits, rs: seq<Reservation>, w: Within) {
    ActiveIn(rs, w) <= MaxSequences(l, w) && TokensIn(rs, w) <= MaxTokens(l, w) && PendingIn(rs, w) <= MaxPending(l, w)
  }

  predicate DistinctRequests(rs: seq<Reservation>) {
    forall i, j :: 0 <= i < j < |rs| ==> rs[i].scheduling.requestId != rs[j].scheduling.requestId
  }

  lemma {:induction false} AddedOne(rs: seq<Reservation>, r: Reservation, w: Within)
    ensures PendingIn(rs + [r], w) == PendingIn(rs, w) + if r.tokens.None? && Belongs(r.scheduling, w) then 1 else 0
    ensures ActiveIn(rs + [r], w) == ActiveIn(rs, w) + if r.tokens.Some? && Belongs(r.scheduling, w) then 1 else 0
    ensures TokensIn(rs + [r], w) == TokensIn(rs, w) + if r.tokens.Some? && Belongs(r.scheduling, w) then r.tokens.value else 0
  {
    assert (rs + [r])[..|rs|] == rs;
  }

  /** Splitting a ledger in two splits each sum. */
  lemma {:induction false} Sums(a: seq<Reservation>, b: seq<Reservation>, w: Within)
    ensures PendingIn(a + b, w) == PendingIn(a, w) + PendingIn(b, w)
    ensures ActiveIn(a + b, w) == ActiveIn(a, w) + ActiveIn(b, w)
    ensures TokensIn(a + b, w) == TokensIn(a, w) + TokensIn(b, w)
    decreases |b|
  {
    if b == [] {
      assert a + b == a;
    } else {
      var init, last := b[..|b| - 1], b[|b| - 1];
      Sums(a, init, w);
      assert a + b == (a + init) + [last] && b == init + [last];
      AddedOne(a + init, last, w);
      AddedOne(init, last, w);
    }
  }

  lemma {:induction false} Replaced(rs: seq<Reservation>, i: nat, r: Reservation, w: Within)
    requires i < |rs|
    ensures && PendingIn(rs[i := r], w) == PendingIn(rs, w) - PendingIn([rs[i]], w) + PendingIn([r], w)
            && ActiveIn(rs[i := r], w) == ActiveIn(rs, w) - ActiveIn([rs[i]], w) + ActiveIn([r], w)
            && TokensIn(rs[i := r], w) == TokensIn(rs, w) - TokensIn([rs[i]], w) + TokensIn([r], w)
  {
    hide PendingIn;
    hide ActiveIn;
    hide TokensIn;
    var a, b := rs[..i], rs[i + 1..];
    assert rs == (a + [rs[i]]) + b && rs[i := r] == (a + [r]) + b;
    Sums(a + [rs[i]], b, w);
    Sums(a, [rs[i]], w);
    Sums(a + [r], b, w);
    Sums(a, [r], w);
  }

  lemma {:induction false} Dropped(rs: seq<Reservation>, i: nat, w: Within)
    requires i < |rs|
    ensures var less := rs[..i] + rs[i + 1..];
            PendingIn(less, w) <= PendingIn(rs, w) && ActiveIn(less, w) <= ActiveIn(rs, w) && TokensIn(less, w) <= TokensIn(rs, w)
  {
    hide PendingIn;
    hide ActiveIn;
    hide TokensIn;
    var a, b := rs[..i], rs[i + 1..];
    assert rs == (a + [rs[i]]) + b;
    Sums(a + [rs[i]], b, w);
    Sums(a, [rs[i]], w);
    Sums(a, b, w);
  }

  /** What one reservation counts for. */
  lemma One(r: Reservation, w: Within)
    ensures PendingIn([r], w) == if r.tokens.None? && Belongs(r.scheduling, w) then 1 else 0
    ensures ActiveIn([r], w) == if r.tokens.Some? && Belongs(r.scheduling, w) then 1 else 0
    ensures TokensIn([r], w) == if r.tokens.Some? && Belongs(r.scheduling, w) then r.tokens.value else 0
  {
    AddedOne([], r, w);
    assert [] + [r] == [r];
  }

  lemma AdmitKeeps(l: Limits, rs: seq<Reservation>, s: Scheduling, estimate: int)
    requires QuotasOk(l, rs)
    ensures QuotasOk(l, Admit(l, rs, s, estimate).0)
  {
    var (r1, a) := Admit(l, rs, s, estimate);
    if a.Admitted? {
      forall w: Within
        ensures WithinQuota(l, r1, w)
      {
        assert WithinQuota(l, rs, w);
        AddedOne(rs, Reservation(s, estimate, None), w);
      }
    }
  }

  lemma ActivateKeepsWithin(l: Limits, rs: seq<Reservation>, i: nat, actual: nat, w: Within)
    requires WithinQuota(l, rs, w) && i < |rs| && rs[i].tokens.None? && actual <= rs[i].estimate
    requires Belongs(rs[i].scheduling, w) ==> HasRoom(l, rs, w, rs[i].estimate)
    ensures WithinQuota(l, rs[i := rs[i].(tokens := Some(actual))], w)
  {
    var r := rs[i].(tokens := Some(actual));
    Replaced(rs, i, r, w);
    One(rs[i], w);
    One(r, w);
    hide PendingIn;
    hide ActiveIn;
    hide TokensIn;
  }

  /** Activation after the check keeps every quota; the check is what enforces them. */
  lemma ActivateKeeps(l: Limits, rs: seq<Reservation>, id: string, reported: Option<int>)
    requires QuotasOk(l, rs) && CanActivate(l, rs, id)
    ensures QuotasOk(l, Activate(rs, id, reported).0)
  {
    var (r1, a) := Activate(rs, id, reported);
    if a.Activated? {
      var i := Find(rs, id).value;
      var s := rs[i].scheduling;
      forall w: Within
        ensures WithinQuota(l, r1, w)
      {
        assert WithinQuota(l, rs, w);
        if Belongs(s, w) {
          assert w == Everywhere || w == InWorkflow(s.workflow) || w == InAgent(s.workflow, s.agent);
        }
        ActivateKeepsWithin(l, rs, i, r1[i].tokens.value, w);
      }
    }
  }

  lemma DropKeeps(l: Limits, rs: seq<Reservation>, id: string)
    requires QuotasOk(l, rs)
    ensures QuotasOk(l, Drop(rs, id))
  {
    var i := Find(rs, id);
    if i.Some? {
      forall w: Within
        ensures WithinQuota(l, Drop(rs, id), w)
      {
        assert WithinQuota(l, rs, w);
        Dropped(rs, i.value, w);
      }
    }
  }

  // ----- the scheduler's loop -----

  datatype Phase = Queued | Opening | Open | Terminal
  datatype Entry = Entry(scheduling: Scheduling, phase: Phase, hasHandle: bool)

  /** `opening` is the request the scheduler thread is opening; `live` holds the requests whose
      backend sequence is not known to be released; `leaked` those that ended so, and `refused`
      those whose activation the ledger refused. */
  datatype Scheduler = Scheduler(
    entries: map<string, Entry>, ledger: seq<Reservation>, opening: Option<string>,
    live: set<string>, leaked: set<string>, refused: set<string>)

  const Idle := Scheduler(map[], [], None, {}, {}, {})

  datatype Step =
    | Submit(scheduling: Scheduling, estimate: int)
    | BeginOpen(id: string)
    | OpenFails
    | OpenSucceeds(reported: Option<int>)
    | End(id: string, confirmed: bool)
    | Collect(id: string)

  function SetEntry(s: Scheduler, id: string, e: Entry): Scheduler { s.(entries := s.entries[id := e]) }

  /** One step; a step whose condition does not hold does nothing. The scheduler thread opens
      one request at a time and ends none meanwhile; submitters come at any time. */
  function Do(l: Limits, s: Scheduler, step: Step): Scheduler {
    match step
    case Submit(q, estimate) =>
      if q.requestId in s.entries then s
      else
        var (ledger, a) := Admit(l, s.ledger, q, estimate);
        if a.Admitted? then SetEntry(s, q.requestId, Entry(q, Queued, false)).(ledger := ledger) else s
    case BeginOpen(id) =>
      if s.opening.Some? || id !in s.entries || s.entries[id].phase != Queued || !CanActivate(l, s.ledger, id) then s
      else SetEntry(s, id, s.entries[id].(phase := Opening)).(opening := Some(id))
    case OpenFails =>
      if s.opening.None? || s.opening.value !in s.entries then s
      else
        var id := s.opening.value;
        SetEntry(s, id, s.entries[id].(phase := Terminal)).(opening := None, ledger := Drop(s.ledger, id))
    case OpenSucceeds(reported) =>
      if s.opening.None? || s.opening.value !in s.entries then s
      else
        var id := s.opening.value;
        var (ledger, a) := Activate(s.ledger, id, reported);
        SetEntry(s, id, s.entries[id].(phase := Open, hasHandle := true)).(
          opening := None, ledger := ledger, live := s.live + {id}, refused := if a.Activated? then s.refused else s.refused + {id})
    case End(id, confirmed) =>
      if s.opening.Some? || id !in s.entries || s.entries[id].phase == Terminal then s
      else if s.entries[id].hasHandle && !confirmed then
        SetEntry(s, id, s.entries[id].(phase := Terminal)).(leaked := s.leaked + {id})
      else
        SetEntry(s, id, s.entries[id].(phase := Terminal)).(
          ledger := Drop(s.ledger, id), live := s.live - {id}, refused := s.refused - {id})
    case Collect(id) =>
      if id !in s.entries || s.entries[id].phase != Terminal then s else s.(entries := s.entries - {id})
  }

  /** The reservation of a request. */
  function Of(rs: seq<Reservation>, id: string): Option<Reservation> {
    var i := Find(rs, id);
    if i.None? then None else Some(rs[i.value])
  }

  predicate Holds(s: Scheduler, id: string) { id in s.entries && s.entries[id].phase != Terminal }

  /** A request has a reservation from admission until its end is confirmed, and an active one
      exactly while its sequence is not known to be released, unless the ledger refused it. */
  predicate HolderOk(s: Scheduler, id: string) {
    && (Of(s.ledger, id).Some? <==> Holds(s, id) || id in s.leaked)
    && (id in s.live <==> (Holds(s, id) && s.entries[id].phase == Open) || id in s.leaked)
    && !(Holds(s, id) && id in s.leaked)
    && (Of(s.ledger, id).Some? && Of(s.ledger, id).value.tokens.Some? <==> id in s.live && id !in s.refused)
    && (id in s.refused ==> id in s.live)
  }

  predicate EntryOk(s: Scheduler, id: string) {
    id in s.entries ==>
      && s.entries[id].scheduling.requestId == id
      && (s.entries[id].phase != Terminal ==> (s.entries[id].hasHandle <==> s.entries[id].phase == Open))
      && (s.entries[id].phase == Opening <==> s.opening == Some(id))
  }

  ghost predicate SchedulerOk(l: Limits, s: Scheduler) {
    && QuotasOk(l, s.ledger) && DistinctRequests(s.ledger)
    && (forall id: string :: HolderOk(s, id))
    && (forall id: string :: EntryOk(s, id))
    && (s.opening.Some? ==> s.opening.value in s.entries && CanActivate(l, s.ledger, s.opening.value))
  }

  lemma {:induction false} FindIs(rs: seq<Reservation>, i: nat)
    requires DistinctRequests(rs) && i < |rs|
    ensures Find(rs, rs[i].scheduling.requestId) == Some(i)
  {
    var f := Find(rs, rs[i].scheduling.requestId);
    assert f.Some?;
  }

  lemma {:induction false} OfAdded(rs: seq<Reservation>, r: Reservation, id: string)
    requires DistinctRequests(rs) && Find(rs, r.scheduling.requestId).None?
    ensures DistinctRequests(rs + [r])
    ensures Of(rs + [r], id) == if id == r.scheduling.requestId then Some(r) else Of(rs, id)
  {
    assert (rs + [r])[..|rs|] == rs;
  }

  lemma {:induction false} OfReplaced(rs: seq<Reservation>, i: nat, r: Reservation, id: string)
    requires DistinctRequests(rs) && i < |rs| && r.scheduling == rs[i].scheduling
    ensures DistinctRequests(rs[i := r])
    ensures Of(rs[i := r], id) == if id == r.scheduling.requestId then Some(r) else Of(rs, id)
  {
    var after := rs[i := r];
    if id == r.scheduling.requestId {
      FindIs(after, i);
    } else {
      var f := Find(rs, id);
      if f.Some? {
        assert after[f.value] == rs[f.value];
        FindIs(after, f.value);
      } else {
        assert forall k :: 0 <= k < |after| ==> after[k].scheduling == rs[k].scheduling;
      }
    }
  }

  lemma {:induction false} OfDropped(rs: seq<Reservation>, gone: string, id: string)
    requires DistinctRequests(rs)
    ensures DistinctRequests(Drop(rs, gone))
    ensures Of(Drop(rs, gone), id) == if id == gone then None else Of(rs, id)
  {
    var g := Find(rs, gone);
    if g.Some? {
      var i := g.value;
      var after := Drop(rs, gone);
      assert forall k :: 0 <= k < |after| ==> after[k] == rs[if k < i then k else k + 1];
      var f := Find(rs, id);
      if id == gone {
        assert forall k :: 0 <= k < |after| ==> after[k].scheduling.requestId != gone;
      } else if f.Some? {
        var k := if f.value < i then f.value else f.value - 1;
        assert after[k] == rs[f.value];
        FindIs(after, k);
      }
    }
  }

  // ----- every step keeps it -----

  lemma {:induction false} SubmitOk(l: Limits, s: Scheduler, q: Scheduling, estimate: int)
    requires SchedulerOk(l, s)
    ensures SchedulerOk(l, Do(l, s, Submit(q, estimate)))
  {
    var s1 := Do(l, s, Submit(q, estimate));
    if s1 != s {
      AdmitKeeps(l, s.ledger, q, estimate);
      hide QuotasOk;
      hide HolderOk;
      hide EntryOk;
      hide CanActivate;
      var r := Reservation(q, estimate, None);
      OfAdded(s.ledger, r, q.requestId);
      forall id: string
        ensures HolderOk(s1, id) && EntryOk(s1, id)
      {
        assert HolderOk(s, id) && EntryOk(s, id);
        SubmitHolder(s, q, estimate, id);
      }
      if s.opening.Some? { StillActivable(l, s.ledger, r, s.opening.value); }
    }
  }

  lemma {:induction false} SubmitHolder(s: Scheduler, q: Scheduling, estimate: nat, x: string)
    requires DistinctRequests(s.ledger) && q.requestId !in s.entries && Find(s.ledger, q.requestId).None?
    requires HolderOk(s, x) && EntryOk(s, x) && (s.opening.Some? ==> s.opening.value in s.entries)
    ensures var s1 := SetEntry(s, q.requestId, Entry(q, Queued, false)).(ledger := s.ledger + [Reservation(q, estimate, None)]);
            HolderOk(s1, x) && EntryOk(s1, x)
  {
    OfAdded(s.ledger, Reservation(q, estimate, None), x);
    assert Of(s.ledger, q.requestId).None?;
    hide Of;
  }

  /** An admission in between does not spoil the check made before opening. */
  lemma {:induction false} StillActivable(l: Limits, rs: seq<Reservation>, r: Reservation, id: string)
    requires CanActivate(l, rs, id) && DistinctRequests(rs) && Find(rs, r.scheduling.requestId).None? && r.tokens.None?
    ensures CanActivate(l, rs + [r], id)
  {
    OfAdded(rs, r, id);
    var q := Of(rs, id).value.scheduling;
    AddedOne(rs, r, Everywhere);
    AddedOne(rs, r, InWorkflow(q.workflow));
    AddedOne(rs, r, InAgent(q.workflow, q.agent));
    hide ActiveIn;
    hide TokensIn;
  }

  lemma {:induction false} BeginOpenOk(l: Limits, s: Scheduler, id: string)
    requires SchedulerOk(l, s)
    ensures SchedulerOk(l, Do(l, s, BeginOpen(id)))
  {
    hide QuotasOk;
    hide CanActivate;
    var s1 := Do(l, s, BeginOpen(id));
    forall x: string
      ensures HolderOk(s1, x) && EntryOk(s1, x)
    {
      assert HolderOk(s, x) && EntryOk(s, x);
    }
  }

  lemma {:induction false} OpenFailsOk(l: Limits, s: Scheduler)
    requires SchedulerOk(l, s)
    ensures SchedulerOk(l, Do(l, s, OpenFails))
  {
    hide QuotasOk;
    hide CanActivate;
    hide HolderOk;
    hide EntryOk;
    hide Drop;
    var s1 := Do(l, s, OpenFails);
    if s.opening.Some? {
      var id := s.opening.value;
      DropKeeps(l, s.ledger, id);
      OfDropped(s.ledger, id, id);
      forall x: string
        ensures HolderOk(s1, x) && EntryOk(s1, x)
      {
        assert HolderOk(s, x) && EntryOk(s, x) && EntryOk(s, id);
        OpenFailsHolder(l, s, x);
      }
    }
  }

  lemma {:induction false} OpenFailsHolder(l: Limits, s: Scheduler, x: string)
    requires DistinctRequests(s.ledger) && s.opening.Some? && s.opening.value in s.entries && EntryOk(s, s.opening.value)
    requires HolderOk(s, x) && EntryOk(s, x)
    ensures var s1 := Do(l, s, OpenFails); HolderOk(s1, x) && EntryOk(s1, x)
  {
    hide Of;
    hide Drop;
    OfDropped(s.ledger, s.opening.value, x);
  }

  lemma {:induction false} OpenSucceedsOk(l: Limits, s: Scheduler, reported: Option<int>)
    requires SchedulerOk(l, s)
    ensures SchedulerOk(l, Do(l, s, OpenSucceeds(reported)))
  {
    var s1 := Do(l, s, OpenSucceeds(reported));
    if s.opening.Some? {
      var id := s.opening.value;
      ActivateKeeps(l, s.ledger, id, reported);
      MayFind(l, s.ledger, id);
      hide QuotasOk;
      hide CanActivate;
      hide HolderOk;
      hide EntryOk;
      hide Activate;
      assert HolderOk(s, id) && EntryOk(s, id);
      ActivatedOf(s.ledger, id, reported, id);
      forall x: string
        ensures HolderOk(s1, x) && EntryOk(s1, x)
      {
        assert HolderOk(s, x) && EntryOk(s, x);
        OpenSucceedsHolder(l, s, reported, x);
      }
    }
  }

  lemma MayFind(l: Limits, rs: seq<Reservation>, id: string)
    requires CanActivate(l, rs, id)
    ensures Of(rs, id).Some? && Of(rs, id).value.tokens.None?
  {
  }

  lemma {:induction false} OpenSucceedsHolder(l: Limits, s: Scheduler, reported: Option<int>, x: string)
    requires DistinctRequests(s.ledger) && s.opening.Some? && s.opening.value in s.entries && EntryOk(s, s.opening.value)
    requires Of(s.ledger, s.opening.value).Some? && Of(s.ledger, s.opening.value).value.tokens.None?
    requires HolderOk(s, x) && EntryOk(s, x)
    ensures var s1 := Do(l, s, OpenSucceeds(reported)); HolderOk(s1, x) && EntryOk(s1, x)
  {
    hide Of;
    hide Activate;
    ActivatedOf(s.ledger, s.opening.value, reported, x);
  }

  lemma {:induction false} ActivatedOf(rs: seq<Reservation>, id: string, reported: Option<int>, x: string)
    requires DistinctRequests(rs) && Of(rs, id).Some?
    ensures var (after, a) := Activate(rs, id, reported);
            && DistinctRequests(after)
            && (x != id ==> Of(after, x) == Of(rs, x))
            && (x == id ==> Of(after, x).Some? && (Of(after, x).value.tokens.Some? <==> a.Activated? || Of(rs, x).value.tokens.Some?))
  {
    var (after, a) := Activate(rs, id, reported);
    if a.Activated? { OfReplaced(rs, Find(rs, id).value, after[Find(rs, id).value], x); }
  }

  lemma {:induction false} EndOk(l: Limits, s: Scheduler, id: string, confirmed: bool)
    requires SchedulerOk(l, s)
    ensures SchedulerOk(l, Do(l, s, End(id, confirmed)))
  {
    hide QuotasOk;
    hide CanActivate;
    hide HolderOk;
    hide EntryOk;
    hide Drop;
    var s1 := Do(l, s, End(id, confirmed));
    if s1 != s {
      DropKeeps(l, s.ledger, id);
      OfDropped(s.ledger, id, id);
      forall x: string
        ensures HolderOk(s1, x) && EntryOk(s1, x)
      {
        assert HolderOk(s, x) && EntryOk(s, x) && EntryOk(s, id);
        EndHolder(l, s, id, confirmed, x);
      }
    }
  }

  lemma {:induction false} EndHolder(l: Limits, s: Scheduler, id: string, confirmed: bool, x: string)
    requires DistinctRequests(s.ledger) && EntryOk(s, id) && HolderOk(s, x) && EntryOk(s, x)
    ensures var s1 := Do(l, s, End(id, confirmed)); HolderOk(s1, x) && EntryOk(s1, x)
  {
    hide Of;
    hide Drop;
    OfDropped(s.ledger, id, x);
  }

  lemma {:induction false} CollectOk(l: Limits, s: Scheduler, id: string)
    requires SchedulerOk(l, s)
    ensures SchedulerOk(l, Do(l, s, Collect(id)))
  {
    hide QuotasOk;
    hide CanActivate;
    var s1 := Do(l, s, Collect(id));
    forall x: string
      ensures HolderOk(s1, x) && EntryOk(s1, x)
    {
      assert HolderOk(s, x) && EntryOk(s, x);
    }
    if s.opening.Some? { assert EntryOk(s, s.opening.value); }
  }

  lemma {:induction false} DoOk(l: Limits, s: Scheduler, step: Step)
    requires SchedulerOk(l, s)
    ensures SchedulerOk(l, Do(l, s, step))
  {
    hide SchedulerOk;
    match step
    case Submit(q, estimate) => SubmitOk(l, s, q, estimate);
    case BeginOpen(id) => BeginOpenOk(l, s, id);
    case OpenFails => OpenFailsOk(l, s);
    case OpenSucceeds(reported) => OpenSucceedsOk(l, s, reported);
    case End(id, confirmed) => EndOk(l, s, id, confirmed);
    case Collect(id) => CollectOk(l, s, id);
  }

  function DoAll(l: Limits, steps: seq<Step>): Scheduler
    decreases |steps|
  {
    if steps == [] then Idle else Do(l, DoAll(l, steps[..|steps| - 1]), steps[|steps| - 1])
  }

  lemma {:induction false} RunOk(l: Limits, steps: seq<Step>)
    ensures SchedulerOk(l, DoAll(l, steps))
    decreases |steps|
  {
    hide Do;
    if steps == [] {
      IdleOk(l);
    } else {
      RunOk(l, steps[..|steps| - 1]);
      DoOk(l, DoAll(l, steps[..|steps| - 1]), steps[|steps| - 1]);
    }
  }

  lemma IdleOk(l: Limits)
    ensures SchedulerOk(l, Idle)
  {
    forall w: Within
      ensures WithinQuota(l, [], w)
    {
    }
    forall id: string
      ensures HolderOk(Idle, id) && EntryOk(Idle, id)
    {
    }
  }

  /** Nested quota safety over every run: at every scope the active sequences, their tokens and
      the pending requests stay within limits; every sequence the backend may still have open
      has a reservation, an active one unless the ledger refused it, and the ledger holds
      reservations for nobody else than unfinished and unconfirmed requests. */
  lemma NestedQuotaSafety(l: Limits, steps: seq<Step>, w: Within, id: string)
    ensures var s := DoAll(l, steps);
            && ActiveIn(s.ledger, w) <= MaxSequences(l, w) && TokensIn(s.ledger, w) <= MaxTokens(l, w)
            && PendingIn(s.ledger, w) <= MaxPending(l, w)
            && (id in s.live ==> Of(s.ledger, id).Some? && (Of(s.ledger, id).value.tokens.Some? || id in s.refused))
            && (Of(s.ledger, id).Some? <==> Holds(s, id) || id in s.leaked)
  {
    RunOk(l, steps);
    var s := DoAll(l, steps);
    assert WithinQuota(l, s.ledger, w) && HolderOk(s, id);
  }

  /** A step drops a reservation only when the request's sequence is closed, or was never
      opened. */
  lemma DroppedOnlyWhenReleased(l: Limits, steps: seq<Step>, step: Step, id: string)
    requires Of(DoAll(l, steps).ledger, id).Some? && Of(Do(l, DoAll(l, steps), step).ledger, id).None?
    ensures id !in Do(l, DoAll(l, steps), step).live
    ensures step == End(id, true) || (step.End? && step.id == id && id !in DoAll(l, steps).live) || step.OpenFails?
  {
    var s := DoAll(l, steps);
    RunOk(l, steps);
    DoOk(l, s, step);
    assert HolderOk(Do(l, s, step), id) && HolderOk(s, id) && EntryOk(s, id);
    StepDrops(l, s, step, id);
  }

  lemma {:induction false} StepDrops(l: Limits, s: Scheduler, step: Step, id: string)
    requires DistinctRequests(s.ledger) && EntryOk(s, id) && HolderOk(s, id)
    requires Of(s.ledger, id).Some? && Of(Do(l, s, step).ledger, id).None?
    ensures step == End(id, true) || (step.End? && step.id == id && id !in s.live) || step.OpenFails?
  {
    match step
    case Submit(q, estimate) =>
      var (after, a) := Admit(l, s.ledger, q, estimate);
      if a.Admitted? { OfAdded(s.ledger, Reservation(q, estimate, None), id); }
    case OpenSucceeds(reported) =>
      if s.opening.Some? && Of(s.ledger, s.opening.value).Some? { ActivatedOf(s.ledger, s.opening.value, reported, id); }
    case End(x, confirmed) => OfDropped(s.ledger, x, id);
    case _ =>
  }

  /** When every request has ended with its release confirmed, the ledger is empty. */
  lemma LedgerDrains(l: Limits, steps: seq<Step>)
    requires var s := DoAll(l, steps); s.leaked == {} && forall id :: id in s.entries ==> s.entries[id].phase == Terminal
    ensures DoAll(l, steps).ledger == []
  {
    RunOk(l, steps);
    var s := DoAll(l, steps);
    if s.ledger != [] {
      var id := s.ledger[0].scheduling.requestId;
      FindIs(s.ledger, 0);
      HolderAt(l, s, id);
      assert false;
    }
  }

  lemma HolderAt(l: Limits, s: Scheduler, id: string)
    requires SchedulerOk(l, s)
    ensures HolderOk(s, id)
  {
  }
}

/** The ledger as an object, and the two budget computations of the scheduler's batches. */
module QuotaObject {
  import opened Basics
  import opened Quota
  import Spec = Quota

  class ResourceAdmissionController {
    const limits: Limits
    var reservations: seq<Reservation>

    constructor (limits: Limits)
      ensures this.limits == limits && reservations == []
    {
      this.limits := limits;
      reservations := [];
    }

    method Locate(id: string) returns (i: Option<nat>)
      ensures i == Find(reservations, id)
    {
      i := None;
      for k := 0 to |reservations|
        invariant i == Find(reservations[..k], id)
      {
        assert reservations[..k + 1][..k] == reservations[..k];
        if reservations[k].scheduling.requestId == id { i := Some(k); }
      }
      assert reservations[..|reservations|] == reservations;
    }

    /** The sums the checks are made on, in one pass. */
    method Tally(w: Within) returns (pending: nat, active: nat, tokens: nat)
      ensures pending == PendingIn(reservations, w) && active == ActiveIn(reservations, w) && tokens == TokensIn(reservations, w)
    {
      pending, active, tokens := 0, 0, 0;
      for k := 0 to |reservations|
        invariant pending == PendingIn(reservations[..k], w)
        invariant active == ActiveIn(reservations[..k], w) && tokens == TokensIn(reservations[..k], w)
      {
        var r := reservations[k];
        assert reservations[..k + 1] == reservations[..k] + [r];
        AddedOne(reservations[..k], r, w);
        if Belongs(r.scheduling, w) {
          if r.tokens.None? {
            pending := pending + 1;
          } else {
            active, tokens := active + 1, tokens + r.tokens.value;
          }
        }
      }
      assert reservations[..|reservations|] == reservations;
    }

    method Admit(s: Scheduling, estimate: int) returns (r: Admission)
      modifies this`reservations
      ensures (reservations, r) == Spec.Admit(limits, old(reservations), s, estimate)
    {
      hide PendingIn;
      if estimate <= 0 { return InvalidEstimate; }
      if estimate > limits.kvBudget { return ContextOverflow; }
      if estimate > limits.maxKvPerWorkflow { return WorkflowKvQuota; }
      if estimate > limits.maxKvPerAgent { return AgentKvQuota; }
      if s.serviceClass !in limits.classes { return UnknownServiceClass; }
      var known := Locate(s.requestId);
      if known.Some? { return DuplicateRequest; }
      var pending, _, _ := Tally(Everywhere);
      if pending >= limits.maxPending { return QueueFull; }
      if pending >= limits.shedThreshold && IsShed(limits, limits.classes[s.serviceClass]) { return Overloaded; }
      var ofWorkflow, _, _ := Tally(InWorkflow(s.workflow));
      var ofAgent, _, _ := Tally(InAgent(s.workflow, s.agent));
      if ofWorkflow >= limits.maxPendingPerWorkflow { return WorkflowQueueQuota; }
      if ofAgent >= limits.maxPendingPerAgent { return AgentQueueQuota; }
      reservations := reservations + [Reservation(s, estimate, None)];
      return Admitted;
    }

    method Fits(w: Within, estimate: nat) returns (ok: bool)
      ensures ok == HasRoom(limits, reservations, w, estimate)
    {
      var _, active, tokens := Tally(w);
      return active < MaxSequences(limits, w) && tokens + estimate <= MaxTokens(limits, w);
    }

    method MayActivate(id: string) returns (ok: bool)
      ensures ok == CanActivate(limits, reservations, id)
    {
      var i := Locate(id);
      if i.None? || reservations[i.value].tokens.Some? { return false; }
      var item := reservations[i.value];
      ok := Fits(Everywhere, item.estimate);
      if !ok { return false; }
      ok := Fits(InWorkflow(item.scheduling.workflow), item.estimate);
      if !ok { return false; }
      ok := Fits(InAgent(item.scheduling.workflow, item.scheduling.agent), item.estimate);
    }

    method Activate(id: string, reported: Option<int>) returns (r: Activation)
      modifies this`reservations
      ensures (reservations, r) == Spec.Activate(old(reservations), id, reported)
    {
      var i := Locate(id);
      if i.None? { return UnknownRequest; }
      var item := reservations[i.value];
      if item.tokens.Some? { return StateConflict; }
      var actual := if reported.None? then item.estimate else reported.value;
      if actual <= 0 { return InvalidReservation; }
      if actual > item.estimate { return Underestimated; }
      reservations := reservations[i.value := item.(tokens := Some(actual))];
      return Activated;
    }

    method Release(id: string) returns (found: bool)
      modifies this`reservations
      ensures reservations == Drop(old(reservations), id) && found == Find(old(reservations), id).Some?
    {
      var i := Locate(id);
      if i.None? { return false; }
      reservations := reservations[..i.value] + reservations[i.value + 1..];
      return true;
    }
  }

  // ----- batch budgets -----

  function Sum(budgets: seq<nat>): nat
    decreases |budgets|
  {
    if budgets == [] then 0 else Sum(budgets[..|budgets| - 1]) + budgets[|budgets| - 1]
  }

  function Least(a: int, b: int): int { if a < b then a else b }
  function Greatest(a: int, b: int): int { if a > b then a else b }

  lemma DivideAtLeastOne(a: nat, n: nat)
    requires 1 <= n <= a
    ensures a / n >= 1 && a == n * (a / n) + a % n
  {
  }

  lemma OneShareOff(slots: nat, q: nat)
    requires slots >= 1 && q >= 1
    ensures slots * q - q >= slots - 1
  {
    assert (slots - 1) * (q - 1) >= 0;
    assert (slots - 1) * (q - 1) == slots * q - q - slots + 1;
  }

  lemma ShareLeavesRest(remaining: nat, slots: nat)
    requires 1 <= slots <= remaining
    ensures 1 <= remaining / slots && remaining - remaining / slots >= slots - 1
  {
    DivideAtLeastOne(remaining, slots);
    OneShareOff(slots, remaining / slots);
  }

  /** An even share of what remains for each sequence still to come, within the chunk limit. */
  function Share(remaining: int, slotsLeft: nat, chunk: nat): nat
    requires slotsLeft > 0 && chunk > 0
  {
    Least(chunk, Greatest(1, if remaining > 0 then remaining / slotsLeft else 0))
  }

  /** The budgets of the sequences from `index` on; one without a handle is passed over. */
  function Split(hasHandle: seq<bool>, index: nat, chunk: nat, remaining: int): seq<nat>
    requires index <= |hasHandle| && chunk > 0
    decreases |hasHandle| - index
  {
    if index == |hasHandle| then []
    else if !hasHandle[index] then Split(hasHandle, index + 1, chunk, remaining)
    else
      var budget := Share(remaining, |hasHandle| - index, chunk);
      [budget] + Split(hasHandle, index + 1, chunk, remaining - budget)
  }

  function Taking(hasHandle: seq<bool>, index: nat): nat
    requires index <= |hasHandle|
    decreases |hasHandle| - index
  {
    if index == |hasHandle| then 0 else (if hasHandle[index] then 1 else 0) + Taking(hasHandle, index + 1)
  }

  lemma {:induction false} SumOfRest(first: nat, rest: seq<nat>)
    ensures Sum([first] + rest) == first + Sum(rest)
    decreases |rest|
  {
    if rest == [] {
      assert [first] + rest == [first] && [first][..0] == [];
    } else {
      SumOfRest(first, rest[..|rest| - 1]);
      assert ([first] + rest)[..|rest|] == [first] + rest[..|rest| - 1];
    }
  }

  /** The prefill split gives every selected sequence between one token and the chunk limit,
      and together at most the tick budget. It rests on the constructor's check that the tick
      budget covers the largest batch. */
  lemma {:induction false} SplitIsSound(hasHandle: seq<bool>, index: nat, chunk: nat, remaining: int)
    requires index <= |hasHandle| && chunk > 0 && remaining >= |hasHandle| - index
    ensures var budgets := Split(hasHandle, index, chunk, remaining);
            && |budgets| == Taking(hasHandle, index) && Sum(budgets) <= remaining
            && forall k :: 0 <= k < |budgets| ==> 1 <= budgets[k] <= chunk
    decreases |hasHandle| - index
  {
    if index < |hasHandle| {
      if !hasHandle[index] {
        SplitIsSound(hasHandle, index + 1, chunk, remaining);
      } else {
        var slotsLeft := |hasHandle| - index;
        ShareLeavesRest(remaining, slotsLeft);
        var budget := Share(remaining, slotsLeft, chunk);
        SplitIsSound(hasHandle, index + 1, chunk, remaining - budget);
        SumOfRest(budget, Split(hasHandle, index + 1, chunk, remaining - budget));
      }
    }
  }

  method PrefillBudgets(hasHandle: seq<bool>, maxPerStep: nat, chunk: nat, tick: nat) returns (budgets: seq<nat>)
    requires |hasHandle| <= maxPerStep <= tick && chunk > 0
    ensures budgets == Split(hasHandle, 0, chunk, tick)
    ensures Sum(budgets) <= tick && forall k :: 0 <= k < |budgets| ==> 1 <= budgets[k] <= chunk
  {
    SplitIsSound(hasHandle, 0, chunk, tick);
    budgets := [];
    var remaining: int := tick;
    for index := 0 to |hasHandle|
      invariant budgets + Split(hasHandle, index, chunk, remaining) == Split(hasHandle, 0, chunk, tick)
      invariant remaining >= |hasHandle| - index
    {
      if !hasHandle[index] { continue; }
      var slotsLeft := Greatest(1, |hasHandle| - index);
      ShareLeavesRest(remaining, slotsLeft);
      var budget := Least(chunk, Greatest(1, remaining / slotsLeft));
      assert budget == Share(remaining, |hasHandle| - index, chunk);
      remaining := remaining - budget;
      budgets := budgets + [budget];
    }
    assert budgets + [] == budgets;
  }

  lemma EvenShare(tick: nat, n: nat)
    requires n >= 1
    ensures tick / n * n <= tick
  {
  }

  lemma QuotientIsLargest(q: nat, tick: nat, n: nat)
    requires n >= 1 && q * n <= tick
    ensures q <= tick / n
  {
    DivideOf(tick, n);
    if q > tick / n { Scaled(tick / n + 1, q, n); }
  }

  lemma DivideOf(a: nat, n: nat)
    requires n >= 1
    ensures a < (a / n + 1) * n
  {
    assert a == a / n * n + a % n;
    assert (a / n + 1) * n == a / n * n + n;
  }

  /** Tokens of a decode batch. */
  function BatchCost(quantum: nat, selected: nat): nat { quantum * selected }

  /** The decode quantum: the largest number of tokens, within the step limit, that every
      selected sequence can have without the batch exceeding the tick budget; at least one. */
  method DecodeQuantum(selected: nat, maxPerStep: nat, step: nat, tick: nat) returns (quantum: nat)
    requires selected <= Least(maxPerStep, tick) && step > 0 && tick > 0
    ensures 1 <= quantum <= step && BatchCost(quantum, selected) <= tick
    ensures selected > 0 ==> forall q: nat :: q <= step && BatchCost(q, selected) <= tick ==> q <= quantum
  {
    quantum := Least(step, Greatest(1, tick / Greatest(1, selected)));
    if selected >= 1 {
      EvenShare(tick, selected);
      if tick / selected >= 1 { Scaled(quantum, tick / selected, selected); }
      forall q: nat | q <= step && BatchCost(q, selected) <= tick
        ensures q <= quantum
      {
        QuotientIsLargest(q, tick, selected);
      }
    }
  }

  lemma Scaled(a: nat, b: nat, n: nat)
    requires a <= b
    ensures a * n <= b * n
  {
  }
}
