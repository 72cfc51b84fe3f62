/** What the admission ledger answers, and how the batch budgets are shared out, stated without
    the ledger's own sums. */
module QuotaAnswers {
  import opened Basics
  import opened Quota
  import opened QuotaObject

  /** The requests of the workflow and agent named; none named: of all. */
  predicate Of(s: Scheduling, workflow: Option<string>, agent: Option<string>) {
    (workflow == None || workflow == Some(s.workflow)) && (agent == None || agent == Some(s.agent))
  }

  function Waiting(rs: seq<Reservation>, workflow: Option<string>, agent: Option<string>): set<nat> {
    set k: nat | k < |rs| && rs[k].tokens.None? && Of(rs[k].scheduling, workflow, agent)
  }

  function Running(rs: seq<Reservation>, workflow: Option<string>, agent: Option<string>): set<nat> {
    set k: nat | k < |rs| && rs[k].tokens.Some? && Of(rs[k].scheduling, workflow, agent)
  }

  /** Tokens reserved by the running requests. */
  function Reserved(rs: seq<Reservation>, workflow: Option<string>, agent: Option<string>): nat
    decreases |rs|
  {
    if rs == [] then 0
    else
      var r := rs[|rs| - 1];
      Reserved(rs[..|rs| - 1], workflow, agent) + if Of(r.scheduling, workflow, agent) && r.tokens.Some? then r.tokens.value else 0
  }

  lemma OneMoreCounted(before: set<nat>, after: set<nat>, n: nat, more: bool)
    requires n !in before && forall k: nat :: k in after <==> k in before || (k == n && more)
    ensures |after| == |before| + if more then 1 else 0
  {
    assert after == if more then before + {n} else before;
  }

  lemma WaitingAdds(rs: seq<Reservation>, workflow: Option<string>, agent: Option<string>)
    requires rs != []
    ensures var last := rs[|rs| - 1];
            |Waiting(rs, workflow, agent)| ==
              |Waiting(rs[..|rs| - 1], workflow, agent)| + if last.tokens.None? && Of(last.scheduling, workflow, agent) then 1 else 0
  {
    hide Of;
    var n := |rs| - 1;
    var before, after := Waiting(rs[..n], workflow, agent), Waiting(rs, workflow, agent);
    forall k: nat
      ensures k in after <==> k in before || (k == n && rs[n].tokens.None? && Of(rs[n].scheduling, workflow, agent))
    {
    }
    assert n !in before;
    hide Waiting;
    OneMoreCounted(before, after, n, rs[n].tokens.None? && Of(rs[n].scheduling, workflow, agent));
  }

  lemma {:induction false} CountsWaiting(rs: seq<Reservation>, w: Within, workflow: Option<string>, agent: Option<string>)
    requires forall k :: 0 <= k < |rs| ==> (Belongs(rs[k].scheduling, w) <==> Of(rs[k].scheduling, workflow, agent))
    ensures PendingIn(rs, w) == |Waiting(rs, workflow, agent)|
    decreases |rs|
  {
    hide Belongs;
    hide Of;
    if rs == [] {
      assert Waiting(rs, workflow, agent) == {};
    } else {
      hide Waiting;
      CountsWaiting(rs[..|rs| - 1], w, workflow, agent);
      WaitingAdds(rs, workflow, agent);
    }
  }

  lemma RunningAdds(rs: seq<Reservation>, workflow: Option<string>, agent: Option<string>)
    requires rs != []
    ensures var last := rs[|rs| - 1];
            |Running(rs, workflow, agent)| ==
              |Running(rs[..|rs| - 1], workflow, agent)| + if last.tokens.Some? && Of(last.scheduling, workflow, agent) then 1 else 0
  {
    hide Of;
    var n := |rs| - 1;
    var before, after := Running(rs[..n], workflow, agent), Running(rs, workflow, agent);
    forall k: nat
      ensures k in after <==> k in before || (k == n && rs[n].tokens.Some? && Of(rs[n].scheduling, workflow, agent))
    {
    }
    assert n !in before;
    hide Running;
    OneMoreCounted(before, after, n, rs[n].tokens.Some? && Of(rs[n].scheduling, workflow, agent));
  }

  lemma {:induction false} CountsRunning(rs: seq<Reservation>, w: Within, workflow: Option<string>, agent: Option<string>)
    requires forall k :: 0 <= k < |rs| ==> (Belongs(rs[k].scheduling, w) <==> Of(rs[k].scheduling, workflow, agent))
    ensures ActiveIn(rs, w) == |Running(rs, workflow, agent)|
    decreases |rs|
  {
    hide Belongs;
    hide Of;
    if rs == [] {
      assert Running(rs, workflow, agent) == {};
    } else {
      hide Running;
      CountsRunning(rs[..|rs| - 1], w, workflow, agent);
      RunningAdds(rs, workflow, agent);
    }
  }

  lemma {:induction false} CountsReserved(rs: seq<Reservation>, w: Within, workflow: Option<string>, agent: Option<string>)
    requires forall k :: 0 <= k < |rs| ==> (Belongs(rs[k].scheduling, w) <==> Of(rs[k].scheduling, workflow, agent))
    ensures TokensIn(rs, w) == Reserved(rs, workflow, agent)
    decreases |rs|
  {
    hide Belongs;
    hide Of;
    if rs != [] { CountsReserved(rs[..|rs| - 1], w, workflow, agent); }
  }

  /** The ledger's sums are the counts. */
  lemma Counts(rs: seq<Reservation>, w: Within, workflow: Option<string>, agent: Option<string>)
    requires forall k :: 0 <= k < |rs| ==> (Belongs(rs[k].scheduling, w) <==> Of(rs[k].scheduling, workflow, agent))
    ensures PendingIn(rs, w) == |Waiting(rs, workflow, agent)|
    ensures ActiveIn(rs, w) == |Running(rs, workflow, agent)|
    ensures TokensIn(rs, w) == Reserved(rs, workflow, agent)
  {
    CountsWaiting(rs, w, workflow, agent);
    CountsRunning(rs, w, workflow, agent);
    CountsReserved(rs, w, workflow, agent);
  }

  // ----- admission -----

  /** The reasons to refuse, in the order in which they are looked for. */
  const Reasons: seq<Admission> :=
    [InvalidEstimate, ContextOverflow, WorkflowKvQuota, AgentKvQuota, UnknownServiceClass, DuplicateRequest,
     QueueFull, Overloaded, WorkflowQueueQuota, AgentQueueQuota]

  /** Does this reason stand against the request? */
  ghost predicate Against(l: Limits, rs: seq<Reservation>, s: Scheduling, estimate: int, a: Admission) {
    match a
    case InvalidEstimate => estimate <= 0
    case ContextOverflow => estimate > l.kvBudget
    case WorkflowKvQuota => estimate > l.maxKvPerWorkflow
    case AgentKvQuota => estimate > l.maxKvPerAgent
    case UnknownServiceClass => s.serviceClass !in l.classes
    case DuplicateRequest => exists k :: 0 <= k < |rs| && rs[k].scheduling.requestId == s.requestId
    case QueueFull => |Waiting(rs, None, None)| >= l.maxPending
    case Overloaded =>
      && |Waiting(rs, None, None)| >= l.shedThreshold
      && s.serviceClass in l.classes && !l.classes[s.serviceClass].emergency && l.classes[s.serviceClass].priority < l.shedPriority
    case WorkflowQueueQuota => |Waiting(rs, Some(s.workflow), None)| >= l.maxPendingPerWorkflow
    case AgentQueueQuota => |Waiting(rs, Some(s.workflow), Some(s.agent))| >= l.maxPendingPerAgent
    case Admitted => false
  }

  /** Admission answers with the first reason that stands, and changes nothing; if none stands
      the request is admitted, pending, behind everybody else. */
  lemma AdmitExactly(l: Limits, rs: seq<Reservation>, s: Scheduling, estimate: int)
    ensures var (rs1, a) := Admit(l, rs, s, estimate);
            && (a.Admitted? <==> forall k :: 0 <= k < |Reasons| ==> !Against(l, rs, s, estimate, Reasons[k]))
            && (!a.Admitted? ==>
                  && rs1 == rs
                  && exists k :: && 0 <= k < |Reasons| && a == Reasons[k] && Against(l, rs, s, estimate, a)
                                 && forall j :: 0 <= j < k ==> !Against(l, rs, s, estimate, Reasons[j]))
            && (a.Admitted? ==> rs1 == rs + [Reservation(s, estimate, None)])
  {
    hide Admit;
    hide Against;
    var a := Admit(l, rs, s, estimate).1;
    AdmitAgainst(l, rs, s, estimate);
    FirstReasons(l, rs, s, estimate, PlaceOf(a));
    if PlaceOf(a) < 10 { assert Reasons[PlaceOf(a)] == a; }
  }

  /** Place of a reason in their order. */
  function PlaceOf(a: Admission): nat {
    match a
    case InvalidEstimate => 0 case ContextOverflow => 1 case WorkflowKvQuota => 2 case AgentKvQuota => 3
    case UnknownServiceClass => 4 case DuplicateRequest => 5 case QueueFull => 6 case Overloaded => 7
    case WorkflowQueueQuota => 8 case AgentQueueQuota => 9 case Admitted => 10
  }

  /** None of the first `n` reasons stands. */
  ghost predicate NoneOfFirst(l: Limits, rs: seq<Reservation>, s: Scheduling, estimate: int, n: nat) {
    && (0 < n ==> !Against(l, rs, s, estimate, InvalidEstimate))
    && (1 < n ==> !Against(l, rs, s, estimate, ContextOverflow))
    && (2 < n ==> !Against(l, rs, s, estimate, WorkflowKvQuota))
    && (3 < n ==> !Against(l, rs, s, estimate, AgentKvQuota))
    && (4 < n ==> !Against(l, rs, s, estimate, UnknownServiceClass))
    && (5 < n ==> !Against(l, rs, s, estimate, DuplicateRequest))
    && (6 < n ==> !Against(l, rs, s, estimate, QueueFull))
    && (7 < n ==> !Against(l, rs, s, estimate, Overloaded))
    && (8 < n ==> !Against(l, rs, s, estimate, WorkflowQueueQuota))
    && (9 < n ==> !Against(l, rs, s, estimate, AgentQueueQuota))
  }

  lemma KnownIsFound(rs: seq<Reservation>, id: string)
    ensures Find(rs, id).Some? <==> exists k :: 0 <= k < |rs| && rs[k].scheduling.requestId == id
  {
  }

  /** The sums an admission is decided on. */
  lemma AdmissionCounts(rs: seq<Reservation>, s: Scheduling)
    ensures PendingIn(rs, Everywhere) == |Waiting(rs, None, None)|
    ensures PendingIn(rs, InWorkflow(s.workflow)) == |Waiting(rs, Some(s.workflow), None)|
    ensures PendingIn(rs, InAgent(s.workflow, s.agent)) == |Waiting(rs, Some(s.workflow), Some(s.agent))|
    ensures Find(rs, s.requestId).Some? <==> exists k :: 0 <= k < |rs| && rs[k].scheduling.requestId == s.requestId
  {
    KnownIsFound(rs, s.requestId);
    CountsWaiting(rs, Everywhere, None, None);
    CountsWaiting(rs, InWorkflow(s.workflow), Some(s.workflow), None);
    CountsWaiting(rs, InAgent(s.workflow, s.agent), Some(s.workflow), Some(s.agent));
  }

  lemma AdmitAgainst(l: Limits, rs: seq<Reservation>, s: Scheduling, estimate: int)
    ensures var (rs1, a) := Admit(l, rs, s, estimate);
            && NoneOfFirst(l, rs, s, estimate, PlaceOf(a)) && (!a.Admitted? ==> Against(l, rs, s, estimate, a) && rs1 == rs)
            && (a.Admitted? ==> rs1 == rs + [Reservation(s, estimate, None)])
  {
    hide Waiting;
    hide PendingIn;
    hide Find;
    AdmissionCounts(rs, s);
  }

  lemma FirstReasons(l: Limits, rs: seq<Reservation>, s: Scheduling, estimate: int, n: nat)
    requires n <= 10 && NoneOfFirst(l, rs, s, estimate, n)
    ensures forall k :: 0 <= k < n ==> !Against(l, rs, s, estimate, Reasons[k])
  {
    hide Against;
  }

  // ----- activation -----

  /** Room for one more running request with this estimate. */
  predicate RoomFor(rs: seq<Reservation>, workflow: Option<string>, agent: Option<string>, sequences: nat, tokens: nat, estimate: nat) {
    |Running(rs, workflow, agent)| < sequences && Reserved(rs, workflow, agent) + estimate <= tokens
  }

  predicate MayStart(l: Limits, rs: seq<Reservation>, r: Reservation) {
    && r.tokens.None?
    && RoomFor(rs, None, None, l.maxSequences, l.kvBudget, r.estimate)
    && RoomFor(rs, Some(r.scheduling.workflow), None, l.maxSequencesPerWorkflow, l.maxKvPerWorkflow, r.estimate)
    && RoomFor(rs, Some(r.scheduling.workflow), Some(r.scheduling.agent), l.maxSequencesPerAgent, l.maxKvPerAgent, r.estimate)
  }

  /** The check before opening passes exactly if the request is pending and everybody, its
      workflow and its agent have room for one more and for its estimate. */
  lemma MayActivateExactly(l: Limits, rs: seq<Reservation>, id: string)
    requires DistinctRequests(rs)
    ensures CanActivate(l, rs, id) <==> exists k :: 0 <= k < |rs| && rs[k].scheduling.requestId == id && MayStart(l, rs, rs[k])
  {
    hide MayStart;
    hide HasRoom;
    var i := Find(rs, id);
    if i.Some? {
      var r := rs[i.value];
      StartsWithRoom(l, rs, r);
      forall k | 0 <= k < |rs| && rs[k].scheduling.requestId == id
        ensures k == i.value
      {
        FindIs(rs, k);
      }
    }
  }

  lemma StartsWithRoom(l: Limits, rs: seq<Reservation>, r: Reservation)
    ensures MayStart(l, rs, r) <==>
              && r.tokens.None? && HasRoom(l, rs, Everywhere, r.estimate) && HasRoom(l, rs, InWorkflow(r.scheduling.workflow), r.estimate)
              && HasRoom(l, rs, InAgent(r.scheduling.workflow, r.scheduling.agent), r.estimate)
  {
    Counts(rs, Everywhere, None, None);
    Counts(rs, InWorkflow(r.scheduling.workflow), Some(r.scheduling.workflow), None);
    Counts(rs, InAgent(r.scheduling.workflow, r.scheduling.agent), Some(r.scheduling.workflow), Some(r.scheduling.agent));
    hide Running;
    hide Reserved;
    hide ActiveIn;
    hide TokensIn;
  }

  /** Activation books what the backend reports, or else the estimate, for a pending request,
      unless that is not positive or more than the estimate; nobody else's reservation changes. */
  lemma ActivateExactly(rs: seq<Reservation>, k: nat, reported: Option<int>)
    requires DistinctRequests(rs) && k < |rs|
    ensures var r := rs[k];
            var actual: int := if reported.Some? then reported.value else r.estimate;
            var (rs1, a) := Activate(rs, r.scheduling.requestId, reported);
            && (a.StateConflict? <==> r.tokens.Some?)
            && (a.InvalidReservation? <==> r.tokens.None? && actual <= 0)
            && (a.Underestimated? <==> r.tokens.None? && actual > 0 && actual > r.estimate)
            && (a.Activated? <==> r.tokens.None? && 0 < actual <= r.estimate)
            && |rs1| == |rs| && (forall j :: 0 <= j < |rs| && j != k ==> rs1[j] == rs[j])
            && rs1[k] == if a.Activated? then Reservation(r.scheduling, r.estimate, Some(actual)) else r
  {
    FindIs(rs, k);
  }

  /** A request without a reservation is unknown to activation, and release does nothing to it;
      releasing a reservation takes that one out and leaves the others in order. */
  lemma ReleaseExactly(rs: seq<Reservation>, id: string)
    requires DistinctRequests(rs)
    ensures (forall k :: 0 <= k < |rs| ==> rs[k].scheduling.requestId != id) ==>
              Drop(rs, id) == rs && forall reported :: Activate(rs, id, reported) == (rs, UnknownRequest)
    ensures forall k :: 0 <= k < |rs| && rs[k].scheduling.requestId == id ==> Drop(rs, id) == rs[..k] + rs[k + 1..]
  {
    KnownIsFound(rs, id);
    forall k: nat | k < |rs| && rs[k].scheduling.requestId == id
      ensures Drop(rs, id) == rs[..k] + rs[k + 1..]
    {
      FindIs(rs, k);
      hide Find;
      hide DistinctRequests;
    }
    hide Find;
    hide DistinctRequests;
    if Find(rs, id).Some? {
      var k :| 0 <= k < |rs| && rs[k].scheduling.requestId == id;
    }
  }

  // ----- over runs -----

  /** In every reached state: a submission is taken exactly if the request is new to the
      scheduler and no reason stands against it, and then it is queued. */
  lemma SubmitOverRuns(l: Limits, steps: seq<Step>, q: Scheduling, estimate: int)
    ensures var s := DoAll(l, steps);
            var s1 := Do(l, s, Submit(q, estimate));
            if q.requestId !in s.entries && forall k :: 0 <= k < |Reasons| ==> !Against(l, s.ledger, q, estimate, Reasons[k])
            then q.requestId in s1.entries && s1.entries[q.requestId] == Entry(q, Queued, false)
                 && s1.ledger == s.ledger + [Reservation(q, estimate, None)]
            else s1 == s
  {
    hide DoAll;
    AdmitExactly(l, DoAll(l, steps).ledger, q, estimate);
    hide Admit;
    hide Against;
  }

  /** In every reached state: an opening begins exactly if none is under way, the request is
      queued and there is room for it; one that succeeds is booked and leaves the request open
      with a handle. */
  lemma OpeningOverRuns(l: Limits, steps: seq<Step>, id: string, reported: Option<int>)
    ensures var s := DoAll(l, steps);
            var s1 := Do(l, s, BeginOpen(id));
            && (s.opening.None? ==>
                  (s1.opening == Some(id) <==>
                     && id in s.entries && s.entries[id].phase == Queued
                     && exists k :: 0 <= k < |s.ledger| && s.ledger[k].scheduling.requestId == id && MayStart(l, s.ledger, s.ledger[k])))
            && (s.opening.Some? ==> s1 == s)
            && (s.opening == Some(id) ==>
                  var s2 := Do(l, s, OpenSucceeds(reported));
                  && id in s2.entries && s2.entries[id].phase == Open && s2.entries[id].hasHandle && s2.opening == None
                  && exists k :: && 0 <= k < |s.ledger| && s.ledger[k].scheduling.requestId == id
                                 && var actual: int := if reported.Some? then reported.value else s.ledger[k].estimate;
                                    if 0 < actual <= s.ledger[k].estimate
                                    then s2.ledger == s.ledger[k := s.ledger[k].(tokens := Some(actual))] && (id in s2.refused <==> id in s.refused)
                                    else s2.ledger == s.ledger && id in s2.refused)
  {
    hide DoAll;
    hide MayStart;
    RunOk(l, steps);
    var s := DoAll(l, steps);
    MayActivateExactly(l, s.ledger, id);
    if s.opening == Some(id) {
      MayFind(l, s.ledger, id);
      var k := Find(s.ledger, id).value;
      ActivateExactly(s.ledger, k, reported);
      hide Activate;
      hide CanActivate;
      var s2 := Do(l, s, OpenSucceeds(reported));
      var actual: int := if reported.Some? then reported.value else s.ledger[k].estimate;
      if 0 < actual <= s.ledger[k].estimate {
        assert s2.ledger == s.ledger[k := s.ledger[k].(tokens := Some(actual))];
      } else {
        assert s2.ledger == s.ledger;
      }
    }
  }

  // ----- batch budgets -----

  function Smaller(a: int, b: int): int { if a < b then a else b }

  lemma NextShare(remaining: nat, left: nat)
    requires 2 <= left <= remaining
    ensures var q := remaining / left;
            && remaining - q >= left - 1 && q <= (remaining - q) / (left - 1) <= q + 1
            && remaining / (left - 1) >= q
  {
    var q, r := remaining / left, remaining % left;
    assert remaining == left * q + r;
    assert remaining - q == (left - 1) * q + r;
    assert remaining - q < (q + 2) * (left - 1) by {
      OneMore(q, left - 1);
      OneMore(q + 1, left - 1);
    }
    assert remaining == (left - 1) * q + (q + r);
    ShareLeavesRest(remaining, left);
    QuotientIsLargest(q, remaining - q, left - 1);
    QuotientIsLargest(q, remaining, left - 1);
    AtMost(remaining - q, left - 1, q + 1);
  }

  lemma OneMore(q: nat, n: nat)
    ensures (q + 1) * n == q * n + n
  {
  }

  lemma AtMost(a: nat, n: nat, q: nat)
    requires n >= 1 && a < (q + 1) * n
    ensures a / n <= q
  {
    EvenShare(a, n);
    if a / n > q { Scaled(q + 1, a / n, n); }
  }

  /** After a sequence has had the chunk limit the rest still have an even share of it. */
  lemma ChunkLeaves(remaining: nat, left: nat, chunk: nat)
    requires 2 <= left && chunk >= 1 && remaining / left >= chunk
    ensures remaining - chunk >= left - 1 && (remaining - chunk) / (left - 1) >= chunk
  {
    EvenShare(remaining, left);
    Scaled(chunk, remaining / left, left);
    assert (left - 1) * chunk == chunk * left - chunk;
    OneShareOff(left, chunk);
    QuotientIsLargest(chunk, remaining - chunk, left - 1);
  }

  /** An even share of `remaining`, within the chunk limit. */
  function Even(chunk: nat, remaining: nat, left: nat): int
    requires left > 0
  {
    Smaller(chunk, remaining / left)
  }

  /** The share of the first of several, and what it leaves the others. */
  lemma ShareLeavesEven(chunk: nat, remaining: nat, left: nat)
    requires 2 <= left <= remaining && chunk >= 1
    ensures var budget := Share(remaining, left, chunk);
            && budget == Even(chunk, remaining, left) && remaining - budget >= left - 1
            && budget <= Even(chunk, remaining - budget, left - 1)
            && budget <= Smaller(chunk, Ceiling(remaining, left))
            && Smaller(chunk, Ceiling(remaining - budget, left - 1)) <= Smaller(chunk, Ceiling(remaining, left))
            && budget <= Even(chunk, remaining, left - 1)
  {
    ShareLeavesRest(remaining, left);
    NextShare(remaining, left);
    if remaining / left >= chunk {
      ChunkLeaves(remaining, left, chunk);
    }
    CeilingStays(remaining, left);
  }

  function Ceiling(a: nat, n: nat): nat
    requires n > 0
  {
    (a + n - 1) / n
  }

  /** Taking the even share off a total leaves the others no larger a share, rounded up. */
  lemma CeilingStays(remaining: nat, left: nat)
    requires 2 <= left <= remaining
    ensures remaining / left <= remaining && remaining / left <= Ceiling(remaining, left)
    ensures Ceiling(remaining - remaining / left, left - 1) <= Ceiling(remaining, left)
  {
    hide Ceiling;
    var q, c := remaining / left, Ceiling(remaining, left);
    EvenShare(remaining, left);
    DivideOf(remaining, left);
    CeilingCovers(remaining, left);
    CeilingIsNext(remaining, left);
    ShareBelow(remaining, left, q, c);
    CeilingIsLeast(remaining - q, left - 1, c);
  }

  lemma ShareBelow(a: nat, n: nat, q: nat, c: nat)
    requires 2 <= n <= a && q * n <= a < (q + 1) * n && a <= c * n && c <= q + 1
    ensures q <= a && q <= c && (a - q) <= c * (n - 1)
  {
    OneMore(q, n);
    OneMore(n - 1, c);
    OneMore(n - 1, q);
    if q >= c + 1 {
      Scaled(c + 1, q, n);
      OneMore(c, n);
    }
    if c == q + 1 { OneMore(q, n - 1); }
  }

  lemma CeilingCovers(a: nat, n: nat)
    requires n >= 1
    ensures Ceiling(a, n) * n >= a
  {
    DivideOf(a + n - 1, n);
    OneMore(Ceiling(a, n), n);
  }

  lemma CeilingIsLeast(a: nat, n: nat, c: nat)
    requires n >= 1 && c * n >= a
    ensures Ceiling(a, n) <= c
  {
    OneMore(c, n);
    AtMost(a + n - 1, n, c);
  }

  lemma CeilingIsNext(a: nat, n: nat)
    requires n >= 1
    ensures Ceiling(a, n) <= a / n + 1
  {
    DivideOf(a, n);
    CeilingIsLeast(a, n, a / n + 1);
  }

  /** Nobody gets less than `least`, and later ones never less than earlier ones. */
  predicate Grows(budgets: seq<nat>, least: int) {
    && (forall k :: 0 <= k < |budgets| ==> budgets[k] >= least)
    && (forall j, k :: 0 <= j < k < |budgets| ==> budgets[j] <= budgets[k])
  }

  lemma FirstIsLeast(budget: nat, rest: seq<nat>, least: int)
    requires Grows(rest, least) && budget <= least
    ensures Grows([budget] + rest, budget)
  {
  }

  /** Later sequences never get less, and everybody at least an even share of the tick budget or
      the chunk limit. */
  lemma {:induction false} SplitGrows(hasHandle: seq<bool>, index: nat, chunk: nat, remaining: nat)
    requires index < |hasHandle| && chunk > 0 && remaining >= |hasHandle| - index
    ensures Grows(Split(hasHandle, index, chunk, remaining), Even(chunk, remaining, |hasHandle| - index))
    decreases |hasHandle| - index
  {
    hide Even;
    hide Share;
    hide Grows;
    var left := |hasHandle| - index;
    var budget := Share(remaining, left, chunk);
    if left >= 2 {
      ShareLeavesEven(chunk, remaining, left);
      if hasHandle[index] {
        var rest := Split(hasHandle, index + 1, chunk, remaining - budget);
        SplitGrows(hasHandle, index + 1, chunk, remaining - budget);
        FirstIsLeast(budget, rest, Even(chunk, remaining - budget, left - 1));
      } else {
        SplitGrows(hasHandle, index + 1, chunk, remaining);
        LeastIsLess(Split(hasHandle, index + 1, chunk, remaining), Even(chunk, remaining, left - 1), budget);
      }
    } else {
      assert Split(hasHandle, index + 1, chunk, remaining - budget) == [];
      assert Split(hasHandle, index + 1, chunk, remaining) == [];
      LastGrows(remaining, chunk);
    }
  }

  lemma LastGrows(remaining: nat, chunk: nat)
    requires remaining >= 1 && chunk >= 1
    ensures Grows([Share(remaining, 1, chunk)] + [], Even(chunk, remaining, 1)) && Grows([], Even(chunk, remaining, 1))
    ensures Share(remaining, 1, chunk) == remaining || Share(remaining, 1, chunk) == chunk
  {
  }

  lemma LeastIsLess(budgets: seq<nat>, least: int, less: int)
    requires Grows(budgets, least) && less <= least
    ensures Grows(budgets, less)
  {
  }

  /** If the last sequence takes part, the tick budget is spent, or the last one, and so the
      largest, has the chunk limit. */
  lemma {:induction false} SplitSpends(hasHandle: seq<bool>, index: nat, chunk: nat, remaining: nat)
    requires index < |hasHandle| && chunk > 0 && remaining >= |hasHandle| - index && hasHandle[|hasHandle| - 1]
    ensures var budgets := Split(hasHandle, index, chunk, remaining);
            |budgets| > 0 && (Sum(budgets) == remaining || budgets[|budgets| - 1] == chunk)
    decreases |hasHandle| - index
  {
    hide Even;
    hide Share;
    var left := |hasHandle| - index;
    var budget := Share(remaining, left, chunk);
    if left == 1 {
      assert Split(hasHandle, index + 1, chunk, remaining - budget) == [];
      assert [budget][..0] == [];
      LastGrows(remaining, chunk);
    } else {
      ShareLeavesEven(chunk, remaining, left);
      if hasHandle[index] {
        SplitSpends(hasHandle, index + 1, chunk, remaining - budget);
        SumOfRest(budget, Split(hasHandle, index + 1, chunk, remaining - budget));
      } else {
        SplitSpends(hasHandle, index + 1, chunk, remaining);
      }
    }
  }

  /** If all take part, the budgets are the even split of all that can be spent: they add up to
      the tick budget, or to the chunk limit for everybody if that is less, and each is the even
      share rounded down or up. */
  lemma {:induction false} SplitIsEven(hasHandle: seq<bool>, index: nat, chunk: nat, remaining: nat)
    requires index < |hasHandle| && chunk > 0 && remaining >= |hasHandle| - index
    requires forall k :: 0 <= k < |hasHandle| ==> hasHandle[k]
    ensures var budgets := Split(hasHandle, index, chunk, remaining);
            var n := |hasHandle| - index;
            && |budgets| == n && Sum(budgets) == Smaller(remaining, n * chunk)
            && Between(budgets, Even(chunk, remaining, n), Smaller(chunk, Ceiling(remaining, n)))
    decreases |hasHandle| - index
  {
    hide Share;
    hide Smaller;
    hide Even;
    hide Ceiling;
    hide Between;
    hide Sum;
    var left := |hasHandle| - index;
    var budget := Share(remaining, left, chunk);
    if left == 1 {
      assert Split(hasHandle, index + 1, chunk, remaining - budget) == [];
      LastShare(remaining, chunk);
    } else {
      var rest := Split(hasHandle, index + 1, chunk, remaining - budget);
      ShareLeavesEven(chunk, remaining, left);
      SplitIsEven(hasHandle, index + 1, chunk, remaining - budget);
      SumOfRest(budget, rest);
      WholeSum(remaining, left, chunk);
      FirstBetween(budget, rest, Even(chunk, remaining - budget, left - 1), Smaller(chunk, Ceiling(remaining - budget, left - 1)),
                   Even(chunk, remaining, left), Smaller(chunk, Ceiling(remaining, left)));
    }
  }

  predicate Between(budgets: seq<nat>, least: int, most: int) { forall k :: 0 <= k < |budgets| ==> least <= budgets[k] <= most }

  lemma FirstBetween(budget: nat, rest: seq<nat>, least: int, most: int, less: int, more: int)
    requires Between(rest, least, most) && less <= least && most <= more && less <= budget <= more
    ensures Between([budget] + rest, less, more)
  {
  }

  lemma LastShare(remaining: nat, chunk: nat)
    requires remaining >= 1 && chunk >= 1
    ensures var budget := Share(remaining, 1, chunk);
            && Sum([budget] + []) == Smaller(remaining, 1 * chunk)
            && Between([budget] + [], Even(chunk, remaining, 1), Smaller(chunk, Ceiling(remaining, 1)))
  {
    var budget := Share(remaining, 1, chunk);
    assert [budget] + [] == [budget] && [budget][..0] == [];
  }

  lemma WholeSum(remaining: nat, left: nat, chunk: nat)
    requires 2 <= left <= remaining && chunk >= 1
    ensures var budget := Even(chunk, remaining, left);
            budget + Smaller(remaining - budget, (left - 1) * chunk) == Smaller(remaining, left * chunk)
  {
    assert left * chunk == (left - 1) * chunk + chunk;
    var q := remaining / left;
    EvenShare(remaining, left);
    if q >= chunk {
      Scaled(chunk, q, left);
      assert left * chunk <= remaining;
    } else {
      DivideOf(remaining, left);
      OneMore(q, left);
      Scaled(q + 1, chunk, left - 1);
      OneMore(q, left - 1);
      OneMore(left - 1, q);
    }
  }
}
