/** What one operation of the deterministic scheduler does, told by the clock, the service
    classes and the fields of its entries. */
module SimulatorMeaning {
  import opened Basics
  import opened Simulator
  import opened SchedulerEvents

  // ----- standing -----

  /** The scheduler's priority of a service class; an unknown one would count for nothing. */
  predicate ClassCounts(p: Policy, class_: string, q: int) {
    if class_ in p.priorities then q == p.priorities[class_] else q == 0
  }

  /** `n` aging intervals have gone by since `since`, and not one more; before `since`, the same
      backwards. */
  predicate WholeIntervals(p: Policy, since: real, now: real, n: int) {
    var waited := now - since;
    if waited >= 0.0 then n as real * p.agingInterval <= waited < (n + 1) as real * p.agingInterval
    else n as real * p.agingInterval >= waited > (n - 1) as real * p.agingInterval
  }

  /** The standing of an entry: the priority of its class and its whole aging intervals, less
      its steps by its weight. */
  ghost predicate StandsAt(p: Policy, e: Entry, now: real, x: real) {
    exists q, n ::
      && ClassCounts(p, e.scheduling.serviceClass, q) && WholeIntervals(p, e.admittedAt, now, n)
      && x == (q + n) as real - e.steps as real / e.scheduling.weight as real
  }

  predicate Earlier(a: Option<real>, b: Option<real>) { a.Some? && (b.None? || a.value < b.value) }

  /** The better standing first, then the earlier deadline, then the earlier admission. */
  ghost predicate ComesFirst(p: Policy, a: Entry, b: Entry, now: real) {
    exists x, y ::
      && StandsAt(p, a, now, x) && StandsAt(p, b, now, y)
      && if x != y then x > y
         else if a.scheduling.deadline != b.scheduling.deadline then Earlier(a.scheduling.deadline, b.scheduling.deadline)
         else a.order < b.order
  }

  lemma IntervalsAre(p: Policy, e: Entry, now: real)
    requires PolicyOk(p)
    ensures WholeIntervals(p, e.admittedAt, now, Truncate(Age(p, e, now)))
  {
    var waited, i := now - e.admittedAt, p.agingInterval;
    var age := Age(p, e, now);
    AgeScales(p, e, now);
    var n := Truncate(age);
    TruncateIs(age);
    hide Truncate;
    hide Age;
    if waited >= 0.0 { Between(n, n + 1, age, i, waited); } else { Between(-n, 1 - n, -age, i, -waited); }
  }

  lemma Between(n: int, m: int, x: real, i: real, w: real)
    requires i > 0.0 && x * i == w && n as real <= x < m as real
    ensures n as real * i <= w < m as real * i
  {
    var low, high := x - n as real, m as real - x;
    Scales(0.0, low, i);
    ScalesStrictly(0.0, high, i);
    assert low * i == x * i - n as real * i;
    assert high * i == m as real * i - x * i;
  }

  lemma AgeScales(p: Policy, e: Entry, now: real)
    requires PolicyOk(p)
    ensures var age := Age(p, e, now); age * p.agingInterval == now - e.admittedAt && (age >= 0.0 <==> now >= e.admittedAt)
  {
    var age, i := Age(p, e, now), p.agingInterval;
    assert age * i == now - e.admittedAt;
    if age >= 0.0 { Scales(0.0, age, i); } else { ScalesStrictly(age, 0.0, i); }
  }

  lemma TruncateIs(x: real)
    ensures var n := Truncate(x); if x >= 0.0 then n as real <= x < (n + 1) as real else n as real >= x > (n - 1) as real
  {
  }

  lemma Scales(a: real, b: real, i: real)
    requires a <= b && i > 0.0
    ensures a * i <= b * i
  {
    assert (b - a) * i >= 0.0;
  }

  lemma ScalesStrictly(a: real, b: real, i: real)
    requires a < b && i > 0.0
    ensures a * i < b * i
  {
    assert (b - a) * i > 0.0;
  }

  lemma ScoreStands(p: Policy, e: Entry, now: real)
    requires PolicyOk(p)
    ensures StandsAt(p, e, now, Score(p, e, now))
  {
    IntervalsAre(p, e, now);
    assert ClassCounts(p, e.scheduling.serviceClass, Priority(p, e));
    hide Truncate;
    hide Age;
    hide WholeIntervals;
  }

  /** Of two entries filed in different places, one that the other does not come before comes first. */
  lemma FirstComes(p: Policy, a: Entry, b: Entry, now: real)
    requires PolicyOk(p) && !Before(p, b, a, now) && a.order != b.order
    ensures ComesFirst(p, a, b, now)
  {
    ScoreStands(p, a, now);
    ScoreStands(p, b, now);
    hide StandsAt;
    hide Score;
  }

  /** The standing is one number. */
  lemma OneStanding(p: Policy, e: Entry, now: real, x: real, y: real)
    requires PolicyOk(p) && StandsAt(p, e, now, x) && StandsAt(p, e, now, y)
    ensures x == y
  {
    var q, n :| ClassCounts(p, e.scheduling.serviceClass, q) && WholeIntervals(p, e.admittedAt, now, n)
                && x == (q + n) as real - e.steps as real / e.scheduling.weight as real;
    var q', n' :| ClassCounts(p, e.scheduling.serviceClass, q') && WholeIntervals(p, e.admittedAt, now, n')
                  && y == (q' + n') as real - e.steps as real / e.scheduling.weight as real;
    OneCount(p, e.admittedAt, now, n, n');
    OneCount(p, e.admittedAt, now, n', n);
  }

  lemma OneCount(p: Policy, since: real, now: real, n: int, m: int)
    requires PolicyOk(p) && WholeIntervals(p, since, now, n) && WholeIntervals(p, since, now, m)
    ensures n <= m
  {
    if n >= m + 1 {
      Scales((m + 1) as real, n as real, p.agingInterval);
      Scales(m as real, (n - 1) as real, p.agingInterval);
    }
  }

  // ----- the entries at a tick -----

  predicate Overdue(e: Entry, now: real) { !e.lifecycle.Terminal? && e.scheduling.deadline.Some? && e.scheduling.deadline.value <= now }

  predicate Remains(e: Entry, now: real) { !e.lifecycle.Terminal? && !Overdue(e, now) }

  /** The sequences open once the overdue have ended. */
  function HandlesOut(entries: seq<Entry>, now: real): set<nat> {
    set k: nat | k < |entries| && Remains(entries[k], now) && entries[k].handle.Some? && !entries[k].releaseAttempted
  }

  /** May entry `i` be given this tick? One that has yet to open needs a sequence to spare. */
  predicate MayRun(p: Policy, entries: seq<Entry>, now: real, i: nat)
    requires i < |entries|
  {
    Remains(entries[i], now) && (entries[i].lifecycle.Admitted? ==> |HandlesOut(entries, now)| < p.maxSequences)
  }

  // ----- endings -----

  predicate Releases(e: Entry, b: Backend) { e.handle.None? || b.confirms(e.scheduling.requestId) }

  /** `e1` is `e` ended with this termination, or in error if its sequence would not go. */
  predicate EndedAs(e: Entry, t: Termination, b: Backend, e1: Entry) {
    e1 == Entry(e.scheduling, e.order, e.admittedAt, Terminal, Some(if Releases(e, b) then t else BackendError),
                e.handle, e.steps, e.handle.Some?)
  }

  function EndKinds(e: Entry, t: Termination, b: Backend): seq<EventKind> {
    if e.handle.Some? && !b.confirms(e.scheduling.requestId) then [RequestFailed]
    else
      var end := if t.Completed? then RequestCompleted else RequestFailed;
      if e.handle.Some? then [SequenceReleased, end] else [end]
  }

  // ----- the step -----

  /** Another request that remains has this handle. */
  predicate InUse(entries: seq<Entry>, now: real, i: nat, h: Handle) {
    exists j :: 0 <= j < |entries| && j != i && Remains(entries[j], now) && entries[j].handle == Some(h)
  }

  predicate Keeps(p: Policy, entries: seq<Entry>, now: real, i: nat, h: Option<Handle>) {
    h.Some? && h.value.backend == p.backend && h.value.model in p.models && !InUse(entries, now, i, h.value)
  }

  /** What entry `i` becomes on the backend's answer, and what is published about it. */
  predicate Steps(p: Policy, entries: seq<Entry>, now: real, i: nat, b: Backend, e1: Entry, told: seq<EventKind>)
    requires i < |entries|
  {
    var e := entries[i];
    var more := e.(steps := e.steps + 1);
    if e.lifecycle.Admitted? && b.answer.Opens? && Keeps(p, entries, now, i, b.answer.returned) then
      e1 == more.(lifecycle := Prefilling, handle := b.answer.returned) && told == [SequenceOpened]
    else if e.lifecycle.Prefilling? && b.answer.PrefillContinues? then e1 == more && told == [PrefillCompleted]
    else if e.lifecycle.Prefilling? && b.answer.PrefillReady? then e1 == more.(lifecycle := Decoding) && told == [PrefillCompleted]
    else if e.lifecycle.Decoding? && b.answer.DecodeContinues? then e1 == more && told == [DecodeCompleted]
    else if e.lifecycle.Decoding? && b.answer.DecodeFinished? then
      EndedAs(more, Completed, b, e1) && told == [DecodeCompleted] + EndKinds(e, Completed, b)
    else if e.lifecycle.Decoding? && b.answer.DecodeFailed? then
      EndedAs(more, BackendError, b, e1) && told == [DecodeCompleted] + EndKinds(e, BackendError, b)
    else EndedAs(e, BackendError, b, e1) && told == EndKinds(e, BackendError, b)
  }

  /** What was published about the request of entry `i` between two logs. */
  predicate Tells(log: seq<Event>, log1: seq<Event>, e: Entry, told: seq<EventKind>) {
    Trace(log1, e.scheduling.requestId) == Trace(log, e.scheduling.requestId) + told
  }

  // ----- expiry -----

  lemma EndedIs(e: Entry, t: Termination, b: Backend)
    requires IsActive(e)
    ensures EndedAs(e, t, b, Ended(e, t, b))
    ensures Trace(EndEvents(e, t, b), e.scheduling.requestId) == EndKinds(e, t, b)
  {
    var events := EndEvents(e, t, b);
    TraceOfOwn(events, e.scheduling.requestId);
    assert Trace(events, e.scheduling.requestId) == EndKinds(e, t, b);
  }

  lemma TerminalizeExactly(sim: Sim, i: nat, t: Termination, b: Backend, k: nat)
    requires i < |sim.entries| && k < |sim.entries| && DistinctIds(sim.entries) && IsActive(sim.entries[i])
    ensures var s := Terminalize(sim, i, t, b);
            && |s.entries| == |sim.entries|
            && (k != i ==> s.entries[k] == sim.entries[k] && Tells(sim.log, s.log, sim.entries[k], []))
            && (k == i ==> EndedAs(sim.entries[k], t, b, s.entries[k]) && Tells(sim.log, s.log, sim.entries[k], EndKinds(sim.entries[k], t, b)))
  {
    var e := sim.entries[i];
    EndedIs(e, t, b);
    EndEventsOwn(e, t, b);
    TraceAdds(sim.log, EndEvents(e, t, b), sim.entries[k].scheduling.requestId);
    if k != i {
      assert sim.entries[k].scheduling.requestId != e.scheduling.requestId;
      TraceOfOthers(EndEvents(e, t, b), sim.entries[k].scheduling.requestId);
    }
  }

  lemma {:induction false} ExpireDistinct(sim: Sim, now: real, b: Backend, n: nat)
    requires n <= |sim.entries| && DistinctIds(sim.entries)
    ensures DistinctIds(Expire(sim, now, b, n).entries)
  {
    var s := Expire(sim, now, b, n);
    forall k | 0 <= k < |sim.entries|
      ensures s.entries[k].scheduling == sim.entries[k].scheduling
    {
      ExpireContinues(sim, now, b, n, k);
    }
    hide Expire;
  }

  /** Expiry ends the overdue, exactly them. */
  lemma {:induction false} ExpireExactly(sim: Sim, now: real, b: Backend, n: nat, k: nat)
    requires n <= |sim.entries| && k < |sim.entries| && DistinctIds(sim.entries)
    ensures var (s, e) := (Expire(sim, now, b, n), sim.entries[k]);
            if k < n && Overdue(e, now)
            then EndedAs(e, DeadlineExceeded, b, s.entries[k]) && Tells(sim.log, s.log, e, EndKinds(e, DeadlineExceeded, b))
            else s.entries[k] == e && Tells(sim.log, s.log, e, [])
    decreases n
  {
    hide DistinctIds;
    hide Terminalize;
    hide EndedAs;
    hide EndKinds;
    hide Trace;
    if n > 0 {
      ExpireExactly(sim, now, b, n - 1, k);
      ExpireExactly(sim, now, b, n - 1, n - 1);
      var s := Expire(sim, now, b, n - 1);
      ExpireDistinct(sim, now, b, n - 1);
      if IsDue(s.entries[n - 1], now) {
        TerminalizeExactly(s, n - 1, DeadlineExceeded, b, k);
        var before := Trace(sim.log, sim.entries[k].scheduling.requestId);
        var told := EndKinds(sim.entries[k], DeadlineExceeded, b);
        ExpireContinues(sim, now, b, n - 1, k);
        assert before + [] == before && before + told + [] == before + told;
      }
    }
  }

  // ----- the choice -----

  function OpenOnes(entries: seq<Entry>): set<nat> {
    set k: nat | k < |entries| && IsActive(entries[k]) && entries[k].handle.Some? && !entries[k].releaseAttempted
  }

  lemma {:induction false} OpenHandlesCounts(entries: seq<Entry>)
    ensures OpenHandles(entries) == |OpenOnes(entries)|
    decreases |entries|
  {
    if entries == [] {
      assert OpenOnes(entries) == {};
    } else {
      var n := |entries| - 1;
      OpenHandlesCounts(entries[..n]);
      var before := OpenOnes(entries[..n]);
      assert n !in before;
      if IsActive(entries[n]) && entries[n].handle.Some? && !entries[n].releaseAttempted {
        assert OpenOnes(entries) == before + {n};
      } else {
        assert OpenOnes(entries) == before;
      }
    }
  }

  /** Each entry after expiry: itself if it remains, and over otherwise. */
  predicate Expired(entries: seq<Entry>, after: seq<Entry>, now: real) {
    && |after| == |entries|
    && forall k :: 0 <= k < |entries| ==> if Remains(entries[k], now) then after[k] == entries[k] else after[k].lifecycle.Terminal?
  }

  lemma ExpiredAll(sim: Sim, now: real, b: Backend)
    requires DistinctIds(sim.entries)
    ensures Expired(sim.entries, Expire(sim, now, b, |sim.entries|).entries, now)
  {
    hide Expire;
    hide DistinctIds;
    forall k | 0 <= k < |sim.entries|
      ensures var after := Expire(sim, now, b, |sim.entries|).entries;
              if Remains(sim.entries[k], now) then after[k] == sim.entries[k] else after[k].lifecycle.Terminal?
    {
      ExpireExactly(sim, now, b, |sim.entries|, k);
    }
  }

  lemma EligibleMayRun(p: Policy, entries: seq<Entry>, after: seq<Entry>, now: real, i: nat)
    requires Expired(entries, after, now) && i < |entries|
    ensures IsEligible(p, after, i) <==> MayRun(p, entries, now, i)
  {
    OpenHandlesCounts(after);
    assert OpenOnes(after) == HandlesOut(entries, now);
    hide OpenHandles;
    hide OpenOnes;
    hide HandlesOut;
  }

  predicate Filed(entries: seq<Entry>) { forall k :: 0 <= k < |entries| ==> entries[k].order == k }

  /** Whom the tick goes to: somebody who may run and comes before all others who may. */
  ghost predicate RightlyChosen(p: Policy, entries: seq<Entry>, now: real, chosen: Option<nat>) {
    if chosen.None? then forall i :: 0 <= i < |entries| ==> !MayRun(p, entries, now, i)
    else
      && chosen.value < |entries| && MayRun(p, entries, now, chosen.value)
      && forall j :: 0 <= j < |entries| && j != chosen.value && MayRun(p, entries, now, j) ==>
           ComesFirst(p, entries[chosen.value], entries[j], now)
  }

  lemma ChosenRightly(p: Policy, entries: seq<Entry>, after: seq<Entry>, now: real)
    requires PolicyOk(p) && Expired(entries, after, now) && Filed(entries)
    ensures RightlyChosen(p, entries, now, Best(p, after, now, |after|))
  {
    hide Before;
    hide ComesFirst;
    hide IsEligible;
    hide MayRun;
    var chosen := Best(p, after, now, |after|);
    forall j: nat | j < |entries| && MayRun(p, entries, now, j)
      ensures chosen.Some? && (j != chosen.value ==> ComesFirst(p, entries[chosen.value], entries[j], now))
    {
      EligibleMayRun(p, entries, after, now, j);
      BestIsBest(p, after, now, |after|, j);
      EligibleMayRun(p, entries, after, now, chosen.value);
      RunnersRemain(p, entries, after, now, j);
      RunnersRemain(p, entries, after, now, chosen.value);
      if j != chosen.value { FirstComes(p, entries[chosen.value], entries[j], now); }
    }
    if chosen.Some? { EligibleMayRun(p, entries, after, now, chosen.value); }
  }

  lemma RunnersRemain(p: Policy, entries: seq<Entry>, after: seq<Entry>, now: real, i: nat)
    requires Expired(entries, after, now) && i < |entries| && MayRun(p, entries, now, i)
    ensures after[i] == entries[i] && IsActive(after[i])
  {
  }

  // ----- the action -----

  lemma KeptIsUsable(p: Policy, entries: seq<Entry>, after: seq<Entry>, now: real, i: nat, h: Option<Handle>)
    requires Expired(entries, after, now) && i < |entries|
    ensures Usable(p, after, i, h) <==> Keeps(p, entries, now, i, h)
  {
    if h.Some? {
      assert forall j :: 0 <= j < |entries| ==>
          ((IsActive(after[j]) && after[j].handle == h) <==> (Remains(entries[j], now) && entries[j].handle == h));
    }
  }

  /** Rewriting one active entry while publishing one event about it. */
  lemma OneEventTold(sim: Sim, i: nat, e: Entry, kind: EventKind, k: nat)
    requires i < |sim.entries| && k < |sim.entries| && DistinctIds(sim.entries) && e.scheduling == sim.entries[i].scheduling
    ensures var s := Publish(sim.(entries := sim.entries[i := e]), kind, e.scheduling.requestId);
            && DistinctIds(s.entries) && s.entries == sim.entries[i := e]
            && Tells(sim.log, s.log, sim.entries[k], if k == i then [kind] else [])
  {
    var id := sim.entries[k].scheduling.requestId;
    TraceAdds(sim.log, [Event(kind, e.scheduling.requestId)], id);
    if k == i { TraceOfOwn([Event(kind, id)], id); } else { TraceOfOthers([Event(kind, e.scheduling.requestId)], id); }
  }

  /** An event about the request and then its end. */
  lemma EndsTold(sim: Sim, i: nat, e: Entry, kind: EventKind, t: Termination, b: Backend, k: nat)
    requires i < |sim.entries| && k < |sim.entries| && DistinctIds(sim.entries) && e.scheduling == sim.entries[i].scheduling
    requires IsActive(e) && e.handle == sim.entries[i].handle
    ensures var s := Terminalize(Publish(sim.(entries := sim.entries[i := e]), kind, e.scheduling.requestId), i, t, b);
            && |s.entries| == |sim.entries|
            && (k != i ==> s.entries[k] == sim.entries[k] && Tells(sim.log, s.log, sim.entries[k], []))
            && (k == i ==> EndedAs(e, t, b, s.entries[k]) && Tells(sim.log, s.log, sim.entries[k], [kind] + EndKinds(sim.entries[i], t, b)))
  {
    hide Terminalize;
    hide EndedAs;
    hide Trace;
    OneEventTold(sim, i, e, kind, k);
    var mid := Publish(sim.(entries := sim.entries[i := e]), kind, e.scheduling.requestId);
    TerminalizeExactly(mid, i, t, b, k);
    assert EndKinds(e, t, b) == EndKinds(sim.entries[i], t, b);
    hide EndKinds;
    hide Publish;
  }

  lemma ActExactly(p: Policy, entries: seq<Entry>, sim: Sim, now: real, i: nat, b: Backend, k: nat)
    requires Expired(entries, sim.entries, now) && i < |entries| && k < |entries| && DistinctIds(sim.entries) && Remains(entries[i], now)
    ensures var s := Act(p, sim, i, b);
            if k != i then s.entries[k] == sim.entries[k] && Tells(sim.log, s.log, sim.entries[k], [])
            else exists told :: Steps(p, entries, now, i, b, s.entries[i], told) && Tells(sim.log, s.log, sim.entries[i], told)
  {
    hide DistinctIds;
    hide Terminalize;
    hide Tells;
    hide EndedAs;
    hide Keeps;
    hide Usable;
    var e, told, s := sim.entries[i], StepTold(p, entries, now, i, b), Act(p, sim, i, b);
    assert e == entries[i] && IsActive(e);
    hide Expired;
    var more := e.(steps := e.steps + 1);
    if e.lifecycle == Admitted && b.answer.Opens? { KeptIsUsable(p, entries, sim.entries, now, i, b.answer.returned); }
    TerminalizeExactly(sim, i, BackendError, b, k);
    if e.lifecycle == Admitted && b.answer.Opens? {
      OneEventTold(sim, i, more.(handle := b.answer.returned, lifecycle := Prefilling), SequenceOpened, k);
    } else if e.lifecycle == Prefilling {
      OneEventTold(sim, i, if b.answer.PrefillReady? then more.(lifecycle := Decoding) else more, PrefillCompleted, k);
    } else if e.lifecycle == Decoding {
      OneEventTold(sim, i, more, DecodeCompleted, k);
      EndsTold(sim, i, more, DecodeCompleted, if b.answer.DecodeFinished? then Completed else BackendError, b, k);
    }
    hide EndKinds;
    if k == i { assert Steps(p, entries, now, i, b, s.entries[i], told) && Tells(sim.log, s.log, sim.entries[i], told); }
  }

  /** What is published about entry `i` on the backend's answer. */
  function StepTold(p: Policy, entries: seq<Entry>, now: real, i: nat, b: Backend): seq<EventKind>
    requires i < |entries|
  {
    var e := entries[i];
    if e.lifecycle.Admitted? && b.answer.Opens? && Keeps(p, entries, now, i, b.answer.returned) then [SequenceOpened]
    else if e.lifecycle.Prefilling? && (b.answer.PrefillContinues? || b.answer.PrefillReady?) then [PrefillCompleted]
    else if e.lifecycle.Decoding? && b.answer.DecodeContinues? then [DecodeCompleted]
    else if e.lifecycle.Decoding? && (b.answer.DecodeFinished? || b.answer.DecodeFailed?) then
      [DecodeCompleted] + EndKinds(e, if b.answer.DecodeFinished? then Completed else BackendError, b)
    else EndKinds(e, BackendError, b)
  }

  // ----- the tick -----

  /** A tick ends the overdue, in error if a release is not confirmed; then it gives one step to
      whom it is due, and leaves everybody else as they were. */
  ghost predicate Ticks(p: Policy, sim: Sim, now: real, b: Backend, sim1: Sim, chosen: Option<nat>) {
    && |sim1.entries| == |sim.entries|
    && RightlyChosen(p, sim.entries, now, chosen)
    && forall k: nat :: k < |sim.entries| ==>
         var (e, e1) := (sim.entries[k], sim1.entries[k]);
         if Overdue(e, now) then EndedAs(e, DeadlineExceeded, b, e1) && Tells(sim.log, sim1.log, e, EndKinds(e, DeadlineExceeded, b))
         else if chosen != Some(k) then e1 == e && Tells(sim.log, sim1.log, e, [])
         else exists told :: Steps(p, sim.entries, now, k, b, e1, told) && Tells(sim.log, sim1.log, e, told)
  }

  lemma TickExactly(p: Policy, sim: Sim, now: real, b: Backend)
    requires PolicyOk(p) && DistinctIds(sim.entries) && Filed(sim.entries)
    ensures var (sim1, chosen) := Tick(p, sim, now, b); Ticks(p, sim, now, b, sim1, chosen)
  {
    hide Expire;
    hide DistinctIds;
    hide Filed;
    hide EndedAs;
    hide EndKinds;
    hide Steps;
    hide Act;
    hide Best;
    hide Trace;
    var s := Expire(sim, now, b, |sim.entries|);
    ExpiredAll(sim, now, b);
    ChosenRightly(p, sim.entries, s.entries, now);
    ExpireDistinct(sim, now, b, |sim.entries|);
    var chosen := Best(p, s.entries, now, |s.entries|);
    hide RightlyChosen;
    if chosen.Some? { ChosenRemains(p, sim.entries, now, chosen.value); }
    forall k: nat | k < |sim.entries|
      ensures var (sim1, e) := (Tick(p, sim, now, b).0, sim.entries[k]);
              && |sim1.entries| == |sim.entries|
              && if Overdue(e, now) then EndedAs(e, DeadlineExceeded, b, sim1.entries[k]) && Tells(sim.log, sim1.log, e, EndKinds(e, DeadlineExceeded, b))
                 else if chosen != Some(k) then sim1.entries[k] == e && Tells(sim.log, sim1.log, e, [])
                 else exists told :: Steps(p, sim.entries, now, k, b, sim1.entries[k], told) && Tells(sim.log, sim1.log, e, told)
    {
      ExpireExactly(sim, now, b, |sim.entries|, k);
      KeepsId(sim, now, b, k);
      if chosen.Some? {
        ActExactly(p, sim.entries, s, now, chosen.value, b, k);
      }
    }
  }

  lemma KeepsId(sim: Sim, now: real, b: Backend, k: nat)
    requires k < |sim.entries|
    ensures Expire(sim, now, b, |sim.entries|).entries[k].scheduling == sim.entries[k].scheduling
  {
    ExpireContinues(sim, now, b, |sim.entries|, k);
  }

  lemma ChosenRemains(p: Policy, entries: seq<Entry>, now: real, i: nat)
    requires RightlyChosen(p, entries, now, Some(i))
    ensures i < |entries| && Remains(entries[i], now)
  {
  }

  // ----- over runs -----

  lemma {:induction false} RunFiled(p: Policy, ops: seq<Op>)
    requires PolicyOk(p)
    ensures Filed(Run(p, Start, ops).entries)
    decreases |ops|
  {
    if ops != [] {
      var init, op := ops[..|ops| - 1], ops[|ops| - 1];
      RunFiled(p, init);
      var s := Run(p, Start, init);
      assert Run(p, Start, ops) == Do(p, s, op);
      hide Run;
      hide Do;
      DoAdds(p, s, op);
      forall k | 0 <= k < |Do(p, s, op).entries|
        ensures Do(p, s, op).entries[k].order == k
      {
        if k < |s.entries| { DoContinues(p, s, op, k); } else { NewIsLast(p, s, op); }
      }
    }
  }

  lemma NewIsLast(p: Policy, sim: Sim, op: Op)
    requires PolicyOk(p) && |Do(p, sim, op).entries| == |sim.entries| + 1
    ensures Do(p, sim, op).entries[|sim.entries|].order == |sim.entries|
  {
    hide Tick;
    if op.DoTick? {
      if sim.entries == [] { NothingToTick(p, sim, op.now, op.backend); } else { TickContinues(p, sim, op.now, op.backend, 0); }
    }
  }

  /** Every tick of every run. */
  lemma TicksOverRuns(p: Policy, ops: seq<Op>, now: real, b: Backend)
    requires PolicyOk(p)
    ensures var sim := Run(p, Start, ops);
            Ticks(p, sim, now, b, Tick(p, sim, now, b).0, Tick(p, sim, now, b).1)
  {
    hide Tick;
    hide Ticks;
    hide Run;
    RunFiled(p, ops);
    RunPublished(p, ops);
    TickExactly(p, Run(p, Start, ops), now, b);
  }

  // ----- admission and cancellation -----

  function Unfinished(entries: seq<Entry>): set<nat> { set k: nat | k < |entries| && !entries[k].lifecycle.Terminal? }

  lemma {:induction false} ActiveCounts(entries: seq<Entry>)
    ensures ActiveCount(entries) == |Unfinished(entries)|
    decreases |entries|
  {
    if entries == [] {
      assert Unfinished(entries) == {};
    } else {
      var n := |entries| - 1;
      ActiveCounts(entries[..n]);
      var before := Unfinished(entries[..n]);
      assert n !in before;
      if IsActive(entries[n]) {
        assert Unfinished(entries) == before + {n};
      } else {
        assert Unfinished(entries) == before;
      }
    }
  }

  /** Admission: a known request first of all, then an unknown class, then a deadline already
      reached, then a full house; otherwise the request is filed last, with nothing served. */
  lemma AdmitExactly(p: Policy, sim: Sim, now: real, q: Scheduling)
    ensures var (sim1, r) := Admit(p, sim, now, q);
            var known := exists k :: 0 <= k < |sim.entries| && sim.entries[k].scheduling.requestId == q.requestId;
            var late := q.deadline.Some? && q.deadline.value <= now;
            var full := |Unfinished(sim.entries)| >= p.maxRequests;
            && (r.DuplicateRequest? <==> known)
            && (r.UnknownServiceClass? <==> !known && q.serviceClass !in p.priorities)
            && (r.DeadlineElapsed? <==> !known && q.serviceClass in p.priorities && late)
            && (r.NoCapacity? <==> !known && q.serviceClass in p.priorities && !late && full)
            && (r.Accepted? ==>
                  && sim1.entries == sim.entries + [Entry(q, |sim.entries|, now, Admitted, None, None, 0, false)]
                  && sim1.log == sim.log + [Event(RequestAdmitted, q.requestId)])
            && (!r.Accepted? ==> sim1 == sim)
  {
    FindFinds(sim.entries, q.requestId);
    ActiveCounts(sim.entries);
    hide Unfinished;
    hide Find;
  }

  /** Cancellation ends the one unfinished entry of the request, and is refused exactly if there
      is none. */
  lemma CancelExactly(p: Policy, ops: seq<Op>, id: string, b: Backend)
    requires PolicyOk(p)
    ensures var sim := Run(p, Start, ops);
            var (sim1, done) := Cancel(sim, id, b);
            && (done <==> exists k :: 0 <= k < |sim.entries| && sim.entries[k].scheduling.requestId == id && !sim.entries[k].lifecycle.Terminal?)
            && (!done ==> sim1 == sim)
            && (done ==> |sim1.entries| == |sim.entries| && forall k :: 0 <= k < |sim.entries| ==>
                  var e := sim.entries[k];
                  if e.scheduling.requestId == id
                  then EndedAs(e, Cancelled, b, sim1.entries[k]) && Tells(sim.log, sim1.log, e, EndKinds(e, Cancelled, b))
                  else sim1.entries[k] == e && Tells(sim.log, sim1.log, e, []))
  {
    hide Run;
    hide Terminalize;
    hide EndedAs;
    hide EndKinds;
    RunPublished(p, ops);
    var sim := Run(p, Start, ops);
    FindFinds(sim.entries, id);
    var i := Find(sim.entries, id);
    hide Find;
    if i.Some? && !sim.entries[i.value].lifecycle.Terminal? {
      assert Cancel(sim, id, b).0 == Terminalize(sim, i.value, Cancelled, b);
      TerminalizeExactly(sim, i.value, Cancelled, b, i.value);
      forall k: nat | k < |sim.entries|
        ensures var (e, sim1) := (sim.entries[k], Cancel(sim, id, b).0);
                if e.scheduling.requestId == id
                then EndedAs(e, Cancelled, b, sim1.entries[k]) && Tells(sim.log, sim1.log, e, EndKinds(e, Cancelled, b))
                else sim1.entries[k] == e && Tells(sim.log, sim1.log, e, [])
      {
        TerminalizeExactly(sim, i.value, Cancelled, b, k);
      }
    }
  }
}
