/** Whom the selector serves, said of class priorities, waiting times, deadlines, service
    received and weights, without the sort key. */
module SelectionMeaning {
  import opened Basics
  import opened Fairness

  // ----- standing -----

  /** The entry's class: the first of its name. */
  predicate ClassIs(p: Policy, e: Entry, k: nat) {
    && k < |p.classes| && p.classes[k].name == e.scheduling.serviceClass
    && forall j :: 0 <= j < k ==> p.classes[j].name != e.scheduling.serviceClass
  }

  function Waited(e: Entry, now: real): real { if now > e.admittedAt then now - e.admittedAt else 0.0 }

  predicate DueSoon(p: Policy, e: Entry, now: real) {
    e.scheduling.deadline.Some? && e.scheduling.deadline.value <= now + p.urgencyWindow
  }

  /** `n` whole aging intervals have passed since admission. */
  predicate AgedBy(p: Policy, e: Entry, now: real, n: nat) {
    n as real * p.agingInterval <= Waited(e, now) < (n + 1) as real * p.agingInterval
  }

  /** Class priority, one step up for each whole aging interval waited, and the boost of a
      deadline that is near. */
  ghost predicate StandsAt(p: Policy, e: Entry, now: real, standing: int) {
    exists k: nat, n: nat :: ClassIs(p, e, k) && AgedBy(p, e, now, n) && standing == Sum(p, e, now, k, n)
  }

  function Sum(p: Policy, e: Entry, now: real, k: nat, n: nat): int
    requires k < |p.classes|
  {
    p.classes[k].priority + n + if DueSoon(p, e, now) then p.deadlineBoost else 0
  }

  lemma {:induction false} FirstOfName(classes: seq<ServiceClass>, name: string)
    ensures var c := ClassOf(classes, name);
            if c.None? then forall j :: 0 <= j < |classes| ==> classes[j].name != name
            else exists k :: && 0 <= k < |classes| && classes[k] == c.value && c.value.name == name
                             && forall j :: 0 <= j < k ==> classes[j].name != name
    decreases |classes|
  {
    if classes != [] && classes[0].name != name {
      FirstOfName(classes[1..], name);
      assert forall j :: 0 < j < |classes| ==> classes[j] == classes[1..][j - 1];
      if ClassOf(classes, name).Some? {
        var k :| && 0 <= k < |classes[1..]| && classes[1..][k] == ClassOf(classes, name).value
                 && forall j :: 0 <= j < k ==> classes[1..][j].name != name;
        assert classes[k + 1] == ClassOf(classes, name).value;
      }
    } else if classes != [] {
      assert classes[0] == ClassOf(classes, name).value;
    }
  }

  lemma WholeIntervals(waited: real, interval: real, n: int)
    requires interval > 0.0
    ensures (waited / interval).Floor == n <==> n as real * interval <= waited < (n + 1) as real * interval
  {
    var q := waited / interval;
    assert q * interval == waited;
    if n as real <= q { assert (q - n as real) * interval >= 0.0; } else { assert (n as real - q) * interval > 0.0; }
    if q < (n + 1) as real { assert ((n + 1) as real - q) * interval > 0.0; } else { assert (q - (n + 1) as real) * interval >= 0.0; }
    assert q.Floor == n <==> n as real <= q < (n + 1) as real;
  }

  lemma AgedExactly(p: Policy, e: Entry, now: real)
    requires PolicyOk(p)
    ensures (Waited(e, now) / p.agingInterval).Floor >= 0
    ensures forall n: nat :: AgedBy(p, e, now, n) <==> n == (Waited(e, now) / p.agingInterval).Floor
  {
    assert Waited(e, now) / p.agingInterval >= 0.0;
    forall n: nat
      ensures AgedBy(p, e, now, n) <==> n == (Waited(e, now) / p.agingInterval).Floor
    {
      WholeIntervals(Waited(e, now), p.agingInterval, n);
    }
  }

  lemma ClassAt(p: Policy, e: Entry) returns (k: nat)
    requires Known(p, e)
    ensures ClassIs(p, e, k) && p.classes[k] == ClassOf(p.classes, e.scheduling.serviceClass).value
  {
    FirstOfName(p.classes, e.scheduling.serviceClass);
    k :| && 0 <= k < |p.classes| && p.classes[k] == ClassOf(p.classes, e.scheduling.serviceClass).value
         && ClassIs(p, e, k);
  }

  lemma PriorityIsStanding(p: Policy, e: Entry, now: real, standing: int)
    requires PolicyOk(p) && Known(p, e)
    ensures StandsAt(p, e, now, standing) <==> standing == EffectivePriority(p, e, now)
  {
    FirstOfName(p.classes, e.scheduling.serviceClass);
    var k := ClassAt(p, e);
    hide AgedBy;
    AgedExactly(p, e, now);
    var n: nat := (Waited(e, now) / p.agingInterval).Floor;
    assert Sum(p, e, now, k, n) == EffectivePriority(p, e, now);
    if StandsAt(p, e, now, standing) {
      var j: nat, m: nat :| ClassIs(p, e, j) && AgedBy(p, e, now, m) && standing == Sum(p, e, now, j, m);
      assert j == k && m == n;
    }
  }

  // ----- weights -----

  /** The heaviest weight seen for a scope: registered before, or of a candidate now. */
  predicate IsHeaviest<K>(before: map<K, Positive>, weights: seq<(K, Positive)>, k: K, w: Positive) {
    && (k in before ==> before[k] <= w)
    && (forall j :: 0 <= j < |weights| && weights[j].0 == k ==> weights[j].1 <= w)
    && ((k in before && before[k] == w) || exists j :: 0 <= j < |weights| && weights[j] == (k, w))
  }

  function WorkflowWeights(entries: seq<Entry>): (r: seq<(string, Positive)>)
    ensures |r| == |entries|
  {
    seq(|entries|, k requires 0 <= k < |entries| => (entries[k].scheduling.workflow, entries[k].scheduling.weight))
  }

  function AgentWeights(entries: seq<Entry>): (r: seq<(AgentKey, Positive)>)
    ensures |r| == |entries|
  {
    seq(|entries|, k requires 0 <= k < |entries| =>
      ((entries[k].scheduling.workflow, entries[k].scheduling.agent), entries[k].scheduling.weight))
  }

  /** The weights a selection goes by, and nothing else of the ledger, are registered. */
  ghost predicate Registered(l: Ledger, entries: seq<Entry>, l1: Ledger) {
    && l1.workflowService == l.workflowService && l1.agentService == l.agentService && l1.requestService == l.requestService
    && Holds(l.workflowWeight, WorkflowWeights(entries), l1.workflowWeight)
    && Holds(l.agentWeight, AgentWeights(entries), l1.agentWeight)
  }

  lemma HeaviestStep<K>(before: map<K, Positive>, now: map<K, Positive>, weights: seq<(K, Positive)>, last: (K, Positive), k: K)
    requires forall x :: x in now ==> IsHeaviest(before, weights, x, now[x])
    requires forall x :: x in before ==> x in now
    requires forall j :: 0 <= j < |weights| ==> weights[j].0 in now
    requires k in Heavier(now, last.0, last.1)
    ensures IsHeaviest(before, weights + [last], k, Heavier(now, last.0, last.1)[k])
  {
    var more := weights + [last];
    assert more[|weights|] == last;
    if k in now {
      assert IsHeaviest(before, weights, k, now[k]);
      if j :| 0 <= j < |weights| && weights[j] == (k, now[k]) { assert more[j] == (k, now[k]); }
    }
  }

  /** Every weight registered is the heaviest, and every scope of a candidate has one. */
  predicate Holds<K>(before: map<K, Positive>, weights: seq<(K, Positive)>, now: map<K, Positive>) {
    && (forall k :: k in now ==> IsHeaviest(before, weights, k, now[k]))
    && (forall j :: 0 <= j < |weights| ==> weights[j].0 in now)
    && (forall k :: k in before ==> k in now)
  }

  lemma HoldsMore<K>(before: map<K, Positive>, now: map<K, Positive>, weights: seq<(K, Positive)>, last: (K, Positive))
    requires Holds(before, weights, now)
    ensures Holds(before, weights + [last], Heavier(now, last.0, last.1))
  {
    hide IsHeaviest;
    forall k | k in Heavier(now, last.0, last.1)
      ensures IsHeaviest(before, weights + [last], k, Heavier(now, last.0, last.1)[k])
    {
      HeaviestStep(before, now, weights, last, k);
    }
  }

  lemma {:induction false} NoteRegisters(p: Policy, l: Ledger, entries: seq<Entry>)
    requires AllKnown(p, entries)
    ensures Registered(l, entries, Note(p, l, entries).0)
    ensures Note(p, l, entries).0.consecutiveEmergency == l.consecutiveEmergency
    decreases |entries|
  {
    hide Holds;
    if entries != [] {
      var init, last := entries[..|entries| - 1], entries[|entries| - 1];
      NoteRegisters(p, l, init);
      NoteKnown(p, l, init);
      var mid := Note(p, l, init).0;
      var (s, key) := (last.scheduling, (last.scheduling.workflow, last.scheduling.agent));
      assert WorkflowWeights(entries) == WorkflowWeights(init) + [(s.workflow, s.weight)];
      assert AgentWeights(entries) == AgentWeights(init) + [(key, s.weight)];
      HoldsMore(l.workflowWeight, mid.workflowWeight, WorkflowWeights(init), (s.workflow, s.weight));
      HoldsMore(l.agentWeight, mid.agentWeight, AgentWeights(init), (key, s.weight));
    } else {
      NothingRegistered(l);
    }
  }

  lemma NothingRegistered(l: Ledger)
    ensures Registered(l, [], l)
  {
    assert WorkflowWeights([]) == [] && AgentWeights([]) == [];
  }

  // ----- who is served -----

  function Share(service: nat, weight: Positive): real { service as real / weight as real }

  function Received<K>(service: map<K, nat>, k: K): nat { if k in service then service[k] else 0 }

  function WorkflowShare(l: Ledger, s: Scheduling): real
    requires s.workflow in l.workflowWeight
  {
    Share(Received(l.workflowService, s.workflow), l.workflowWeight[s.workflow])
  }

  function AgentShare(l: Ledger, s: Scheduling): real
    requires (s.workflow, s.agent) in l.agentWeight
  {
    Share(Received(l.agentService, (s.workflow, s.agent)), l.agentWeight[(s.workflow, s.agent)])
  }

  function RequestShare(l: Ledger, s: Scheduling): real { Share(Received(l.requestService, s.requestId), s.weight) }

  predicate Weighed(l: Ledger, e: Entry) {
    e.scheduling.workflow in l.workflowWeight && (e.scheduling.workflow, e.scheduling.agent) in l.agentWeight
  }

  /** No deadline is later than any. */
  predicate NotLater(a: Option<real>, b: Option<real>) { b.None? || (a.Some? && a.value <= b.value) }

  /** Of two entries that stand level: the workflow, then the agent, then the request with less
      service for its weight; then the earlier deadline, then the earlier order. */
  predicate LessServed(l: Ledger, s: Scheduling, t: Scheduling, order: int, other: int)
    requires s.workflow in l.workflowWeight && t.workflow in l.workflowWeight
    requires (s.workflow, s.agent) in l.agentWeight && (t.workflow, t.agent) in l.agentWeight
  {
    if WorkflowShare(l, s) != WorkflowShare(l, t) then WorkflowShare(l, s) < WorkflowShare(l, t)
    else if AgentShare(l, s) != AgentShare(l, t) then AgentShare(l, s) < AgentShare(l, t)
    else if RequestShare(l, s) != RequestShare(l, t) then RequestShare(l, s) < RequestShare(l, t)
    else if s.deadline != t.deadline then NotLater(s.deadline, t.deadline)
    else order <= other
  }

  /** `e` comes before `f`: it stands higher, or level and is less served. */
  ghost predicate ComesFirst(p: Policy, l: Ledger, e: Entry, f: Entry, now: real)
    requires Weighed(l, e) && Weighed(l, f)
  {
    forall x, y :: StandsAt(p, e, now, x) && StandsAt(p, f, now, y) ==>
      x > y || (x == y && LessServed(l, e.scheduling, f.scheduling, e.order, f.order))
  }

  lemma KeyComesFirst(p: Policy, l: Ledger, e: Entry, f: Entry, now: real)
    requires PolicyOk(p) && Known(p, e) && Known(p, f) && Weighed(l, e) && Weighed(l, f)
    requires !Less(KeyOf(p, l, f, now), KeyOf(p, l, e, now))
    ensures ComesFirst(p, l, e, f, now)
  {
    hide StandsAt;
    hide EffectivePriority;
    forall x, y | StandsAt(p, e, now, x) && StandsAt(p, f, now, y)
      ensures x == EffectivePriority(p, e, now) && y == EffectivePriority(p, f, now)
    {
      PriorityIsStanding(p, e, now, x);
      PriorityIsStanding(p, f, now, y);
    }
  }

  ghost predicate Emergency(p: Policy, e: Entry) { exists k: nat :: ClassIs(p, e, k) && p.classes[k].emergency }

  ghost predicate Classified(p: Policy, e: Entry) { exists k: nat :: ClassIs(p, e, k) }

  lemma ClassifiedIsKnown(p: Policy, e: Entry)
    ensures Classified(p, e) <==> Known(p, e)
    ensures Known(p, e) ==> (Emergency(p, e) <==> IsEmergency(p, e))
  {
    FirstOfName(p.classes, e.scheduling.serviceClass);
    if Known(p, e) {
      var k := ClassAt(p, e);
      forall j: nat | ClassIs(p, e, j)
        ensures j == k
      {
      }
    }
  }

  /** The emergency lane is served unless it is empty, or the other is not and the burst is
      used up. */
  ghost predicate ServesEmergency(p: Policy, l: Ledger, entries: seq<Entry>) {
    && (exists e :: e in entries && Emergency(p, e))
    && (l.consecutiveEmergency < p.burstCap || forall e :: e in entries ==> Emergency(p, e))
  }

  /** The entry selected is of the lane that is to be served and comes before everybody in it. */
  ghost predicate ServedRightly(p: Policy, l: Ledger, l1: Ledger, entries: seq<Entry>, now: real, e: Entry) {
    && e in entries && (Emergency(p, e) <==> ServesEmergency(p, l, entries))
    && Registered(l, entries, l1)
    && l1.consecutiveEmergency == (if Emergency(p, e) then l.consecutiveEmergency + 1 else 0)
    && (forall f :: f in entries ==> Weighed(l1, f))
    && (forall f :: f in entries && (Emergency(p, f) <==> Emergency(p, e)) ==> ComesFirst(p, l1, e, f, now))
  }

  lemma SelectsRightly(p: Policy, l: Ledger, entries: seq<Entry>, now: real)
    requires PolicyOk(p) && entries != [] && AllKnown(p, entries) && now >= 0.0
    ensures var (l1, r) := Select(p, l, entries, now); r.Chosen? && ServedRightly(p, l, l1, entries, now, r.entry)
  {
    hide KeyOf;
    hide Less;
    hide StandsAt;
    hide IsHeaviest;
    hide ComesFirst;
    hide Emergency;
    NoteKnown(p, l, entries);
    NoteRegisters(p, l, entries);
    var l0 := Note(p, l, entries).0;
    var lane := Served(p, l0, entries);
    var e := Least(p, l0, lane, now);
    var l1 := Select(p, l, entries, now).0;
    forall f | f in entries
      ensures Known(p, f) && (Emergency(p, f) <==> IsEmergency(p, f)) && Weighed(l1, f)
    {
      ClassifiedIsKnown(p, f);
      var j :| 0 <= j < |entries| && entries[j] == f;
      assert WorkflowWeights(entries)[j].0 in l1.workflowWeight && AgentWeights(entries)[j].0 in l1.agentWeight;
    }
    LaneServed(p, l0, entries);
    assert e in lane;
    forall f | f in entries && IsEmergency(p, f) == IsEmergency(p, e)
      ensures ComesFirst(p, l1, e, f, now)
    {
      var j :| 0 <= j < |lane| && lane[j] == f;
      LeastIsLeast(p, l0, lane, now, j);
      SameKey(p, l0, l1, e, now);
      SameKey(p, l0, l1, f, now);
      KeyComesFirst(p, l1, e, f, now);
    }
  }

  lemma SameKey(p: Policy, a: Ledger, b: Ledger, e: Entry, now: real)
    requires PolicyOk(p) && Known(p, e) && a == b.(consecutiveEmergency := a.consecutiveEmergency)
    ensures KeyOf(p, a, e, now) == KeyOf(p, b, e, now)
  {
  }

  lemma LaneServed(p: Policy, l: Ledger, entries: seq<Entry>)
    requires AllKnown(p, entries) && entries != []
    ensures var lane := Served(p, l, entries);
            var urgent := (exists e :: e in entries && IsEmergency(p, e))
                          && (l.consecutiveEmergency < p.burstCap || forall e :: e in entries ==> IsEmergency(p, e));
            forall f :: f in lane <==> f in entries && IsEmergency(p, f) == urgent
  {
    var emergency, normal := Lane(p, entries, true), Lane(p, entries, false);
    assert emergency != [] ==> emergency[0] in entries && IsEmergency(p, emergency[0]);
    assert normal != [] ==> normal[0] in entries && !IsEmergency(p, normal[0]);
    var lane := Served(p, l, entries);
    assert lane == emergency || lane == normal;
    forall f | f in lane
      ensures f in entries
    {
      var k :| 0 <= k < |lane| && lane[k] == f;
    }
  }

  /** A selection, whatever it is asked: refused for a negative time; nothing for no candidates;
      refused if a candidate names no class; otherwise somebody is served, and rightly. */
  lemma SelectExactly(p: Policy, l: Ledger, entries: seq<Entry>, now: real)
    requires PolicyOk(p)
    ensures var (l1, r) := Select(p, l, entries, now);
            && (r.InvalidTime? <==> now < 0.0)
            && (r.Nothing? <==> now >= 0.0 && entries == [])
            && (r.UnknownClass? <==> now >= 0.0 && exists e :: e in entries && !Classified(p, e))
            && (r.Chosen? ==> ServedRightly(p, l, l1, entries, now, r.entry))
  {
    hide ServedRightly;
    hide Classified;
    hide Least;
    if now >= 0.0 && entries != [] {
      NoteKnown(p, l, entries);
      forall k | 0 <= k < |entries|
        ensures Known(p, entries[k]) <==> Classified(p, entries[k])
      {
        ClassifiedIsKnown(p, entries[k]);
      }
      if AllKnown(p, entries) { SelectsRightly(p, l, entries, now); }
    }
  }
}
