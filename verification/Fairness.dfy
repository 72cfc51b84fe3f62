/** Three-level weighted fair selection. */
module Fairness {
  // Three-level weighted fair selection (inference_runtime/governance.py): priority, deadline
  // and aging choose the class; inside it the least normalized service wins, compared first for
  // workflows, then for agents, then for requests.

  import opened Basics

  datatype ServiceClass = ServiceClass(name: string, priority: int, emergency: bool)

  datatype Policy = Policy(classes: seq<ServiceClass>, agingInterval: real, urgencyWindow: real, deadlineBoost: nat, burstCap: Positive)

  datatype Scheduling = Scheduling(
    requestId: string, workflow: string, agent: string, serviceClass: string, weight: Positive, deadline: Option<real>)

  datatype Entry = Entry(scheduling: Scheduling, admittedAt: real, order: int)

  type AgentKey = (string, string)

  function AgentOf(s: Scheduling): AgentKey { (s.workflow, s.agent) }

  /** The selector's counters. */
  datatype Ledger = Ledger(
    workflowService: map<string, nat>, agentService: map<AgentKey, nat>, requestService: map<string, nat>,
    workflowWeight: map<string, Positive>, agentWeight: map<AgentKey, Positive>, consecutiveEmergency: nat)

  const NewLedger := Ledger(map[], map[], map[], map[], map[], 0)

  datatype Selection = Nothing | Chosen(entry: Entry) | UnknownClass | InvalidTime

  function Count<K>(m: map<K, nat>, k: K): nat { if k in m then m[k] else 0 }

  function Add<K>(m: map<K, nat>, k: K, n: nat): map<K, nat> { m[k := Count(m, k) + n] }

  function Heavier<K>(m: map<K, Positive>, k: K, w: Positive): map<K, Positive> {
    m[k := if k in m && m[k] > w then m[k] else w]
  }

  function ClassOf(classes: seq<ServiceClass>, name: string): Option<ServiceClass>
    decreases |classes|
  {
    if classes == [] then None
    else if classes[0].name == name then Some(classes[0])
    else ClassOf(classes[1..], name)
  }

  predicate Known(p: Policy, e: Entry) { ClassOf(p.classes, e.scheduling.serviceClass).Some? }

  predicate AllKnown(p: Policy, entries: seq<Entry>) { forall k :: 0 <= k < |entries| ==> Known(p, entries[k]) }

  predicate IsEmergency(p: Policy, e: Entry)
    requires Known(p, e)
  {
    ClassOf(p.classes, e.scheduling.serviceClass).value.emergency
  }

  // ----- the key -----

  function WorkflowWeight(l: Ledger, s: Scheduling): Positive {
    if s.workflow in l.workflowWeight then l.workflowWeight[s.workflow] else s.weight
  }

  function AgentWeight(l: Ledger, s: Scheduling): Positive {
    if AgentOf(s) in l.agentWeight then l.agentWeight[AgentOf(s)] else s.weight
  }

  function Normalized(service: nat, weight: Positive): real { service as real / weight as real }

  function WorkflowDebt(l: Ledger, s: Scheduling): real { Normalized(Count(l.workflowService, s.workflow), WorkflowWeight(l, s)) }
  function AgentDebt(l: Ledger, s: Scheduling): real { Normalized(Count(l.agentService, AgentOf(s)), AgentWeight(l, s)) }
  function RequestDebt(l: Ledger, s: Scheduling): real { Normalized(Count(l.requestService, s.requestId), s.weight) }

  predicate PolicyOk(p: Policy) { p.agingInterval > 0.0 && p.urgencyWindow > 0.0 }

  function EffectivePriority(p: Policy, e: Entry, now: real): int
    requires PolicyOk(p) && Known(p, e)
  {
    var waited := if now > e.admittedAt then now - e.admittedAt else 0.0;
    var boost := if e.scheduling.deadline.Some? && e.scheduling.deadline.value - now <= p.urgencyWindow then p.deadlineBoost else 0;
    ClassOf(p.classes, e.scheduling.serviceClass).value.priority + (waited / p.agingInterval).Floor + boost
  }

  datatype Key = Key(priority: int, workflow: real, agent: real, request: real, deadline: Option<real>, order: int)

  function KeyOf(p: Policy, l: Ledger, e: Entry, now: real): Key
    requires PolicyOk(p) && Known(p, e)
  {
    var s := e.scheduling;
    Key(-EffectivePriority(p, e, now), WorkflowDebt(l, s), AgentDebt(l, s), RequestDebt(l, s), s.deadline, e.order)
  }

  /** No deadline counts as infinitely late. */
  predicate Sooner(a: Option<real>, b: Option<real>) { a.Some? && (b.None? || a.value < b.value) }

  /** Python's order on tuples. */
  predicate Less(a: Key, b: Key) {
    if a.priority != b.priority then a.priority < b.priority
    else if a.workflow != b.workflow then a.workflow < b.workflow
    else if a.agent != b.agent then a.agent < b.agent
    else if a.request != b.request then a.request < b.request
    else if a.deadline != b.deadline then Sooner(a.deadline, b.deadline)
    else a.order < b.order
  }

  // ----- select and charge -----

  function Weigh(l: Ledger, s: Scheduling): Ledger {
    l.(workflowWeight := Heavier(l.workflowWeight, s.workflow, s.weight),
       agentWeight := Heavier(l.agentWeight, AgentOf(s), s.weight))
  }

  /** Registers the weights of the entries in order, up to one with an unknown class. */
  function Note(p: Policy, l: Ledger, entries: seq<Entry>): (Ledger, bool)
    decreases |entries|
  {
    if entries == [] then (l, true)
    else
      var (l1, ok) := Note(p, l, entries[..|entries| - 1]);
      var last := entries[|entries| - 1];
      if !ok || !Known(p, last) then (l1, false) else (Weigh(l1, last.scheduling), true)
  }

  function Lane(p: Policy, entries: seq<Entry>, emergency: bool): (r: seq<Entry>)
    requires AllKnown(p, entries)
    ensures AllKnown(p, r) && (forall k :: 0 <= k < |r| ==> r[k] in entries && IsEmergency(p, r[k]) == emergency)
    ensures forall k :: 0 <= k < |entries| && IsEmergency(p, entries[k]) == emergency ==> entries[k] in r
    decreases |entries|
  {
    if entries == [] then []
    else
      var init, last := Lane(p, entries[..|entries| - 1], emergency), entries[|entries| - 1];
      if IsEmergency(p, last) == emergency then init + [last] else init
  }

  /** The lane that is served. */
  function Served(p: Policy, l: Ledger, entries: seq<Entry>): (r: seq<Entry>)
    requires AllKnown(p, entries) && entries != []
    ensures r != [] && AllKnown(p, r)
  {
    var emergency, normal := Lane(p, entries, true), Lane(p, entries, false);
    assert entries[0] in emergency || entries[0] in normal;
    if emergency != [] && (normal == [] || l.consecutiveEmergency < p.burstCap) then emergency else normal
  }

  /** `min` with the key: the first of the least entries. */
  function Least(p: Policy, l: Ledger, entries: seq<Entry>, now: real): (e: Entry)
    requires PolicyOk(p) && entries != [] && AllKnown(p, entries)
    ensures e in entries
    decreases |entries|
  {
    if |entries| == 1 then entries[0]
    else
      var best, last := Least(p, l, entries[..|entries| - 1], now), entries[|entries| - 1];
      if Less(KeyOf(p, l, last, now), KeyOf(p, l, best, now)) then last else best
  }

  lemma {:induction false} NoteKnown(p: Policy, l: Ledger, entries: seq<Entry>)
    ensures Note(p, l, entries).1 <==> AllKnown(p, entries)
    decreases |entries|
  {
    if entries != [] {
      var init := entries[..|entries| - 1];
      NoteKnown(p, l, init);
      assert forall k :: 0 <= k < |init| ==> init[k] == entries[k];
    }
  }

  function Select(p: Policy, l: Ledger, entries: seq<Entry>, now: real): (Ledger, Selection)
    requires PolicyOk(p)
  {
    if now < 0.0 then (l, InvalidTime)
    else if entries == [] then (l, Nothing)
    else
      var (l1, ok) := Note(p, l, entries);
      if !ok then (l1, UnknownClass)
      else
        NoteKnown(p, l, entries);
        var e := Least(p, l1, Served(p, l1, entries), now);
        (l1.(consecutiveEmergency := if IsEmergency(p, e) then l1.consecutiveEmergency + 1 else 0), Chosen(e))
  }

  function Charge(l: Ledger, s: Scheduling, tokens: nat): Ledger {
    l.(workflowService := Add(l.workflowService, s.workflow, tokens),
       agentService := Add(l.agentService, AgentOf(s), tokens),
       requestService := Add(l.requestService, s.requestId, tokens))
  }

  function Without<K, V>(m: map<K, V>, k: K): map<K, V> { m - {k} }

  function Forget(l: Ledger, s: Scheduling, dropAgent: bool, dropWorkflow: bool): Ledger {
    Ledger(if dropWorkflow then Without(l.workflowService, s.workflow) else l.workflowService,
           if dropAgent then Without(l.agentService, AgentOf(s)) else l.agentService,
           Without(l.requestService, s.requestId),
           if dropWorkflow then Without(l.workflowWeight, s.workflow) else l.workflowWeight,
           if dropAgent then Without(l.agentWeight, AgentOf(s)) else l.agentWeight,
           l.consecutiveEmergency)
  }

  // ----- the choice is least -----

  lemma NotLessTransitive(a: Key, b: Key, c: Key)
    requires !Less(b, a) && !Less(c, b)
    ensures !Less(c, a)
  {
  }

  lemma {:induction false} LeastIsLeast(p: Policy, l: Ledger, entries: seq<Entry>, now: real, j: nat)
    requires PolicyOk(p) && AllKnown(p, entries) && j < |entries|
    ensures Known(p, Least(p, l, entries, now))
    ensures !Less(KeyOf(p, l, entries[j], now), KeyOf(p, l, Least(p, l, entries, now), now))
    decreases |entries|
  {
    hide KeyOf;
    hide Less;
    if |entries| == 1 {
      NotLessItself(KeyOf(p, l, entries[0], now));
    } else {
      var init, last := entries[..|entries| - 1], entries[|entries| - 1];
      LeastIsLeast(p, l, init, now, if j < |init| then j else 0);
      var best := Least(p, l, init, now);
      var kb, kl := KeyOf(p, l, best, now), KeyOf(p, l, last, now);
      NotLessItself(kl);
      if j < |init| && Less(kl, kb) {
        LessIsNotMore(kl, kb);
        NotLessTransitive(kl, kb, KeyOf(p, l, entries[j], now));
      }
    }
  }

  lemma NotLessItself(k: Key)
    ensures !Less(k, k)
  {
  }

  lemma LessIsNotMore(a: Key, b: Key)
    requires Less(a, b)
    ensures !Less(b, a)
  {
  }

  // ----- the bound -----

  lemma NormalizedAdds(s: nat, x: nat, limit: nat, w: Positive)
    requires x <= limit
    ensures Normalized(s + x, w) == Normalized(s, w) + Normalized(x, w)
    ensures 0.0 <= Normalized(x, w) <= Normalized(limit, w)
  {
    var r := w as real;
    assert (s + x) as real == s as real + x as real;
    assert (limit as real - x as real) / r >= 0.0;
  }

  /** Nobody is ahead of anybody by more than one charge, at each of the three levels. */
  predicate FairPair(l: Ledger, a: Scheduling, b: Scheduling, limit: nat) {
    && WorkflowDebt(l, a) - WorkflowDebt(l, b) <= Normalized(limit, WorkflowWeight(l, a))
    && (a.workflow == b.workflow ==> AgentDebt(l, a) - AgentDebt(l, b) <= Normalized(limit, AgentWeight(l, a)))
    && (AgentOf(a) == AgentOf(b) ==> RequestDebt(l, a) - RequestDebt(l, b) <= Normalized(limit, a.weight))
  }

  predicate Fair(l: Ledger, entries: seq<Entry>, limit: nat) {
    forall i, j :: 0 <= i < |entries| && 0 <= j < |entries| ==> FairPair(l, entries[i].scheduling, entries[j].scheduling, limit)
  }

  predicate SettledFor(l: Ledger, s: Scheduling) {
    && s.workflow in l.workflowWeight && l.workflowWeight[s.workflow] >= s.weight
    && AgentOf(s) in l.agentWeight && l.agentWeight[AgentOf(s)] >= s.weight
  }

  predicate Settled(l: Ledger, entries: seq<Entry>) { forall k :: 0 <= k < |entries| ==> SettledFor(l, entries[k].scheduling) }

  predicate SameService(a: Ledger, b: Ledger) {
    a.workflowService == b.workflowService && a.agentService == b.agentService && a.requestService == b.requestService
  }

  lemma {:induction false} NoteSettles(p: Policy, l: Ledger, entries: seq<Entry>)
    requires AllKnown(p, entries)
    ensures var l1 := Note(p, l, entries).0;
            Settled(l1, entries) && SameService(l1, l) && l1.consecutiveEmergency == l.consecutiveEmergency
    decreases |entries|
  {
    if entries != [] {
      var init, last := entries[..|entries| - 1], entries[|entries| - 1];
      NoteSettles(p, l, init);
      NoteKnown(p, l, init);
      var l0 := Note(p, l, init).0;
      forall k | 0 <= k < |entries|
        ensures SettledFor(Weigh(l0, last.scheduling), entries[k].scheduling)
      {
        if k < |init| { assert SettledFor(l0, init[k].scheduling); }
      }
    }
  }

  /** Once the weights are registered, selecting changes no counter but the burst count. */
  lemma {:induction false} NoteIsIdle(p: Policy, l: Ledger, entries: seq<Entry>)
    requires AllKnown(p, entries) && Settled(l, entries)
    ensures Note(p, l, entries) == (l, true)
    decreases |entries|
  {
    if entries != [] {
      NoteIsIdle(p, l, entries[..|entries| - 1]);
      var s := entries[|entries| - 1].scheduling;
      assert SettledFor(l, s);
      assert Heavier(l.workflowWeight, s.workflow, s.weight) == l.workflowWeight;
      assert Heavier(l.agentWeight, AgentOf(s), s.weight) == l.agentWeight;
    }
  }

  /** Candidates of one lane and one effective priority, with a request id each. */
  predicate Level(p: Policy, entries: seq<Entry>, now: real) {
    && PolicyOk(p) && entries != [] && AllKnown(p, entries) && now >= 0.0
    && (forall k :: 0 <= k < |entries| ==>
          && IsEmergency(p, entries[k]) == IsEmergency(p, entries[0])
          && EffectivePriority(p, entries[k], now) == EffectivePriority(p, entries[0], now))
  }

  predicate DistinctRequests(entries: seq<Entry>) {
    forall i, j :: 0 <= i < j < |entries| ==> entries[i].scheduling.requestId != entries[j].scheduling.requestId
  }

  lemma {:induction false} OneLane(p: Policy, entries: seq<Entry>, emergency: bool)
    requires AllKnown(p, entries) && forall k :: 0 <= k < |entries| ==> IsEmergency(p, entries[k]) == emergency
    ensures Lane(p, entries, emergency) == entries && Lane(p, entries, !emergency) == []
    decreases |entries|
  {
    if entries != [] {
      OneLane(p, entries[..|entries| - 1], emergency);
      assert entries[..|entries| - 1] + [entries[|entries| - 1]] == entries;
    }
  }

  /** At every level the one chosen has the least normalized service of its peers. */
  predicate Behind(l: Ledger, a: Scheduling, b: Scheduling) {
    && WorkflowDebt(l, a) <= WorkflowDebt(l, b)
    && (a.workflow == b.workflow ==> AgentDebt(l, a) <= AgentDebt(l, b))
    && (AgentOf(a) == AgentOf(b) ==> RequestDebt(l, a) <= RequestDebt(l, b))
  }

  lemma SamePeers(l: Ledger, a: Scheduling, b: Scheduling)
    requires SettledFor(l, a) && SettledFor(l, b)
    ensures a.workflow == b.workflow ==> WorkflowDebt(l, a) == WorkflowDebt(l, b)
    ensures AgentOf(a) == AgentOf(b) ==> AgentDebt(l, a) == AgentDebt(l, b)
  {
  }

  lemma LeastIsBehind(p: Policy, l: Ledger, a: Entry, b: Entry, now: real)
    requires PolicyOk(p) && Known(p, a) && Known(p, b) && SettledFor(l, a.scheduling) && SettledFor(l, b.scheduling)
    requires EffectivePriority(p, a, now) == EffectivePriority(p, b, now) && !Less(KeyOf(p, l, b, now), KeyOf(p, l, a, now))
    ensures Behind(l, a.scheduling, b.scheduling)
  {
    hide EffectivePriority;
    hide WorkflowDebt;
    hide AgentDebt;
    hide RequestDebt;
    SamePeers(l, a.scheduling, b.scheduling);
  }

  lemma ChosenIsBehind(p: Policy, l: Ledger, entries: seq<Entry>, now: real)
    requires Level(p, entries, now) && Settled(l, entries)
    ensures Select(p, l, entries, now).1.Chosen?
    ensures var (l1, r) := Select(p, l, entries, now);
            && r.entry in entries && l1 == l.(consecutiveEmergency := l1.consecutiveEmergency)
            && forall j :: 0 <= j < |entries| ==> Behind(l, r.entry.scheduling, entries[j].scheduling)
  {
    hide KeyOf;
    hide Less;
    hide Behind;
    NoteIsIdle(p, l, entries);
    OneLane(p, entries, IsEmergency(p, entries[0]));
    assert Served(p, l, entries) == entries;
    var e := Least(p, l, entries, now);
    var i :| 0 <= i < |entries| && entries[i] == e;
    forall j | 0 <= j < |entries|
      ensures Behind(l, e.scheduling, entries[j].scheduling)
    {
      LeastIsLeast(p, l, entries, now, j);
      LeastIsBehind(p, l, e, entries[j], now);
    }
  }

  lemma ChargeKeepsPair(l: Ledger, e: Scheduling, a: Scheduling, b: Scheduling, tokens: nat, limit: nat)
    requires tokens <= limit && FairPair(l, a, b, limit) && Behind(l, e, b)
    requires SettledFor(l, e) && SettledFor(l, a) && SettledFor(l, b)
    requires a.requestId == e.requestId ==> a == e
    requires b.requestId == e.requestId ==> b == e
    ensures FairPair(Charge(l, e, tokens), a, b, limit)
  {
    NormalizedAdds(Count(l.workflowService, e.workflow), tokens, limit, WorkflowWeight(l, e));
    NormalizedAdds(Count(l.agentService, AgentOf(e)), tokens, limit, AgentWeight(l, e));
    NormalizedAdds(Count(l.requestService, e.requestId), tokens, limit, e.weight);
    hide Normalized;
  }

  lemma ChargeKeepsFair(l: Ledger, entries: seq<Entry>, e: Entry, tokens: nat, limit: nat)
    requires Settled(l, entries) && Fair(l, entries, limit) && DistinctRequests(entries) && tokens <= limit
    requires e in entries && forall j :: 0 <= j < |entries| ==> Behind(l, e.scheduling, entries[j].scheduling)
    ensures Fair(Charge(l, e.scheduling, tokens), entries, limit)
  {
    hide FairPair;
    hide Behind;
    hide SettledFor;
    var m :| 0 <= m < |entries| && entries[m] == e;
    forall i, j | 0 <= i < |entries| && 0 <= j < |entries|
      ensures FairPair(Charge(l, e.scheduling, tokens), entries[i].scheduling, entries[j].scheduling, limit)
    {
      ChargeKeepsPair(l, e.scheduling, entries[i].scheduling, entries[j].scheduling, tokens, limit);
    }
  }

  datatype Turn = Turn(now: real, tokens: nat)

  predicate TurnOk(p: Policy, entries: seq<Entry>, t: Turn, limit: nat) { Level(p, entries, t.now) && t.tokens <= limit }

  /** One selection followed by its charge. */
  function Round(p: Policy, l: Ledger, entries: seq<Entry>, t: Turn): Ledger
    requires PolicyOk(p)
  {
    var (l1, r) := Select(p, l, entries, t.now);
    if r.Chosen? then Charge(l1, r.entry.scheduling, t.tokens) else l1
  }

  function Rounds(p: Policy, l: Ledger, entries: seq<Entry>, turns: seq<Turn>): Ledger
    requires PolicyOk(p)
    decreases |turns|
  {
    if turns == [] then l else Round(p, Rounds(p, l, entries, turns[..|turns| - 1]), entries, turns[|turns| - 1])
  }

  lemma FirstSelect(p: Policy, entries: seq<Entry>, now: real)
    requires Level(p, entries, now)
    ensures var l := Note(p, NewLedger, entries).0;
            Select(p, NewLedger, entries, now) == Select(p, l, entries, now) && Settled(l, entries) && SameService(l, NewLedger)
  {
    hide Least;
    hide Served;
    hide EffectivePriority;
    hide Settled;
    hide Note;
    NoteSettles(p, NewLedger, entries);
    NoteKnown(p, NewLedger, entries);
    NoteIsIdle(p, Note(p, NewLedger, entries).0, entries);
  }

  lemma UnservedIsFair(l: Ledger, entries: seq<Entry>, limit: nat)
    requires SameService(l, NewLedger)
    ensures Fair(l, entries, limit)
  {
    forall i, j | 0 <= i < |entries| && 0 <= j < |entries|
      ensures FairPair(l, entries[i].scheduling, entries[j].scheduling, limit)
    {
      var a, b := entries[i].scheduling, entries[j].scheduling;
      NormalizedAdds(0, 0, limit, WorkflowWeight(l, a));
      NormalizedAdds(0, 0, limit, AgentWeight(l, a));
      NormalizedAdds(0, 0, limit, a.weight);
    }
  }

  lemma RoundKeepsFair(p: Policy, l: Ledger, entries: seq<Entry>, t: Turn, limit: nat)
    requires TurnOk(p, entries, t, limit) && DistinctRequests(entries) && Settled(l, entries) && Fair(l, entries, limit)
    ensures Settled(Round(p, l, entries, t), entries) && Fair(Round(p, l, entries, t), entries, limit)
  {
    hide FairPair;
    hide Behind;
    ChosenIsBehind(p, l, entries, t.now);
    var e := Select(p, l, entries, t.now).1.entry;
    ChargeKeepsFair(l, entries, e, t.tokens, limit);
    BurstIsIrrelevant(Charge(l, e.scheduling, t.tokens), Round(p, l, entries, t), entries, limit);
  }

  lemma BurstIsIrrelevant(a: Ledger, b: Ledger, entries: seq<Entry>, limit: nat)
    requires b == a.(consecutiveEmergency := b.consecutiveEmergency)
    ensures Fair(a, entries, limit) <==> Fair(b, entries, limit)
    ensures Settled(a, entries) <==> Settled(b, entries)
  {
    forall i, j | 0 <= i < |entries| && 0 <= j < |entries|
      ensures FairPair(a, entries[i].scheduling, entries[j].scheduling, limit) <==> FairPair(b, entries[i].scheduling, entries[j].scheduling, limit)
    {
    }
    assert forall k :: 0 <= k < |entries| ==> SettledFor(a, entries[k].scheduling) == SettledFor(b, entries[k].scheduling);
  }

  /** Weighted fairness. Select and charge alternately, each charge at most `limit`, over a
      fixed set of candidates that share a lane and an effective priority. Then no workflow's
      normalized service exceeds another's by more than limit / weight, and the same holds for
      the agents of one workflow and the requests of one agent. */
  lemma {:induction false} WeightedFairness(p: Policy, entries: seq<Entry>, turns: seq<Turn>, limit: nat)
    requires PolicyOk(p) && DistinctRequests(entries)
    requires forall k :: 0 <= k < |turns| ==> TurnOk(p, entries, turns[k], limit)
    ensures Fair(Rounds(p, NewLedger, entries, turns), entries, limit)
    ensures turns != [] ==> Settled(Rounds(p, NewLedger, entries, turns), entries)
    decreases |turns|
  {
    hide Fair;
    if turns == [] {
      UnservedIsFair(NewLedger, entries, limit);
    } else {
      var init, t := turns[..|turns| - 1], turns[|turns| - 1];
      assert TurnOk(p, entries, t, limit);
      if init == [] {
        FirstSelect(p, entries, t.now);
        var l := Note(p, NewLedger, entries).0;
        UnservedIsFair(l, entries, limit);
        RoundKeepsFair(p, l, entries, t, limit);
      } else {
        WeightedFairness(p, entries, init, limit);
        RoundKeepsFair(p, Rounds(p, NewLedger, entries, init), entries, t, limit);
      }
    }
  }

  // ----- what fairness guarantees -----

  function TotalTokens(turns: seq<Turn>): nat
    decreases |turns|
  {
    if turns == [] then 0 else TotalTokens(turns[..|turns| - 1]) + turns[|turns| - 1].tokens
  }

  /** Service of the listed workflows. */
  function ServiceOf(service: map<string, nat>, names: seq<string>): nat
    decreases |names|
  {
    if names == [] then 0 else ServiceOf(service, names[..|names| - 1]) + Count(service, names[|names| - 1])
  }

  function WeightOf(l: Ledger, names: seq<string>): nat
    requires forall k :: 0 <= k < |names| ==> names[k] in l.workflowWeight
    decreases |names|
  {
    if names == [] then 0 else WeightOf(l, names[..|names| - 1]) + l.workflowWeight[names[|names| - 1]]
  }

  predicate DistinctNames(names: seq<string>) { forall i, j :: 0 <= i < j < |names| ==> names[i] != names[j] }

  /** `names` lists the workflows of the entries, each once. */
  predicate Lists(names: seq<string>, entries: seq<Entry>) {
    && DistinctNames(names)
    && (forall k :: 0 <= k < |entries| ==> entries[k].scheduling.workflow in names)
    && (forall k :: 0 <= k < |names| ==> exists i :: 0 <= i < |entries| && entries[i].scheduling.workflow == names[k])
  }

  lemma {:induction false} ServiceAdds(service: map<string, nat>, names: seq<string>, w: string, n: nat)
    requires DistinctNames(names)
    ensures ServiceOf(Add(service, w, n), names) == ServiceOf(service, names) + if w in names then n else 0
    decreases |names|
  {
    if names != [] {
      var init := names[..|names| - 1];
      ServiceAdds(service, init, w, n);
      assert names == init + [names[|names| - 1]];
    }
  }

  lemma {:induction false} ServiceEmpty(names: seq<string>)
    ensures ServiceOf(map[], names) == 0
    decreases |names|
  {
    if names != [] { ServiceEmpty(names[..|names| - 1]); }
  }

  lemma RoundServes(p: Policy, l: Ledger, entries: seq<Entry>, t: Turn, names: seq<string>)
    requires Level(p, entries, t.now) && Settled(l, entries) && Lists(names, entries)
    ensures ServiceOf(Round(p, l, entries, t).workflowService, names) == ServiceOf(l.workflowService, names) + t.tokens
  {
    hide Behind;
    ChosenIsBehind(p, l, entries, t.now);
    var e := Select(p, l, entries, t.now).1.entry;
    ServiceAdds(l.workflowService, names, e.scheduling.workflow, t.tokens);
  }

  /** Every token charged is booked to exactly one of the workflows. */
  lemma {:induction false} ServiceIsConserved(p: Policy, entries: seq<Entry>, turns: seq<Turn>, limit: nat, names: seq<string>)
    requires PolicyOk(p) && DistinctRequests(entries) && Lists(names, entries)
    requires forall k :: 0 <= k < |turns| ==> TurnOk(p, entries, turns[k], limit)
    ensures ServiceOf(Rounds(p, NewLedger, entries, turns).workflowService, names) == TotalTokens(turns)
    decreases |turns|
  {
    if turns == [] {
      ServiceEmpty(names);
    } else {
      var init, t := turns[..|turns| - 1], turns[|turns| - 1];
      assert TurnOk(p, entries, t, limit);
      ServiceIsConserved(p, entries, init, limit, names);
      if init == [] {
        FirstSelect(p, entries, t.now);
        RoundServes(p, Note(p, NewLedger, entries).0, entries, t, names);
      } else {
        WeightedFairness(p, entries, init, limit);
        RoundServes(p, Rounds(p, NewLedger, entries, init), entries, t, names);
      }
    }
  }

  function Times(n: nat, x: real): real { n as real * x }

  lemma ShareOfOne(service: nat, weight: Positive, limit: nat, debt: real)
    requires Normalized(service, weight) - debt <= Normalized(limit, weight)
    ensures service as real <= Times(weight, debt) + limit as real
  {
    var w := weight as real;
    assert service as real / w * w == service as real && limit as real / w * w == limit as real;
    assert (service as real / w - debt) * w <= limit as real / w * w;
  }

  lemma {:induction false} SharesAdd(l: Ledger, entries: seq<Entry>, names: seq<string>, j: nat, limit: nat)
    requires Settled(l, entries) && Fair(l, entries, limit) && j < |entries|
    requires forall k :: 0 <= k < |names| ==> names[k] in l.workflowWeight
    requires forall k :: 0 <= k < |names| ==> exists i :: 0 <= i < |entries| && entries[i].scheduling.workflow == names[k]
    ensures ServiceOf(l.workflowService, names) as real <=
              Times(WeightOf(l, names), WorkflowDebt(l, entries[j].scheduling)) + Times(|names|, limit as real)
    decreases |names|
  {
    hide Times;
    hide WorkflowDebt;
    hide SettledFor;
    if names != [] {
      var init, name := names[..|names| - 1], names[|names| - 1];
      SharesAdd(l, entries, init, j, limit);
      var i :| 0 <= i < |entries| && entries[i].scheduling.workflow == name;
      var debt := WorkflowDebt(l, entries[j].scheduling);
      ShareOf(l, entries, i, j, limit);
      AddTimes(WeightOf(l, init), l.workflowWeight[name], debt);
      AddTimes(|init|, 1, limit as real);
    } else {
      AddTimes(0, 0, WorkflowDebt(l, entries[j].scheduling));
      AddTimes(0, 0, limit as real);
    }
  }

  lemma ShareOf(l: Ledger, entries: seq<Entry>, i: nat, j: nat, limit: nat)
    requires Settled(l, entries) && Fair(l, entries, limit) && i < |entries| && j < |entries|
    ensures var name := entries[i].scheduling.workflow;
            && name in l.workflowWeight
            && Count(l.workflowService, name) as real <= Times(l.workflowWeight[name], WorkflowDebt(l, entries[j].scheduling)) + limit as real
  {
    hide Times;
    var a := entries[i].scheduling;
    assert SettledFor(l, a) && FairPair(l, a, entries[j].scheduling, limit);
    ShareOfOne(Count(l.workflowService, a.workflow), l.workflowWeight[a.workflow], limit, WorkflowDebt(l, entries[j].scheduling));
  }

  lemma AddTimes(m: nat, n: nat, x: real)
    ensures Times(m + n, x) == Times(m, x) + Times(n, x) && Times(1, x) == x && Times(0, x) == 0.0
  {
    assert (m + n) as real == m as real + n as real;
  }

  /** So no workflow is starved: of all tokens charged, up to one limit per workflow, each
      workflow has had its weight's share. */
  lemma GuaranteedShare(p: Policy, entries: seq<Entry>, turns: seq<Turn>, limit: nat, names: seq<string>, j: nat)
    requires PolicyOk(p) && DistinctRequests(entries) && Lists(names, entries) && turns != [] && j < |entries|
    requires forall k :: 0 <= k < |turns| ==> TurnOk(p, entries, turns[k], limit)
    ensures var l := Rounds(p, NewLedger, entries, turns);
            && (forall k :: 0 <= k < |names| ==> names[k] in l.workflowWeight)
            && TotalTokens(turns) as real <=
                 Times(WeightOf(l, names), WorkflowDebt(l, entries[j].scheduling)) + Times(|names|, limit as real)
  {
    hide Rounds;
    hide Fair;
    hide Settled;
    hide Times;
    hide WorkflowDebt;
    hide TurnOk;
    WeightedFairness(p, entries, turns, limit);
    ServiceIsConserved(p, entries, turns, limit, names);
    var l := Rounds(p, NewLedger, entries, turns);
    Weighed(l, entries, names);
    SharesAdd(l, entries, names, j, limit);
  }

  lemma Weighed(l: Ledger, entries: seq<Entry>, names: seq<string>)
    requires Settled(l, entries) && Lists(names, entries)
    ensures forall k :: 0 <= k < |names| ==> names[k] in l.workflowWeight
  {
    forall k | 0 <= k < |names|
      ensures names[k] in l.workflowWeight
    {
      var i :| 0 <= i < |entries| && entries[i].scheduling.workflow == names[k];
      assert SettledFor(l, entries[i].scheduling);
    }
  }

  // ----- the emergency lane -----

  predicate NormalWaits(p: Policy, entries: seq<Entry>, now: real) {
    && AllKnown(p, entries) && now >= 0.0
    && exists k :: 0 <= k < |entries| && !IsEmergency(p, entries[k])
  }

  /** One choice while a normal candidate waits: an emergency is served only below the cap, and
      then counted; at or past the cap the choice is normal. The count may be anything before:
      it goes on growing while no normal candidate waits. */
  lemma CapDecides(p: Policy, l: Ledger, entries: seq<Entry>, now: real)
    requires PolicyOk(p) && NormalWaits(p, entries, now)
    ensures var (l1, r) := Select(p, l, entries, now);
            && r.Chosen? && Known(p, r.entry)
            && (if IsEmergency(p, r.entry)
                then l.consecutiveEmergency < p.burstCap && l1.consecutiveEmergency == l.consecutiveEmergency + 1
                else l1.consecutiveEmergency == 0)
  {
    NoteKnown(p, l, entries);
    NoteSettles(p, l, entries);
    var k :| 0 <= k < |entries| && !IsEmergency(p, entries[k]);
    assert entries[k] in Lane(p, entries, false);
    var served := Served(p, Note(p, l, entries).0, entries);
    var e := Least(p, Note(p, l, entries).0, served, now);
    assert e in served;
  }

  datatype Use =
    | DoSelect(entries: seq<Entry>, now: real)
    | DoCharge(scheduling: Scheduling, tokens: nat)
    | DoForget(scheduling: Scheduling, dropAgent: bool, dropWorkflow: bool)

  /** The ledger after some uses of the selector, and the entries chosen on the way. */
  function Used(p: Policy, l: Ledger, uses: seq<Use>): (Ledger, seq<Entry>)
    requires PolicyOk(p)
    decreases |uses|
  {
    if uses == [] then (l, [])
    else
      var (l1, chosen) := Used(p, l, uses[..|uses| - 1]);
      match uses[|uses| - 1]
      case DoSelect(entries, now) =>
        var (l2, r) := Select(p, l1, entries, now);
        (l2, if r.Chosen? then chosen + [r.entry] else chosen)
      case DoCharge(s, tokens) => (Charge(l1, s, tokens), chosen)
      case DoForget(s, a, w) => (Forget(l1, s, a, w), chosen)
  }

  predicate NormalAlwaysWaits(p: Policy, uses: seq<Use>) {
    forall k :: 0 <= k < |uses| && uses[k].DoSelect? ==> NormalWaits(p, uses[k].entries, uses[k].now)
  }

  /** How many of the last choices in a row were emergencies. */
  function LastEmergencies(p: Policy, chosen: seq<Entry>): nat
    requires AllKnown(p, chosen)
    decreases |chosen|
  {
    if chosen == [] || !IsEmergency(p, chosen[|chosen| - 1]) then 0 else 1 + LastEmergencies(p, chosen[..|chosen| - 1])
  }

  /** At no point has the row of emergencies been longer than the cap. */
  predicate WithinCap(p: Policy, chosen: seq<Entry>) {
    AllKnown(p, chosen) && forall b :: 0 <= b <= |chosen| ==> LastEmergencies(p, chosen[..b]) <= p.burstCap
  }

  lemma {:induction false} RowAtTheEnd(p: Policy, chosen: seq<Entry>, a: nat)
    requires AllKnown(p, chosen) && a <= |chosen| && forall k :: a <= k < |chosen| ==> IsEmergency(p, chosen[k])
    ensures |chosen| - a <= LastEmergencies(p, chosen)
    decreases |chosen|
  {
    if a < |chosen| { RowAtTheEnd(p, chosen[..|chosen| - 1], a); }
  }

  lemma {:induction false} OneMoreChoice(p: Policy, chosen: seq<Entry>, e: Entry)
    requires WithinCap(p, chosen) && Known(p, e) && (IsEmergency(p, e) ==> LastEmergencies(p, chosen) < p.burstCap)
    ensures WithinCap(p, chosen + [e]) && AllKnown(p, chosen + [e])
    ensures LastEmergencies(p, chosen + [e]) == if IsEmergency(p, e) then LastEmergencies(p, chosen) + 1 else 0
  {
    var more := chosen + [e];
    assert more[..|chosen|] == chosen;
    forall b | 0 <= b <= |more|
      ensures LastEmergencies(p, more[..b]) <= p.burstCap
    {
      if b == |more| { assert more[..b] == more; } else { assert more[..b] == chosen[..b]; }
    }
  }

  predicate IsKnownEmergency(p: Policy, e: Entry) { Known(p, e) && IsEmergency(p, e) }

  lemma {:induction false} UsesWithinCap(p: Policy, l: Ledger, uses: seq<Use>)
    requires PolicyOk(p) && NormalAlwaysWaits(p, uses)
    ensures var (l1, chosen) := Used(p, l, uses);
            WithinCap(p, chosen) && AllKnown(p, chosen) && LastEmergencies(p, chosen) <= l1.consecutiveEmergency
    decreases |uses|
  {
    hide Select;
    hide WithinCap;
    hide LastEmergencies;
    if uses == [] {
      NothingChosen(p);
    } else {
      var init, use := uses[..|uses| - 1], uses[|uses| - 1];
      UsesWithinCap(p, l, init);
      var (l1, chosen) := Used(p, l, init);
      if use.DoSelect? {
        assert NormalWaits(p, use.entries, use.now);
        CapDecides(p, l1, use.entries, use.now);
        OneMoreChoice(p, chosen, Select(p, l1, use.entries, use.now).1.entry);
      }
    }
  }

  lemma NothingChosen(p: Policy)
    ensures WithinCap(p, []) && AllKnown(p, []) && LastEmergencies(p, []) == 0
  {
  }

  /** While normal candidates wait, whatever is charged and forgotten in between and whatever the
      count was before, the emergency lane is never served more than `burstCap` times in a row. */
  lemma EmergencyIsBounded(p: Policy, l: Ledger, uses: seq<Use>, a: nat, b: nat)
    requires PolicyOk(p) && NormalAlwaysWaits(p, uses) && a <= b <= |Used(p, l, uses).1|
    requires forall k :: a <= k < b ==> IsKnownEmergency(p, Used(p, l, uses).1[k])
    ensures b - a <= p.burstCap
  {
    hide Used;
    UsesWithinCap(p, l, uses);
    var chosen := Used(p, l, uses).1;
    assert forall k :: a <= k < b ==> IsKnownEmergency(p, chosen[k]);
    RowAtTheEnd(p, chosen[..b], a);
  }
}

/** The selector as an object with its five counters. */
module FairSelector {
  import opened Basics
  import opened Fairness
  import Spec = Fairness

  class HierarchicalFairSelector {
    const policy: Policy
    var workflowService: map<string, nat>
    var agentService: map<AgentKey, nat>
    var requestService: map<string, nat>
    var workflowWeight: map<string, Positive>
    var agentWeight: map<AgentKey, Positive>
    var consecutiveEmergency: nat

    function View(): Ledger
      reads this
    {
      Ledger(workflowService, agentService, requestService, workflowWeight, agentWeight, consecutiveEmergency)
    }

    constructor (policy: Policy)
      ensures this.policy == policy && View() == NewLedger
    {
      this.policy := policy;
      workflowService, agentService, requestService := map[], map[], map[];
      workflowWeight, agentWeight, consecutiveEmergency := map[], map[], 0;
    }

    /** The loop over the candidates that registers their weights. */
    method NoteWeights(entries: seq<Entry>) returns (ok: bool)
      modifies this`workflowWeight, this`agentWeight
      ensures (View(), ok) == Note(policy, old(View()), entries)
    {
      ghost var start := View();
      for k := 0 to |entries|
        invariant (View(), true) == Note(policy, start, entries[..k])
      {
        assert entries[..k + 1][..k] == entries[..k];
        var s := entries[k].scheduling;
        var found := ClassOf(policy.classes, s.serviceClass);
        if found.None? {
          StopsHere(policy, start, entries, k);
          return false;
        }
        var known := if s.workflow in workflowWeight then workflowWeight[s.workflow] else 1;
        workflowWeight := workflowWeight[s.workflow := if known > s.weight then known else s.weight];
        known := if AgentOf(s) in agentWeight then agentWeight[AgentOf(s)] else 1;
        agentWeight := agentWeight[AgentOf(s) := if known > s.weight then known else s.weight];
      }
      assert entries[..|entries|] == entries;
      return true;
    }

    static lemma {:induction false} StopsHere(p: Policy, l: Ledger, entries: seq<Entry>, k: nat)
      requires k < |entries| && Note(p, l, entries[..k]).1 && !Known(p, entries[k])
      ensures Note(p, l, entries) == (Note(p, l, entries[..k]).0, false)
      decreases |entries|
    {
      var init := entries[..|entries| - 1];
      if k < |init| {
        assert init[..k] == entries[..k];
        StopsHere(p, l, init, k);
      } else {
        assert entries[..k] == init;
      }
    }

    /** The two list comprehensions over the candidates. */
    method Split(entries: seq<Entry>) returns (emergency: seq<Entry>, normal: seq<Entry>)
      requires AllKnown(policy, entries)
      ensures emergency == Lane(policy, entries, true) && normal == Lane(policy, entries, false)
    {
      emergency, normal := [], [];
      for k := 0 to |entries|
        invariant emergency == Lane(policy, entries[..k], true) && normal == Lane(policy, entries[..k], false)
      {
        assert entries[..k + 1][..k] == entries[..k];
        if IsEmergency(policy, entries[k]) { emergency := emergency + [entries[k]]; } else { normal := normal + [entries[k]]; }
      }
      assert entries[..|entries|] == entries;
    }

    method Minimum(entries: seq<Entry>, now: real) returns (best: Entry)
      requires PolicyOk(policy) && entries != [] && AllKnown(policy, entries)
      ensures best == Least(policy, View(), entries, now)
    {
      hide KeyOf;
      hide Less;
      best := entries[0];
      for k := 1 to |entries|
        invariant AllKnown(policy, entries[..k]) && best in entries[..k]
        invariant best == Least(policy, View(), entries[..k], now)
      {
        assert entries[..k + 1][..k] == entries[..k];
        if Less(KeyOf(policy, View(), entries[k], now), KeyOf(policy, View(), best, now)) { best := entries[k]; }
      }
      assert entries[..|entries|] == entries;
    }

    method Select(entries: seq<Entry>, now: real) returns (r: Selection)
      requires PolicyOk(policy)
      modifies this`workflowWeight, this`agentWeight, this`consecutiveEmergency
      ensures (View(), r) == Spec.Select(policy, old(View()), entries, now)
    {
      if now < 0.0 { return InvalidTime; }
      if entries == [] { return Nothing; }
      NoteKnown(policy, View(), entries);
      var ok := NoteWeights(entries);
      if !ok { return UnknownClass; }
      var emergency, normal := Split(entries);
      var candidates := entries;
      if emergency != [] && (normal == [] || consecutiveEmergency < policy.burstCap) {
        candidates := emergency;
      } else if normal != [] {
        candidates := normal;
      }
      assert candidates == Served(policy, View(), entries);
      var selected := Minimum(candidates, now);
      if IsEmergency(policy, selected) {
        consecutiveEmergency := consecutiveEmergency + 1;
      } else {
        consecutiveEmergency := 0;
      }
      return Chosen(selected);
    }

    method Charge(s: Scheduling, tokens: nat)
      requires tokens > 0
      modifies this`workflowService, this`agentService, this`requestService
      ensures View() == Spec.Charge(old(View()), s, tokens)
    {
      workflowService := workflowService[s.workflow := Count(workflowService, s.workflow) + tokens];
      agentService := agentService[AgentOf(s) := Count(agentService, AgentOf(s)) + tokens];
      requestService := requestService[s.requestId := Count(requestService, s.requestId) + tokens];
    }

    method Forget(s: Scheduling, dropAgent: bool, dropWorkflow: bool)
      modifies this
      ensures View() == Spec.Forget(old(View()), s, dropAgent, dropWorkflow)
    {
      requestService := requestService - {s.requestId};
      if dropAgent {
        agentService := agentService - {AgentOf(s)};
        agentWeight := agentWeight - {AgentOf(s)};
      }
      if dropWorkflow {
        workflowService := workflowService - {s.workflow};
        workflowWeight := workflowWeight - {s.workflow};
      }
    }
  }
}
