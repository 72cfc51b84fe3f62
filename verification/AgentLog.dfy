module AgentLog {
  // The event-sourced agent run (agent_runtime/reducer.py, agent_runtime/event_store.py): a
  // reducer over a run's events and an append log with optimistic concurrency and unique
  // claims. Events sit at their sequence numbers; content hashes are modelled by the tuple they
  // hash, so derived identifiers are injective.

  import opened Basics

  datatype Id =
    | Hash(prefix: string, run: string, parts: seq<string>, number: nat)
    | BudgetHash(run: string, namespace: Namespace, category: string)

  /** What a budget claim is made in the name of: a turn or attempt, or an invocation. */
  datatype Namespace = Named(name: string) | Invocation(id: Id)

  datatype RunLifecycle =
    | Ready | Deciding | WaitingTool | Observing | Synthesizing | Verifying | Succeeded | Blocked
    | RunFailed | WaitingUser | Paused | RunCancelled | TimedOut | BudgetExhausted

  datatype ToolLifecycle =
    | Proposed | ArgsReady | NeedsResolution | Authorized | WaitingApproval | Denied | Dispatched
    | ToolSucceeded | Partial | ToolFailed | UnknownOutcome

  predicate RunTerminal(l: RunLifecycle) {
    l in {Succeeded, Blocked, RunFailed, RunCancelled, TimedOut, BudgetExhausted}
  }

  function RunTargets(l: RunLifecycle): set<RunLifecycle> {
    match l
    case Ready => {Deciding, RunCancelled, TimedOut}
    case Deciding => {WaitingTool, WaitingUser, Paused, Blocked, RunFailed, RunCancelled, TimedOut, BudgetExhausted}
    case WaitingTool => {Observing, Paused, RunFailed, RunCancelled, TimedOut, BudgetExhausted}
    case Observing => {Deciding, Synthesizing, Verifying, Paused, Blocked, RunFailed, RunCancelled, TimedOut, BudgetExhausted}
    case Synthesizing => {Deciding, Succeeded, Blocked, RunFailed, RunCancelled, TimedOut, BudgetExhausted}
    case Verifying => {Deciding, Succeeded, Blocked, RunFailed, RunCancelled, TimedOut, BudgetExhausted}
    case WaitingUser => {Deciding, RunCancelled, TimedOut}
    case Paused => {Deciding, RunCancelled, TimedOut}
    case _ => {}
  }

  function ToolTargets(l: ToolLifecycle): set<ToolLifecycle> {
    match l
    case Proposed => {ArgsReady, NeedsResolution}
    case NeedsResolution => {ArgsReady, ToolFailed}
    case ArgsReady => {Authorized, WaitingApproval, Denied}
    case WaitingApproval => {Authorized, Denied}
    case Authorized => {Dispatched}
    case Dispatched => {ToolSucceeded, Partial, ToolFailed, UnknownOutcome}
    case _ => {}
  }

  /** Authorized or any state only reachable through it. */
  predicate PastAuthorization(l: ToolLifecycle) {
    l in {Authorized, Dispatched, ToolSucceeded, Partial, ToolFailed, UnknownOutcome}
  }

  datatype Category =
    | Turns | InferenceTokens | InferenceMs | ToolCalls | ToolAttempts | ResolverCalls | Retries | ResultBytes | ContextBytes

  type Budgets = map<Category, int>

  predicate ValidBudgets(b: Budgets) { forall c: Category :: c in b && b[c] >= 0 }

  datatype Record =
    | DecisionRecorded | InferenceCompleted | FlowDecided
    | ArgumentsCompiled(invocation: Id)
    | AuthorizationRecorded(invocation: Id, idempotency: Id)
    | DispatchStarted(invocation: Id)
    | ResultRecorded(invocation: Id, status: ToolLifecycle)
    | AcceptanceDecided(accepted: bool, byGate: bool, evidence: Option<Id>)

  /** `Malformed` stands for any event whose payload fails the reducer's type checks. */
  datatype Event =
    | RunCreated(budgets: Budgets)
    | RunTransition(target: RunLifecycle, byGate: bool)
    | ToolProposed(invocation: Id, action: Id)
    | ToolTransition(invocation: Id, toolTarget: ToolLifecycle)
    | BudgetConsumed(claim: Id, category: Category, amount: int, terminalize: bool)
    | Recorded(recordId: Id, supported: bool, record: Record)
    | Malformed

  datatype RunState = RunState(
    lifecycle: RunLifecycle, version: nat, budgets: Budgets, tools: map<Id, ToolLifecycle>,
    actions: set<Id>, claims: set<Id>, records: set<Id>, dispatched: set<Id>, results: set<Id>, verdict: Option<bool>)

  // ----- the reducer -----

  predicate NeedsProposal(r: Record) {
    r.ArgumentsCompiled? || r.AuthorizationRecorded? || r.DispatchStarted? || r.ResultRecorded?
  }

  function ApplyRecord(s: RunState, r: Record): Option<RunState> {
    if NeedsProposal(r) && r.invocation !in s.tools then None
    else match r
      case DispatchStarted(i) =>
        if s.tools[i] != Authorized || i in s.dispatched then None else Some(s.(dispatched := s.dispatched + {i}))
      case ResultRecorded(i, _) =>
        if i !in s.dispatched || i in s.results then None else Some(s.(results := s.results + {i}))
      case AcceptanceDecided(accepted, byGate, _) => if !byGate then None else Some(s.(verdict := Some(accepted)))
      case _ => Some(s)
  }

  function ApplyBudget(s: RunState, claim: Id, c: Category, amount: int, terminalize: bool): Option<RunState> {
    if claim in s.claims || c !in s.budgets || amount <= 0 || amount > s.budgets[c] then None
    else if terminalize && RunTerminal(s.lifecycle) then None
    else Some(s.(budgets := s.budgets[c := s.budgets[c] - amount], claims := s.claims + {claim},
                 lifecycle := if terminalize then BudgetExhausted else s.lifecycle))
  }

  /** The effect of one event on a live state, without the version; None: integrity violation. */
  function Apply(s: RunState, e: Event): Option<RunState> {
    match e
    case RunCreated(_) => None
    case Malformed => None
    case RunTransition(target, byGate) =>
      if target !in RunTargets(s.lifecycle) || (target == Succeeded && !byGate) then None
      else Some(s.(lifecycle := target))
    case ToolProposed(i, a) =>
      if s.lifecycle != WaitingTool || i in s.tools || a in s.actions then None
      else Some(s.(tools := s.tools[i := Proposed], actions := s.actions + {a}))
    case ToolTransition(i, target) =>
      if i !in s.tools || target !in ToolTargets(s.tools[i]) then None
      else Some(s.(tools := s.tools[i := target]))
    case BudgetConsumed(claim, c, amount, terminalize) => ApplyBudget(s, claim, c, amount, terminalize)
    case Recorded(id, supported, r) =>
      if !supported || id in s.records then None
      else
        var s1 := ApplyRecord(s, r);
        if s1.None? then None else Some(s1.value.(records := s1.value.records + {id}))
  }

  function Created(budgets: Budgets): RunState {
    RunState(Ready, 1, budgets, map[], {}, {}, {}, {}, {}, None)
  }

  function Replay(log: seq<Event>): Option<RunState>
    decreases |log|
  {
    if log == [] then None
    else if |log| == 1 then
      if log[0].RunCreated? && ValidBudgets(log[0].budgets) then Some(Created(log[0].budgets)) else None
    else
      var s := Replay(log[..|log| - 1]);
      if s.None? then None
      else
        var s1 := Apply(s.value, log[|log| - 1]);
        if s1.None? then None else Some(s1.value.(version := |log|))
  }

  predicate Legal(log: seq<Event>) { Replay(log).Some? }

  /** The loop of `replay`. */
  method ReplayAll(log: seq<Event>) returns (r: Option<RunState>)
    ensures r == Replay(log)
  {
    if |log| == 0 || !log[0].RunCreated? {
      IllegalFirst(log);
      return None;
    }
    if !ValidBudgets(log[0].budgets) {
      IllegalFirst(log);
      return None;
    }
    var state := Created(log[0].budgets);
    var i := 1;
    while i < |log|
      invariant 1 <= i <= |log|
      invariant Replay(log[..i]) == Some(state)
    {
      assert log[..i + 1][..i] == log[..i];
      var next := Apply(state, log[i]);
      if next.None? {
        PrefixLegal(log, i + 1);
        return None;
      }
      state := next.value.(version := i + 1);
      i := i + 1;
    }
    assert log[..|log|] == log;
    return Some(state);
  }

  /** Every prefix of a legal log is legal. */
  lemma {:induction false} PrefixLegal(log: seq<Event>, n: nat)
    requires 1 <= n <= |log|
    ensures Legal(log) ==> Legal(log[..n])
    decreases |log|
  {
    if n == |log| {
      assert log[..n] == log;
    } else {
      PrefixLegal(log[..|log| - 1], n);
      assert log[..|log| - 1][..n] == log[..n];
    }
  }

  lemma IllegalFirst(log: seq<Event>)
    requires log != [] ==> !(log[0].RunCreated? && ValidBudgets(log[0].budgets))
    ensures !Legal(log)
  {
    if log != [] {
      PrefixLegal(log, 1);
    }
  }

  // ----- what every legal log satisfies -----

  /** Results follow dispatches, and only an authorized invocation is ever dispatched. */
  predicate Ordered(s: RunState) {
    && s.results <= s.dispatched
    && forall i :: i in s.dispatched ==> i in s.tools && PastAuthorization(s.tools[i])
  }

  lemma ApplyOrdered(s: RunState, e: Event)
    requires Ordered(s) && Apply(s, e).Some?
    ensures Ordered(Apply(s, e).value)
  {
  }

  lemma {:induction false} LegalOrdered(log: seq<Event>)
    requires Legal(log)
    ensures Ordered(Replay(log).value) && Replay(log).value.version == |log|
    decreases |log|
  {
    if |log| > 1 {
      LegalOrdered(log[..|log| - 1]);
      ApplyOrdered(Replay(log[..|log| - 1]).value, log[|log| - 1]);
    }
  }

  /** Terminal lifecycles are absorbing. */
  lemma {:induction false} TerminalAbsorbs(log: seq<Event>, n: nat)
    requires Legal(log) && 1 <= n <= |log|
    ensures Legal(log[..n])
    ensures RunTerminal(Replay(log[..n]).value.lifecycle) ==> Replay(log).value.lifecycle == Replay(log[..n]).value.lifecycle
    decreases |log|
  {
    PrefixLegal(log, n);
    if n == |log| {
      assert log[..n] == log;
    } else {
      TerminalAbsorbs(log[..|log| - 1], n);
      assert log[..|log| - 1][..n] == log[..n];
    }
  }

  /** Amount a log has consumed of one category. */
  function Consumed(log: seq<Event>, c: Category): int
    decreases |log|
  {
    if log == [] then 0
    else
      var last := log[|log| - 1];
      Consumed(log[..|log| - 1], c) + (if last.BudgetConsumed? && last.category == c then last.amount else 0)
  }

  lemma ApplyConserves(s: RunState, e: Event, c: Category)
    requires c in s.budgets && s.budgets[c] >= 0 && Apply(s, e).Some?
    ensures var s1 := Apply(s, e).value;
            && c in s1.budgets && s1.budgets[c] >= 0
            && s1.budgets[c] == s.budgets[c] - (if e.BudgetConsumed? && e.category == c then e.amount else 0)
  {
  }

  /** What remains of a budget plus what the log consumed is what the run was created with,
      and it never goes below zero. */
  lemma {:induction false} BudgetConserved(log: seq<Event>, c: Category)
    requires Legal(log)
    ensures log[0].RunCreated? && c in log[0].budgets && c in Replay(log).value.budgets
    ensures Replay(log).value.budgets[c] + Consumed(log, c) == log[0].budgets[c]
    ensures Replay(log).value.budgets[c] >= 0
    decreases |log|
  {
    if |log| > 1 {
      BudgetConserved(log[..|log| - 1], c);
      ApplyConserves(Replay(log[..|log| - 1]).value, log[|log| - 1], c);
    } else {
      assert log[..0] == [];
    }
  }

  predicate IsDispatch(e: Event, i: Id) { e.Recorded? && e.record.DispatchStarted? && e.record.invocation == i }
  predicate IsResult(e: Event, i: Id) { e.Recorded? && e.record.ResultRecorded? && e.record.invocation == i }
  predicate IsProposal(e: Event, i: Id) { e.ToolProposed? && e.invocation == i }

  ghost predicate Contains(log: seq<Event>, i: Id, kind: nat) {
    exists k :: 0 <= k < |log| &&
      (if kind == 0 then IsProposal(log[k], i) else if kind == 1 then IsDispatch(log[k], i) else IsResult(log[k], i))
  }

  lemma ContainsStep(log: seq<Event>, i: Id, kind: nat)
    requires log != []
    ensures Contains(log, i, kind) <==>
              || Contains(log[..|log| - 1], i, kind)
              || (var e := log[|log| - 1];
                  if kind == 0 then IsProposal(e, i) else if kind == 1 then IsDispatch(e, i) else IsResult(e, i))
  {
    var init := log[..|log| - 1];
    assert forall k :: 0 <= k < |init| ==> init[k] == log[k];
  }

  /** The three sets of the replayed state are exactly what the log says. */
  lemma {:induction false} StateMirrorsLog(log: seq<Event>, i: Id)
    requires Legal(log)
    ensures i in Replay(log).value.tools <==> Contains(log, i, 0)
    ensures i in Replay(log).value.dispatched <==> Contains(log, i, 1)
    ensures i in Replay(log).value.results <==> Contains(log, i, 2)
    decreases |log|
  {
    if |log| > 1 {
      StateMirrorsLog(log[..|log| - 1], i);
      ContainsStep(log, i, 0);
      ContainsStep(log, i, 1);
      ContainsStep(log, i, 2);
    }
  }

  /** A legal log starts each invocation at most once. */
  lemma {:induction false} DispatchOnce(log: seq<Event>, i: Id, a: nat, b: nat)
    requires Legal(log) && a < |log| && b < |log| && IsDispatch(log[a], i) && IsDispatch(log[b], i)
    ensures a == b
    decreases |log|
  {
    var n := |log| - 1;
    if n > 0 {
      var init := log[..n];
      if a < n && b < n {
        DispatchOnce(init, i, a, b);
      } else {
        StateMirrorsLog(init, i);
      }
    }
  }

  // ----- the store -----

  type Store = map<string, seq<Event>>

  datatype Claim = ActionClaim(id: Id) | InvocationClaim(id: Id) | BudgetClaim(id: Id) | IdempotencyClaim(id: Id)

  /** The keys of the store's unique indexes that an event occupies. */
  function ClaimsOf(e: Event): set<Claim> {
    match e
    case ToolProposed(i, a) => {ActionClaim(a), InvocationClaim(i)}
    case BudgetConsumed(c, _, _, _) => {BudgetClaim(c)}
    case Recorded(_, _, AuthorizationRecorded(_, key)) => {IdempotencyClaim(key)}
    case _ => {}
  }

  function LogOf(store: Store, run: string): seq<Event> { if run in store then store[run] else [] }

  predicate HoldsAt(store: Store, run: string, k: int, c: Claim) {
    run in store && 0 <= k < |store[run]| && c in ClaimsOf(store[run][k])
  }

  ghost predicate Claimed(store: Store, c: Claim) { exists run, k :: HoldsAt(store, run, k, c) }

  datatype Appended = Committed(version: nat) | InvalidCall | VersionConflict | IntegrityViolation | DuplicateClaim

  /** Would storing `events` in `run` give two rows the same unique key? */
  ghost predicate Collides(store: Store, run: string, events: seq<Event>) {
    var n := |LogOf(store, run)|;
    var after := store[run := LogOf(store, run) + events];
    exists k, q, j, c :: k >= n && HoldsAt(after, run, k, c) && HoldsAt(after, q, j, c) && (q != run || j != k)
  }

  /** `append`: the version check, then the replay of the candidate log, then the unique
      indexes; nothing is stored unless all three pass. */
  ghost function Append(store: Store, run: string, expected: nat, events: seq<Event>): (Store, Appended) {
    var log := LogOf(store, run);
    if events == [] then (store, InvalidCall)
    else if |log| != expected then (store, VersionConflict)
    else if !Legal(log + events) then (store, IntegrityViolation)
    else if Collides(store, run, events) then (store, DuplicateClaim)
    else (store[run := log + events], Committed(expected + |events|))
  }

  /** Every log replays, and no claim is held by two events of the whole store. */
  ghost predicate StoreOk(store: Store) {
    && (forall run :: run in store ==> Legal(store[run]))
    && (forall r, k, r', k', c :: HoldsAt(store, r, k, c) && HoldsAt(store, r', k', c) ==> r == r' && k == k')
  }

  lemma AppendKeepsStore(store: Store, run: string, expected: nat, events: seq<Event>)
    requires StoreOk(store)
    ensures StoreOk(Append(store, run, expected, events).0)
  {
    var (s1, r) := Append(store, run, expected, events);
    if r.Committed? {
      var log := LogOf(store, run);
      forall q, k, q', k', c | HoldsAt(s1, q, k, c) && HoldsAt(s1, q', k', c)
        ensures q == q' && k == k'
      {
        if !(q == run && k >= |log|) && !(q' == run && k' >= |log|) {
          assert HoldsAt(store, q, k, c) && HoldsAt(store, q', k', c);
        }
      }
    }
  }

  /** No invocation is started twice anywhere: within a run the reducer forbids it, across
      runs the unique proposal does. */
  lemma DispatchedInOnePlace(store: Store, i: Id, r: string, a: nat, r': string, b: nat)
    requires StoreOk(store) && r in store && a < |store[r]| && r' in store && b < |store[r']|
    requires IsDispatch(store[r][a], i) && IsDispatch(store[r'][b], i)
    ensures r == r' && a == b
  {
    var k := ProposalBehind(store[r], i, a);
    var k' := ProposalBehind(store[r'], i, b);
    assert HoldsAt(store, r, k, InvocationClaim(i)) && HoldsAt(store, r', k', InvocationClaim(i));
    DispatchOnce(store[r], i, a, if r == r' then b else a);
  }

  lemma ProposalBehind(log: seq<Event>, i: Id, a: nat) returns (k: nat)
    requires Legal(log) && a < |log| && IsDispatch(log[a], i)
    ensures k < |log| && IsProposal(log[k], i)
  {
    StateMirrorsLog(log, i);
    LegalOrdered(log);
    assert Contains(log, i, 1);
    k :| 0 <= k < |log| && IsProposal(log[k], i);
  }
}

/** The store as an object with its unique indexes kept beside the logs. */
module AgentEventStore {
  import opened Basics
  import opened AgentLog
  import Spec = AgentLog

  /** The store with its unique indexes: `index` is the set of keys they hold. */
  class EventStore {
    var logs: Store
    var index: set<Claim>

    ghost predicate Valid()
      reads this
    {
      StoreOk(logs) && forall c :: c in index <==> Claimed(logs, c)
    }

    constructor ()
      ensures Valid() && logs == map[]
    {
      logs, index := map[], {};
    }

    method Load(run: string) returns (log: seq<Event>)
      ensures log == LogOf(logs, run)
    {
      log := if run in logs then logs[run] else [];
    }

    method Append(run: string, expected: nat, events: seq<Event>) returns (r: Appended)
      requires Valid()
      modifies this
      ensures Valid() && (logs, r) == Spec.Append(old(logs), run, expected, events)
    {
      AppendKeepsStore(logs, run, expected, events);
      if events == [] { return InvalidCall; }
      var log := Load(run);
      if |log| != expected { return VersionConflict; }
      var state := ReplayAll(log + events);
      if state.None? { return IntegrityViolation; }
      var keys := index;
      NothingAdded(logs, run);
      assert log + events[..0] == log;
      for k := 0 to |events|
        invariant logs == old(logs) && index == old(index)
        invariant forall c :: c in keys <==> Claimed(logs[run := log + events[..k]], c)
        invariant !Collides(logs, run, events[..k])
      {
        if ClaimsOf(events[k]) * keys != {} {
          CollisionFound(logs, run, events, k);
          return DuplicateClaim;
        }
        NoCollisionYet(logs, run, events, k, keys);
        keys := keys + ClaimsOf(events[k]);
      }
      assert events[..|events|] == events;
      logs, index := logs[run := log + events], keys;
      assert (logs, Committed(expected + |events|)) == Spec.Append(old(logs), run, expected, events);
      return Committed(expected + |events|);
    }

    static lemma NothingAdded(store: Store, run: string)
      ensures forall c :: Claimed(store[run := LogOf(store, run)], c) <==> Claimed(store, c)
    {
      var same := store[run := LogOf(store, run)];
      forall c
        ensures Claimed(same, c) <==> Claimed(store, c)
      {
        if Claimed(same, c) {
          var q, j :| HoldsAt(same, q, j, c);
          assert HoldsAt(store, q, j, c);
        }
        if Claimed(store, c) {
          var q, j :| HoldsAt(store, q, j, c);
          assert HoldsAt(same, q, j, c);
        }
      }
    }

    static lemma CollisionFound(store: Store, run: string, events: seq<Event>, k: nat)
      requires k < |events|
      requires exists c :: c in ClaimsOf(events[k]) && Claimed(store[run := LogOf(store, run) + events[..k]], c)
      ensures Collides(store, run, events)
    {
      var log := LogOf(store, run);
      var part, after := store[run := log + events[..k]], store[run := log + events];
      var c :| c in ClaimsOf(events[k]) && Claimed(part, c);
      var q, j :| HoldsAt(part, q, j, c);
      assert HoldsAt(after, q, j, c);
      assert HoldsAt(after, run, |log| + k, c);
    }

    static lemma NewCollision(store: Store, run: string, events: seq<Event>, k: nat)
      requires k < |events| && Collides(store, run, events[..k + 1])
      ensures Collides(store, run, events[..k]) ||
              exists c :: c in ClaimsOf(events[k]) && Claimed(store[run := LogOf(store, run) + events[..k]], c)
    {
      var log := LogOf(store, run);
      var part, after := store[run := log + events[..k]], store[run := log + events[..k + 1]];
      var p, q, j, c :| p >= |log| && HoldsAt(after, run, p, c) && HoldsAt(after, q, j, c) && (q != run || j != p);
      if p == |log| + k {
        assert HoldsAt(part, q, j, c) && Claimed(part, c);
      } else if q == run && j == |log| + k {
        assert HoldsAt(part, run, p, c) && Claimed(part, c);
      } else {
        assert HoldsAt(part, run, p, c) && HoldsAt(part, q, j, c);
      }
    }

    static lemma NoCollisionYet(store: Store, run: string, events: seq<Event>, k: nat, keys: set<Claim>)
      requires k < |events| && !Collides(store, run, events[..k]) && ClaimsOf(events[k]) * keys == {}
      requires forall c :: c in keys <==> Claimed(store[run := LogOf(store, run) + events[..k]], c)
      ensures !Collides(store, run, events[..k + 1])
      ensures forall c :: c in keys + ClaimsOf(events[k]) <==> Claimed(store[run := LogOf(store, run) + events[..k + 1]], c)
    {
      var log := LogOf(store, run);
      var part, after := store[run := log + events[..k]], store[run := log + events[..k + 1]];
      assert forall q, j, c :: HoldsAt(after, q, j, c) && !(q == run && j == |log| + k) ==> HoldsAt(part, q, j, c);
      assert forall q, j, c :: HoldsAt(part, q, j, c) ==> HoldsAt(after, q, j, c);
      assert forall c :: c in ClaimsOf(events[k]) ==> HoldsAt(after, run, |log| + k, c);
      if Collides(store, run, events[..k + 1]) {
        NewCollision(store, run, events, k);
        assert false;
      }
      forall c
        ensures c in keys + ClaimsOf(events[k]) <==> Claimed(after, c)
      {
        if Claimed(after, c) {
          var q, j :| HoldsAt(after, q, j, c);
          assert HoldsAt(part, q, j, c) || c in ClaimsOf(events[k]);
        }
        if Claimed(part, c) {
          var q, j :| HoldsAt(part, q, j, c);
          assert HoldsAt(after, q, j, c);
        }
      }
    }
  }
}
