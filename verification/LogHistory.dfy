/** Which logs replay, told by the events alone: every event is checked against what stands
    before it in the log, without the replayed state. */
module LogHistory {
  import opened Basics
  import opened AgentLog

  // ----- what stands in a log -----

  /** The lifecycle an event gives the run, if it gives it one. */
  function Moves(e: Event): Option<RunLifecycle> {
    match e
    case RunTransition(target, _) => Some(target)
    case BudgetConsumed(_, _, _, terminalize) => if terminalize then Some(BudgetExhausted) else None
    case _ => None
  }

  /** The run stands where the last event that moved it has put it, and at first it is ready. */
  ghost predicate RunStands(log: seq<Event>, l: RunLifecycle) {
    || (l.Ready? && forall k :: 0 <= k < |log| ==> Moves(log[k]).None?)
    || exists k :: 0 <= k < |log| && Moves(log[k]) == Some(l) && forall j :: k < j < |log| ==> Moves(log[j]).None?
  }

  /** The lifecycle an event gives an invocation, if it gives it one. */
  function MovesTool(e: Event, i: Id): Option<ToolLifecycle> {
    match e
    case ToolProposed(x, _) => if x == i then Some(Proposed) else None
    case ToolTransition(x, target) => if x == i then Some(target) else None
    case _ => None
  }

  ghost predicate ToolStands(log: seq<Event>, i: Id, l: ToolLifecycle) {
    exists k :: 0 <= k < |log| && MovesTool(log[k], i) == Some(l) && forall j :: k < j < |log| ==> MovesTool(log[j], i).None?
  }

  /** From where a run may go to `to`. */
  predicate RunMay(from: RunLifecycle, to: RunLifecycle) {
    match to
    case Ready => false
    case Deciding => from in {Ready, Observing, Synthesizing, Verifying, WaitingUser, Paused}
    case WaitingTool => from == Deciding
    case Observing => from == WaitingTool
    case Synthesizing => from == Observing
    case Verifying => from == Observing
    case Succeeded => from in {Synthesizing, Verifying}
    case WaitingUser => from == Deciding
    case Paused => from in {Deciding, WaitingTool, Observing}
    case Blocked => from in {Deciding, Observing, Synthesizing, Verifying}
    case RunFailed => from in {Deciding, WaitingTool, Observing, Synthesizing, Verifying}
    case BudgetExhausted => from in {Deciding, WaitingTool, Observing, Synthesizing, Verifying}
    case RunCancelled => !IsOver(from)
    case TimedOut => !IsOver(from)
  }

  predicate IsOver(l: RunLifecycle) {
    l.Succeeded? || l.Blocked? || l.RunFailed? || l.RunCancelled? || l.TimedOut? || l.BudgetExhausted?
  }

  /** From where an invocation may go to `to`. */
  predicate ToolMay(from: ToolLifecycle, to: ToolLifecycle) {
    match to
    case Proposed => false
    case NeedsResolution => from == Proposed
    case ArgsReady => from in {Proposed, NeedsResolution}
    case WaitingApproval => from == ArgsReady
    case Authorized => from in {ArgsReady, WaitingApproval}
    case Denied => from in {ArgsReady, WaitingApproval}
    case Dispatched => from == Authorized
    case ToolSucceeded => from == Dispatched
    case Partial => from == Dispatched
    case UnknownOutcome => from == Dispatched
    case ToolFailed => from in {Dispatched, NeedsResolution}
  }

  predicate Proposes(log: seq<Event>, i: Id) { exists k :: 0 <= k < |log| && IsProposal(log[k], i) }
  predicate Acts(log: seq<Event>, a: Id) { exists k :: 0 <= k < |log| && log[k].ToolProposed? && log[k].action == a }
  predicate Claims(log: seq<Event>, claim: Id) { exists k :: 0 <= k < |log| && log[k].BudgetConsumed? && log[k].claim == claim }
  predicate Records(log: seq<Event>, id: Id) { exists k :: 0 <= k < |log| && log[k].Recorded? && log[k].recordId == id }
  predicate Dispatches(log: seq<Event>, i: Id) { exists k :: 0 <= k < |log| && IsDispatch(log[k], i) }
  predicate Results(log: seq<Event>, i: Id) { exists k :: 0 <= k < |log| && IsResult(log[k], i) }

  /** May this record follow the log? A dispatch needs an authorized invocation, a result its
      dispatch, and each is recorded once; a verdict is the gate's. */
  ghost predicate RecordFits(log: seq<Event>, r: Record) {
    match r
    case ArgumentsCompiled(i) => Proposes(log, i)
    case AuthorizationRecorded(i, _) => Proposes(log, i)
    case DispatchStarted(i) => ToolStands(log, i, Authorized) && !Dispatches(log, i)
    case ResultRecorded(i, _) => Dispatches(log, i) && !Results(log, i)
    case AcceptanceDecided(_, byGate, _) => byGate
    case _ => true
  }

  /** May this event follow the log? */
  ghost predicate Fits(log: seq<Event>, e: Event)
    requires log != [] && log[0].RunCreated?
  {
    match e
    case RunCreated(_) => false
    case Malformed => false
    case RunTransition(target, byGate) => (exists l :: RunStands(log, l) && RunMay(l, target)) && (target == Succeeded ==> byGate)
    case ToolProposed(i, a) => RunStands(log, WaitingTool) && !Proposes(log, i) && !Acts(log, a)
    case ToolTransition(i, target) => exists l :: ToolStands(log, i, l) && ToolMay(l, target)
    case BudgetConsumed(claim, c, amount, terminalize) =>
      && !Claims(log, claim) && amount > 0
      && c in log[0].budgets && Consumed(log, c) + amount <= log[0].budgets[c]
      && (terminalize ==> exists l :: RunStands(log, l) && !IsOver(l))
    case Recorded(id, supported, r) => supported && !Records(log, id) && RecordFits(log, r)
  }

  predicate Begins(log: seq<Event>) { log != [] && log[0].RunCreated? && forall c: Category :: c in log[0].budgets && log[0].budgets[c] >= 0 }

  /** Begins with its creation, and every later event fits the events before it. */
  ghost predicate Coherent(log: seq<Event>) {
    Begins(log) && forall k :: 1 <= k < |log| ==> Fits(log[..k], log[k])
  }

  // ----- what stands is one thing -----

  lemma OneRunStands(log: seq<Event>, a: RunLifecycle, b: RunLifecycle)
    requires RunStands(log, a) && RunStands(log, b)
    ensures a == b
  {
  }

  lemma OneToolStands(log: seq<Event>, i: Id, a: ToolLifecycle, b: ToolLifecycle)
    requires ToolStands(log, i, a) && ToolStands(log, i, b)
    ensures a == b
  {
  }

  lemma RunMoves(log: seq<Event>, e: Event, l: RunLifecycle)
    requires RunStands(log, l)
    ensures RunStands(log + [e], if Moves(e).Some? then Moves(e).value else l)
  {
    var longer := log + [e];
    if Moves(e).Some? {
      assert longer[|log|] == e;
    } else if k :| 0 <= k < |log| && Moves(log[k]) == Some(l) && forall j :: k < j < |log| ==> Moves(log[j]).None? {
      assert longer[k] == log[k];
      assert forall j :: k < j < |longer| ==> Moves(longer[j]).None?;
    }
  }

  lemma ToolMoves(log: seq<Event>, e: Event, i: Id, l: ToolLifecycle)
    requires ToolStands(log, i, l) || MovesTool(e, i).Some?
    ensures ToolStands(log + [e], i, if MovesTool(e, i).Some? then MovesTool(e, i).value else l)
  {
    var longer := log + [e];
    if MovesTool(e, i).Some? {
      assert longer[|log|] == e;
    } else {
      var k :| 0 <= k < |log| && MovesTool(log[k], i) == Some(l) && forall j :: k < j < |log| ==> MovesTool(log[j], i).None?;
      assert longer[k] == log[k];
      assert forall j :: k < j < |longer| ==> MovesTool(longer[j], i).None?;
    }
  }

  // ----- the replayed state is what stands -----

  ghost predicate MirrorsTools(s: RunState, log: seq<Event>) {
    && (forall i :: i in s.tools ==> ToolStands(log, i, s.tools[i]))
    && (forall i :: i in s.tools <==> Proposes(log, i))
  }

  ghost predicate MirrorsSets(s: RunState, log: seq<Event>) {
    && (forall a :: a in s.actions <==> Acts(log, a))
    && (forall c :: c in s.claims <==> Claims(log, c))
    && (forall r :: r in s.records <==> Records(log, r))
    && (forall i :: i in s.dispatched <==> Dispatches(log, i))
    && (forall i :: i in s.results <==> Results(log, i))
  }

  ghost predicate Mirrors(s: RunState, log: seq<Event>) {
    RunStands(log, s.lifecycle) && MirrorsTools(s, log) && MirrorsSets(s, log)
  }

  lemma SetsMore(log: seq<Event>, e: Event, x: Id)
    ensures Acts(log + [e], x) <==> Acts(log, x) || (e.ToolProposed? && e.action == x)
    ensures Claims(log + [e], x) <==> Claims(log, x) || (e.BudgetConsumed? && e.claim == x)
    ensures Records(log + [e], x) <==> Records(log, x) || (e.Recorded? && e.recordId == x)
    ensures Dispatches(log + [e], x) <==> Dispatches(log, x) || IsDispatch(e, x)
    ensures Results(log + [e], x) <==> Results(log, x) || IsResult(e, x)
  {
    var longer := log + [e];
    assert longer[|log|] == e;
    assert forall k :: 0 <= k < |log| ==> longer[k] == log[k];
  }

  /** What an event does to the sets of the state. */
  lemma SetsAfter(s: RunState, e: Event, x: Id)
    requires Apply(s, e).Some?
    ensures var s1 := Apply(s, e).value;
            && (x in s1.actions <==> x in s.actions || (e.ToolProposed? && e.action == x))
            && (x in s1.claims <==> x in s.claims || (e.BudgetConsumed? && e.claim == x))
            && (x in s1.records <==> x in s.records || (e.Recorded? && e.recordId == x))
            && (x in s1.dispatched <==> x in s.dispatched || IsDispatch(e, x))
            && (x in s1.results <==> x in s.results || IsResult(e, x))
  {
  }

  lemma SetsMove(s: RunState, log: seq<Event>, e: Event)
    requires MirrorsSets(s, log) && Apply(s, e).Some?
    ensures MirrorsSets(Apply(s, e).value, log + [e])
  {
    hide Apply;
    hide Acts;
    hide Claims;
    hide Records;
    hide Dispatches;
    hide Results;
    hide IsDispatch;
    hide IsResult;
    forall x: Id
      ensures x in Apply(s, e).value.actions <==> Acts(log + [e], x)
      ensures x in Apply(s, e).value.claims <==> Claims(log + [e], x)
      ensures x in Apply(s, e).value.records <==> Records(log + [e], x)
      ensures x in Apply(s, e).value.dispatched <==> Dispatches(log + [e], x)
      ensures x in Apply(s, e).value.results <==> Results(log + [e], x)
    {
      SetsMore(log, e, x);
      SetsAfter(s, e, x);
    }
  }

  /** What an event does to the invocations. */
  lemma ToolsAfter(s: RunState, e: Event)
    requires Apply(s, e).Some?
    ensures var s1 := Apply(s, e).value;
            && (forall i :: i in s1.tools <==> i in s.tools || IsProposal(e, i))
            && (forall i :: i in s1.tools ==> s1.tools[i] == if MovesTool(e, i).Some? then MovesTool(e, i).value else s.tools[i])
            && (forall i :: MovesTool(e, i).Some? ==> i in s.tools || IsProposal(e, i))
  {
  }

  lemma ProposesMore(log: seq<Event>, e: Event, i: Id)
    ensures Proposes(log + [e], i) <==> Proposes(log, i) || IsProposal(e, i)
  {
    var longer := log + [e];
    assert longer[|log|] == e;
    assert forall k :: 0 <= k < |log| ==> longer[k] == log[k];
  }

  lemma ToolsMove(s: RunState, log: seq<Event>, e: Event)
    requires MirrorsTools(s, log) && Apply(s, e).Some?
    ensures MirrorsTools(Apply(s, e).value, log + [e])
  {
    hide Proposes;
    hide ToolStands;
    ToolsAfter(s, e);
    hide Apply;
    var s1 := Apply(s, e).value;
    forall i: Id
      ensures i in s1.tools <==> Proposes(log + [e], i)
      ensures i in s1.tools ==> ToolStands(log + [e], i, s1.tools[i])
    {
      ProposesMore(log, e, i);
      if i in s1.tools { ToolMoves(log, e, i, if i in s.tools then s.tools[i] else Proposed); }
    }
  }

  lemma {:induction false} ReplayMirrors(log: seq<Event>)
    requires Legal(log)
    ensures log[0].RunCreated? && Mirrors(Replay(log).value, log)
    decreases |log|
  {
    if |log| > 1 {
      var init, e := log[..|log| - 1], log[|log| - 1];
      ReplayMirrors(init);
      var s := Replay(init).value;
      assert log == init + [e] && init[0] == log[0];
      SetsMove(s, init, e);
      ToolsMove(s, init, e);
      RunMoves(init, e, s.lifecycle);
      MovedTo(s, e);
      hide MirrorsSets;
      hide MirrorsTools;
      hide RunStands;
      VersionMirrors(Apply(s, e).value, |log|, log);
    }
  }

  lemma VersionMirrors(s: RunState, version: nat, log: seq<Event>)
    requires Mirrors(s, log)
    ensures Mirrors(s.(version := version), log)
  {
  }

  lemma MovedTo(s: RunState, e: Event)
    requires Apply(s, e).Some?
    ensures Apply(s, e).value.lifecycle == if Moves(e).Some? then Moves(e).value else s.lifecycle
  {
  }

  // ----- what the reducer takes is what fits -----

  lemma RunEdges(from: RunLifecycle, to: RunLifecycle)
    ensures to in RunTargets(from) <==> RunMay(from, to)
  {
  }

  lemma ToolEdges(from: ToolLifecycle, to: ToolLifecycle)
    ensures to in ToolTargets(from) <==> ToolMay(from, to)
  {
  }

  lemma RunStep(log: seq<Event>, s: RunState)
    requires RunStands(log, s.lifecycle)
    ensures forall l :: RunStands(log, l) <==> l == s.lifecycle
  {
    forall l | RunStands(log, l)
      ensures l == s.lifecycle
    {
      OneRunStands(log, l, s.lifecycle);
    }
  }

  lemma ToolStep(log: seq<Event>, s: RunState, i: Id)
    requires MirrorsTools(s, log) && (i !in s.tools ==> !exists k :: 0 <= k < |log| && MovesTool(log[k], i).Some?)
    ensures forall l :: ToolStands(log, i, l) <==> i in s.tools && l == s.tools[i]
  {
    forall l | ToolStands(log, i, l)
      ensures i in s.tools && l == s.tools[i]
    {
      if i in s.tools { OneToolStands(log, i, l, s.tools[i]); }
    }
  }

  /** Nothing is said of an invocation before it is proposed. */
  lemma {:induction false} ProposedFirst(log: seq<Event>, i: Id, k: nat)
    requires Legal(log) && k < |log| && MovesTool(log[k], i).Some?
    ensures i in Replay(log).value.tools
    decreases |log|
  {
    if |log| > 1 && k < |log| - 1 { ProposedFirst(log[..|log| - 1], i, k); }
  }

  /** The reducer takes an event after a log exactly if it fits. */
  lemma TakesExactly(log: seq<Event>, e: Event)
    requires Legal(log)
    ensures log[0].RunCreated? && (Apply(Replay(log).value, e).Some? <==> Fits(log, e))
  {
    ReplayMirrors(log);
    var s := Replay(log).value;
    RunStep(log, s);
    match e
    case RunTransition(target, _) => RunEdges(s.lifecycle, target);
    case ToolProposed(i, a) =>
    case ToolTransition(i, target) =>
      ToolKnown(log, i);
      if i in s.tools { ToolEdges(s.tools[i], target); }
    case BudgetConsumed(claim, c, amount, terminalize) => BudgetConserved(log, c);
    case Recorded(id, _, r) => RecordTaken(log, r);
    case _ =>
  }

  lemma ToolKnown(log: seq<Event>, i: Id)
    requires Legal(log)
    ensures forall l :: ToolStands(log, i, l) <==> i in Replay(log).value.tools && l == Replay(log).value.tools[i]
  {
    ReplayMirrors(log);
    forall k: nat | k < |log| && MovesTool(log[k], i).Some?
      ensures i in Replay(log).value.tools
    {
      ProposedFirst(log, i, k);
    }
    ToolStep(log, Replay(log).value, i);
  }

  lemma RecordTaken(log: seq<Event>, r: Record)
    requires Legal(log)
    ensures ApplyRecord(Replay(log).value, r).Some? <==> RecordFits(log, r)
  {
    ReplayMirrors(log);
    LegalOrdered(log);
    hide RunStands;
    hide Replay;
    if NeedsProposal(r) { ToolKnown(log, r.invocation); }
    hide ToolStands;
    hide Proposes;
    hide Dispatches;
    hide Results;
  }

  /** A log replays exactly if it is coherent. */
  lemma {:induction false} LegalExactly(log: seq<Event>)
    ensures Legal(log) <==> Coherent(log)
    decreases |log|
  {
    hide Fits;
    if |log| > 1 {
      var n := |log| - 1;
      var init := log[..n];
      LegalExactly(init);
      forall k | 1 <= k < n
        ensures init[..k] == log[..k] && init[k] == log[k]
      {
      }
      CoherentGrows(log);
      if Legal(init) { TakesExactly(init, log[n]); }
    }
  }

  lemma CoherentGrows(log: seq<Event>)
    requires |log| > 1
    ensures var n := |log| - 1;
            Coherent(log) <==> Coherent(log[..n]) && Fits(log[..n], log[n])
  {
    hide Fits;
    var n := |log| - 1;
    var init := log[..n];
    assert init[0] == log[0];
    assert forall k :: 1 <= k < n ==> init[..k] == log[..k] && init[k] == log[k];
  }

  /** The state a log replays to, read off its events. */
  lemma StateExactly(log: seq<Event>)
    requires Legal(log)
    ensures var s := Replay(log).value;
            && (forall l :: RunStands(log, l) <==> l == s.lifecycle)
            && (forall i, l :: ToolStands(log, i, l) <==> i in s.tools && l == s.tools[i])
            && log[0].RunCreated? && (forall c: Category :: c in s.budgets && c in log[0].budgets && s.budgets[c] == log[0].budgets[c] - Consumed(log, c))
            && s.version == |log|
  {
    ReplayMirrors(log);
    RunStep(log, Replay(log).value);
    LegalOrdered(log);
    forall i
      ensures forall l :: ToolStands(log, i, l) <==> i in Replay(log).value.tools && l == Replay(log).value.tools[i]
    {
      ToolKnown(log, i);
    }
    forall c: Category
      ensures c in Replay(log).value.budgets && log[0].RunCreated? && c in log[0].budgets
      ensures Replay(log).value.budgets[c] == log[0].budgets[c] - Consumed(log, c)
    {
      BudgetConserved(log, c);
    }
  }

  // ----- appending -----

  /** No event of the store holds a claim of `e`. */
  ghost predicate FreeClaims(store: Store, e: Event) {
    forall q, k, c :: q in store && 0 <= k < |store[q]| && c in ClaimsOf(store[q][k]) ==> c !in ClaimsOf(e)
  }

  ghost predicate MayAppend(store: Store, run: string, e: Event) {
    var log := LogOf(store, run);
    && (if log == [] then Begins([e]) else log[0].RunCreated? && Fits(log, e))
    && FreeClaims(store, e)
  }

  /** One event is appended exactly if the version is current, the event fits the log and its
      claims are free in the whole store; otherwise nothing is stored. */
  lemma AppendExactly(store: Store, run: string, expected: nat, e: Event)
    requires StoreOk(store)
    ensures var ((s1, r), log) := (Append(store, run, expected, [e]), LogOf(store, run));
            && (r.VersionConflict? <==> expected != |log|)
            && (r.Committed? <==> expected == |log| && MayAppend(store, run, e))
            && s1 == if r.Committed? then store[run := log + [e]] else store
  {
    var log := LogOf(store, run);
    hide Replay;
    hide Fits;
    if log == [] {
      LegalExactly([e]);
      assert log + [e] == [e];
    } else {
      assert Legal(log);
      LegalExactly(log);
      LegalExactly(log + [e]);
      CoherentGrows(log + [e]);
      assert (log + [e])[..|log|] == log;
    }
    hide Coherent;
    CollidesExactly(store, run, e);
    hide Collides;
    hide FreeClaims;
  }

  lemma CollidesExactly(store: Store, run: string, e: Event)
    requires StoreOk(store)
    ensures Collides(store, run, [e]) <==> !FreeClaims(store, e)
  {
    hide ClaimsOf;
    hide Legal;
    var log := LogOf(store, run);
    var n, after := |log|, store[run := log + [e]];
    if !FreeClaims(store, e) {
      var q, k, c :| q in store && 0 <= k < |store[q]| && c in ClaimsOf(store[q][k]) && c in ClaimsOf(e);
      assert HoldsAt(after, q, k, c) && HoldsAt(after, run, n, c);
    }
    if Collides(store, run, [e]) {
      var k, q, j, c :| k >= n && HoldsAt(after, run, k, c) && HoldsAt(after, q, j, c) && (q != run || j != k);
      assert k == n && c in ClaimsOf(e);
      assert HoldsAt(store, q, j, c);
    }
  }
}
