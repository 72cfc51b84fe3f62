module AgentProtocol {
  // Any number of service instances working on any number of runs (agent_runtime/service.py,
  // `execute_turn` and `recover`): each turn is a program of single appends with one tool
  // execution in the middle. Instances interleave freely, a reload after an append may already
  // see other writers, and an instance may stop at any point.

  import opened Basics
  import opened AgentLog

  datatype Permission = Allow | Deny | RequireApproval
  datatype Action = CallTool | AskUser | Submit | ProposeBlocked

  /** What the model, the compiler, the permission gate and the acceptance criteria will say
      in this turn. `evidence`: the result has a data hash and meets the criteria. */
  datatype Turn = Turn(
    turnId: string, attemptId: string, tokens: nat, ms: nat, action: Action,
    invocation: Id, actionId: Id, idempotency: Id, permission: Permission, evidence: bool)

  /** Where an instance is: about to make the append (or the call) it is named after. */
  datatype Point =
    | AtInference | AtTurnBudget | AtTokenBudget | AtMsBudget | AtDecision
    | AtAskUser | AtBlocked | AtSubmitVerdict | AtSubmitBlocked
    | AtWaitingTool | AtProposal | AtArguments | AtArgsReady | AtAuthorization | AtRefusal
    | AtAuthorized | AtCallBudget | AtDispatch | AtDispatched | AtAttemptBudget | AtExecute
    | AtResult | AtOutcome | AtObserving | AtFlow | AtNextLifecycle | AtVerdict | AtFinish | Ended

  /** The last five fields are history: where this instance's own dispatch, result and verdict
      stand in the log, whether it has called the executor, and where all it has appended stands. */
  datatype Instance = Instance(
    run: string, turn: Turn, point: Point, version: nat, loaded: bool, status: ToolLifecycle,
    dispatchAt: Option<nat>, resultAt: Option<nat>, verdictAt: Option<nat>, executed: bool, marks: seq<nat>)

  predicate Accepted(i: Instance) { i.status == ToolSucceeded && i.turn.evidence }

  function FlowTarget(status: ToolLifecycle): RunLifecycle {
    if status == UnknownOutcome then Paused else if status == ToolFailed then Deciding else Verifying
  }

  function RecordOf(i: Instance, r: Record): Event { Recorded(Hash("rec", i.run, [], i.version + 1), true, r) }

  /** The event an instance appends at its point. */
  function EventAt(i: Instance): Event
    requires i.point != AtExecute && i.point != Ended
  {
    var t := i.turn;
    match i.point
    case AtInference => RecordOf(i, InferenceCompleted)
    case AtTurnBudget => BudgetConsumed(BudgetHash(i.run, Named(t.turnId), "turns"), Turns, 1, false)
    case AtTokenBudget => BudgetConsumed(BudgetHash(i.run, Named(t.attemptId), "inference_tokens"), InferenceTokens, t.tokens, false)
    case AtMsBudget => BudgetConsumed(BudgetHash(i.run, Named(t.attemptId), "inference_ms"), InferenceMs, t.ms, false)
    case AtDecision => RecordOf(i, DecisionRecorded)
    case AtAskUser => RunTransition(WaitingUser, false)
    case AtBlocked => RunTransition(Blocked, false)
    case AtSubmitVerdict => RecordOf(i, AcceptanceDecided(false, true, None))
    case AtSubmitBlocked => RunTransition(Blocked, true)
    case AtWaitingTool => RunTransition(WaitingTool, false)
    case AtProposal => ToolProposed(t.invocation, t.actionId)
    case AtArguments => RecordOf(i, ArgumentsCompiled(t.invocation))
    case AtArgsReady => ToolTransition(t.invocation, ArgsReady)
    case AtAuthorization => RecordOf(i, AuthorizationRecorded(t.invocation, t.idempotency))
    case AtRefusal => ToolTransition(t.invocation, if t.permission == RequireApproval then WaitingApproval else Denied)
    case AtAuthorized => ToolTransition(t.invocation, Authorized)
    case AtCallBudget => BudgetConsumed(BudgetHash(i.run, Invocation(t.invocation), "tool_calls"), ToolCalls, 1, false)
    case AtDispatch => RecordOf(i, DispatchStarted(t.invocation))
    case AtDispatched => ToolTransition(t.invocation, Dispatched)
    case AtAttemptBudget => BudgetConsumed(BudgetHash(i.run, Invocation(t.invocation), "tool_attempts"), ToolAttempts, 1, false)
    case AtResult => RecordOf(i, ResultRecorded(t.invocation, i.status))
    case AtOutcome => ToolTransition(t.invocation, i.status)
    case AtObserving => RunTransition(Observing, false)
    case AtFlow => RecordOf(i, FlowDecided)
    case AtNextLifecycle => RunTransition(FlowTarget(i.status), false)
    case AtVerdict => RecordOf(i, AcceptanceDecided(Accepted(i), true, Some(t.invocation)))
    case AtFinish => RunTransition(if Accepted(i) then Succeeded else Blocked, true)
  }

  /** The point after a successful append. */
  function Next(i: Instance): Point {
    var t := i.turn;
    match i.point
    case AtInference => AtTurnBudget
    case AtTurnBudget => if t.tokens > 0 then AtTokenBudget else if t.ms > 0 then AtMsBudget else AtDecision
    case AtTokenBudget => if t.ms > 0 then AtMsBudget else AtDecision
    case AtMsBudget => AtDecision
    case AtDecision =>
      (match t.action case CallTool => AtWaitingTool case AskUser => AtAskUser case ProposeBlocked => AtBlocked case Submit => AtSubmitVerdict)
    case AtSubmitVerdict => AtSubmitBlocked
    case AtWaitingTool => AtProposal
    case AtProposal => AtArguments
    case AtArguments => AtArgsReady
    case AtArgsReady => AtAuthorization
    case AtAuthorization => if t.permission == Allow then AtAuthorized else AtRefusal
    case AtAuthorized => AtCallBudget
    case AtCallBudget => AtDispatch
    case AtDispatch => AtDispatched
    case AtDispatched => AtAttemptBudget
    case AtAttemptBudget => AtExecute
    case AtResult => AtOutcome
    case AtOutcome => AtObserving
    case AtObserving => AtFlow
    case AtFlow => AtNextLifecycle
    case AtNextLifecycle => if FlowTarget(i.status) == Verifying then AtVerdict else Ended
    case AtVerdict => AtFinish
    case _ => Ended
  }

  /** An instance after its append landed at index `at`; the reload is still to come. */
  function Booked(i: Instance, at: nat): Instance {
    i.(point := Next(i), loaded := false, marks := i.marks + [at],
       dispatchAt := if i.point == AtDispatch then Some(at) else i.dispatchAt,
       resultAt := if i.point == AtResult then Some(at) else i.resultAt,
       verdictAt := if i.point == AtVerdict then Some(at) else i.verdictAt)
  }

  /** `calls` counts the calls of the executor per invocation. */
  datatype World = World(store: Store, instances: map<nat, Instance>, calls: multiset<Id>)

  datatype Step =
    | Launch(id: nat, run: string, turn: Turn)
    | AppendNext(id: nat)
    | Reload(id: nat)
    | Execute(id: nat, status: ToolLifecycle)
    | Stop(id: nat)
    | External(run: string, expected: nat, event: Event)

  /** Other writers create runs and move, pause or charge them; the records of a turn and the
      SUCCEEDED transition are written by turns only. */
  predicate MayBeExternal(e: Event) {
    !e.Recorded? && !(e.RunTransition? && e.target == Succeeded)
  }

  predicate MayLaunch(log: seq<Event>) {
    Legal(log) && var s := Replay(log).value; s.lifecycle == Deciding && Turns in s.budgets && s.budgets[Turns] >= 1
  }

  predicate IsOutcome(s: ToolLifecycle) { s in {ToolSucceeded, Partial, ToolFailed, UnknownOutcome} }

  function With(w: World, id: nat, i: Instance): World { w.(instances := w.instances[id := i]) }

  function NewInstance(w: World, run: string, turn: Turn): Instance {
    Instance(run, turn, AtInference, |LogOf(w.store, run)|, true, Proposed, None, None, None, false, [])
  }

  ghost function Do(w: World, step: Step): World {
    match step
    case Launch(id, run, turn) =>
      if id in w.instances || !MayLaunch(LogOf(w.store, run)) then w
      else With(w, id, NewInstance(w, run, turn))
    case AppendNext(id) =>
      if id !in w.instances || !w.instances[id].loaded || (w.instances[id].point == AtExecute || w.instances[id].point == Ended) then w
      else
        var i := w.instances[id];
        var (store, r) := Append(w.store, i.run, i.version, [EventAt(i)]);
        if r.Committed? then With(w, id, Booked(i, i.version)).(store := store)
        else With(w, id, i.(point := Ended))
    case Reload(id) =>
      if id !in w.instances then w
      else With(w, id, w.instances[id].(loaded := true, version := |LogOf(w.store, w.instances[id].run)|))
    case Execute(id, status) =>
      if id !in w.instances || !w.instances[id].loaded || w.instances[id].point != AtExecute || !IsOutcome(status) then w
      else
        var i := w.instances[id];
        With(w, id, i.(point := AtResult, status := status, executed := true)).(calls := w.calls + multiset{i.turn.invocation})
    case Stop(id) => if id !in w.instances then w else With(w, id, w.instances[id].(point := Ended))
    case External(run, expected, e) =>
      if MayBeExternal(e) then w.(store := Append(w.store, run, expected, [e]).0) else w
  }

  ghost function DoAll(w: World, steps: seq<Step>): World
    decreases |steps|
  {
    if steps == [] then w else Do(DoAll(w, steps[..|steps| - 1]), steps[|steps| - 1])
  }

  // ----- the invariant -----

  predicate PastDispatch(p: Point) {
    p.AtDispatched? || p.AtAttemptBudget? || p.AtExecute? || p.AtResult? || PastResult(p)
  }

  predicate PastResult(p: Point) {
    p.AtOutcome? || p.AtObserving? || p.AtFlow? || p.AtNextLifecycle? || p.AtVerdict? || p.AtFinish?
  }

  predicate AfterExecution(p: Point) { p == AtResult || PastResult(p) }

  predicate IsResultOf(e: Event, i: Id, status: ToolLifecycle) { IsResult(e, i) && e.record.status == status }

  predicate IsVerdictOn(e: Event, i: Id, accepted: bool) {
    e.Recorded? && e.record.AcceptanceDecided? && e.record.accepted == accepted && e.record.evidence == Some(i)
  }

  /** The places an instance remembers hold what it has written there. */
  predicate MarksOk(log: seq<Event>, i: Instance) {
    && (i.dispatchAt.Some? ==> i.dispatchAt.value < |log| && IsDispatch(log[i.dispatchAt.value], i.turn.invocation))
    && (i.resultAt.Some? ==> i.resultAt.value < |log| && IsResultOf(log[i.resultAt.value], i.turn.invocation, i.status))
    && (i.verdictAt.Some? ==> && i.resultAt.Some? && i.resultAt.value < i.verdictAt.value < |log|
                              && IsVerdictOn(log[i.verdictAt.value], i.turn.invocation, Accepted(i)))
  }

  /** It remembers exactly what it has got to. */
  predicate PlaceOk(i: Instance) {
    && (PastDispatch(i.point) || i.executed ==> i.dispatchAt.Some?)
    && (i.point != Ended && !AfterExecution(i.point) ==> !i.executed && i.resultAt.None?)
    && (i.point != Ended && !PastDispatch(i.point) ==> i.dispatchAt.None?)
    && (PastResult(i.point) ==> i.resultAt.Some?)
    && (i.point == AtResult ==> i.resultAt.None?)
    && (i.point == AtFinish ==> i.verdictAt.Some?)
    && (i.point != AtFinish && i.point != Ended ==> i.verdictAt.None?)
  }

  predicate InstanceOk(log: seq<Event>, i: Instance) {
    MarksOk(log, i) && PlaceOk(i) && i.version <= |log|
  }

  predicate AllInstancesOk(w: World) {
    forall id :: id in w.instances ==> InstanceOk(LogOf(w.store, w.instances[id].run), w.instances[id])
  }

  predicate SharesDispatch(a: Instance, b: Instance) {
    a.dispatchAt.Some? && a.dispatchAt == b.dispatchAt && a.run == b.run
  }

  /** Each dispatch event belongs to at most one instance. */
  predicate OwnDispatches(w: World) {
    forall a, b :: a in w.instances && b in w.instances && a != b ==> !SharesDispatch(w.instances[a], w.instances[b])
  }

  /** Every call of the executor was made by an instance that started the invocation, once. */
  ghost predicate CallsOk(w: World) {
    forall inv :: inv in w.calls ==>
      w.calls[inv] == 1 && exists id :: id in w.instances && w.instances[id].executed && w.instances[id].turn.invocation == inv
  }

  /** A SUCCEEDED transition stands after an accepted verdict that stands after a succeeded
      result, both about the same invocation. */
  ghost predicate Justified(log: seq<Event>, k: nat)
    requires k < |log|
  {
    exists inv: Id, r, v :: 0 <= r < v < k && IsResultOf(log[r], inv, ToolSucceeded) && IsVerdictOn(log[v], inv, true)
  }

  predicate IsSuccess(e: Event) { e.RunTransition? && e.target == Succeeded }

  ghost predicate SuccessesJustified(store: Store) {
    forall run, k :: run in store && 0 <= k < |store[run]| && IsSuccess(store[run][k]) ==> Justified(store[run], k)
  }

  ghost predicate WorldOk(w: World) {
    StoreOk(w.store) && AllInstancesOk(w) && OwnDispatches(w) && CallsOk(w) && SuccessesJustified(w.store)
  }

  // ----- every step keeps it -----

  lemma LogGrows(log: seq<Event>, e: Event, i: Instance)
    requires InstanceOk(log, i)
    ensures InstanceOk(log + [e], i)
  {
  }

  lemma BookedPlace(i: Instance, at: nat)
    requires PlaceOk(i) && i.point != AtExecute && i.point != Ended
    ensures PlaceOk(Booked(i, at))
  {
  }

  lemma BookedOk(log: seq<Event>, i: Instance)
    requires InstanceOk(log, i) && i.version == |log| && i.point != AtExecute && i.point != Ended
    ensures InstanceOk(log + [EventAt(i)], Booked(i, |log|))
  {
    BookedPlace(i, |log|);
    hide Next;
  }

  lemma JustifiedGrows(log: seq<Event>, e: Event, k: nat)
    requires k < |log| && Justified(log, k)
    ensures Justified(log + [e], k)
  {
    var inv: Id, r, v :| 0 <= r < v < k && IsResultOf(log[r], inv, ToolSucceeded) && IsVerdictOn(log[v], inv, true);
    var longer := log + [e];
    assert longer[r] == log[r] && longer[v] == log[v];
  }

  lemma AppendKeepsJustified(store: Store, run: string, expected: nat, e: Event)
    requires SuccessesJustified(store)
    requires IsSuccess(e) ==> Justified(LogOf(store, run) + [e], |LogOf(store, run)|)
    ensures SuccessesJustified(Append(store, run, expected, [e]).0)
  {
    var s1 := Append(store, run, expected, [e]).0;
    forall q, k | q in s1 && 0 <= k < |s1[q]| && IsSuccess(s1[q][k])
      ensures Justified(s1[q], k)
    {
      if s1 != store && q == run && k < |LogOf(store, run)| { JustifiedGrows(store[run], e, k); }
    }
  }

  lemma FinishIsJustified(log: seq<Event>, i: Instance)
    requires InstanceOk(log, i) && i.point == AtFinish
    ensures IsSuccess(EventAt(i)) ==> Justified(log + [EventAt(i)], |log|)
  {
    if Accepted(i) {
      var longer := log + [EventAt(i)];
      var r, v := i.resultAt.value, i.verdictAt.value;
      assert IsResultOf(longer[r], i.turn.invocation, ToolSucceeded) && IsVerdictOn(longer[v], i.turn.invocation, true);
    }
  }

  lemma AppendShape(store: Store, run: string, expected: nat, e: Event, q: string)
    ensures var (s1, r) := Append(store, run, expected, [e]);
            && (r.Committed? ==> |LogOf(store, run)| == expected)
            && LogOf(s1, q) == if r.Committed? && q == run then LogOf(store, run) + [e] else LogOf(store, q)
  {
  }

  lemma OneGrows(store: Store, run: string, expected: nat, e: Event, i: Instance)
    requires InstanceOk(LogOf(store, i.run), i)
    ensures InstanceOk(LogOf(Append(store, run, expected, [e]).0, i.run), i)
  {
    AppendShape(store, run, expected, e, i.run);
    LogGrows(LogOf(store, i.run), e, i);
  }

  /** When the store grows, the instances that did not write keep their place. */
  lemma OthersGrow(w: World, run: string, expected: nat, e: Event, w1: World, id: nat)
    requires AllInstancesOk(w) && w1.store == Append(w.store, run, expected, [e]).0
    requires id in w1.instances && InstanceOk(LogOf(w1.store, w1.instances[id].run), w1.instances[id])
    requires w1.instances == w.instances[id := w1.instances[id]]
    ensures AllInstancesOk(w1)
  {
    forall j | j in w1.instances
      ensures InstanceOk(LogOf(w1.store, w1.instances[j].run), w1.instances[j])
    {
      if j != id { OneGrows(w.store, run, expected, e, w.instances[j]); }
    }
  }

  lemma ExternalOk(w: World, run: string, expected: nat, e: Event)
    requires WorldOk(w) && MayBeExternal(e)
    ensures WorldOk(w.(store := Append(w.store, run, expected, [e]).0))
  {
    AppendKeepsStore(w.store, run, expected, [e]);
    AppendKeepsJustified(w.store, run, expected, e);
    forall j | j in w.instances
      ensures InstanceOk(LogOf(Append(w.store, run, expected, [e]).0, w.instances[j].run), w.instances[j])
    {
      OneGrows(w.store, run, expected, e, w.instances[j]);
    }
  }

  lemma OwnDispatchesWith(w: World, w1: World, id: nat)
    requires OwnDispatches(w) && id in w1.instances && w1.instances == w.instances[id := w1.instances[id]]
    requires forall j :: j in w.instances && j != id ==>
               !SharesDispatch(w1.instances[id], w.instances[j]) && !SharesDispatch(w.instances[j], w1.instances[id])
    ensures OwnDispatches(w1)
  {
  }

  lemma CallsKept(w: World, w1: World, id: nat)
    requires CallsOk(w) && w1.calls == w.calls && id in w1.instances && w1.instances == w.instances[id := w1.instances[id]]
    requires id in w.instances ==> w1.instances[id].executed == w.instances[id].executed && w1.instances[id].turn == w.instances[id].turn
    ensures CallsOk(w1)
  {
    forall inv | inv in w1.calls
      ensures w1.calls[inv] == 1 && exists j :: j in w1.instances && w1.instances[j].executed && w1.instances[j].turn.invocation == inv
    {
      var j :| j in w.instances && w.instances[j].executed && w.instances[j].turn.invocation == inv;
      assert j in w1.instances && w1.instances[j].executed && w1.instances[j].turn.invocation == inv;
    }
  }

  /** A dispatch that lands at the end of a log is nobody else's. */
  lemma NewDispatchIsOwn(w: World, id: nat, i: Instance)
    requires AllInstancesOk(w) && OwnDispatches(w) && id in w.instances && i.run == w.instances[id].run
    requires i.dispatchAt == w.instances[id].dispatchAt || i.dispatchAt == Some(|LogOf(w.store, i.run)|)
    ensures forall j :: j in w.instances && j != id ==> !SharesDispatch(i, w.instances[j]) && !SharesDispatch(w.instances[j], i)
  {
    forall j | j in w.instances && j != id
      ensures !SharesDispatch(i, w.instances[j]) && !SharesDispatch(w.instances[j], i)
    {
      assert InstanceOk(LogOf(w.store, w.instances[j].run), w.instances[j]);
      assert !SharesDispatch(w.instances[id], w.instances[j]) && !SharesDispatch(w.instances[j], w.instances[id]);
    }
  }

  lemma SuccessOnlyAtFinish(i: Instance)
    requires i.point != AtExecute && i.point != Ended
    ensures IsSuccess(EventAt(i)) ==> i.point == AtFinish
  {
  }

  lemma AppendNextOk(w: World, id: nat)
    requires WorldOk(w) && id in w.instances && w.instances[id].loaded && w.instances[id].point != AtExecute && w.instances[id].point != Ended
    requires Append(w.store, w.instances[id].run, w.instances[id].version, [EventAt(w.instances[id])]).1.Committed?
    ensures WorldOk(Do(w, AppendNext(id)))
  {
    hide InstanceOk;
    hide EventAt;
    hide Append;
    hide CallsOk;
    hide OwnDispatches;
    hide SuccessesJustified;
    hide StoreOk;
    hide Next;
    var i := w.instances[id];
    var e := EventAt(i);
    var w1 := Do(w, AppendNext(id));
    var log := LogOf(w.store, i.run);
    AppendShape(w.store, i.run, i.version, e, i.run);
    assert InstanceOk(log, i);
    BookedOk(log, i);
    OthersGrow(w, i.run, i.version, e, w1, id);
    AppendKeepsStore(w.store, i.run, i.version, [e]);
    SuccessOnlyAtFinish(i);
    if i.point == AtFinish { FinishIsJustified(log, i); }
    AppendKeepsJustified(w.store, i.run, i.version, e);
    NewDispatchIsOwn(w, id, Booked(i, i.version));
    OwnDispatchesWith(w, w1, id);
    CallsKept(w, w1, id);
  }

  /** Replacing one instance while nothing is written. */
  lemma ReplaceOk(w: World, id: nat, i: Instance)
    requires WorldOk(w) && InstanceOk(LogOf(w.store, i.run), i)
    requires if id in w.instances
             then i.run == w.instances[id].run && i.dispatchAt == w.instances[id].dispatchAt
                  && i.executed == w.instances[id].executed && i.turn == w.instances[id].turn
             else i.dispatchAt.None?
    ensures WorldOk(With(w, id, i))
  {
    var w1 := With(w, id, i);
    CallsKept(w, w1, id);
    if id in w.instances { NewDispatchIsOwn(w, id, i); }
    OwnDispatchesWith(w, w1, id);
  }

  /** The executor has not been called for this invocation: whoever called it would have
      started the same invocation in a second place. */
  lemma NotYetCalled(w: World, id: nat)
    requires WorldOk(w) && id in w.instances && w.instances[id].point == AtExecute
    ensures w.instances[id].turn.invocation !in w.calls
  {
    var i := w.instances[id];
    assert InstanceOk(LogOf(w.store, i.run), i);
    var inv := i.turn.invocation;
    if inv in w.calls {
      var j :| j in w.instances && w.instances[j].executed && w.instances[j].turn.invocation == inv;
      var other := w.instances[j];
      assert InstanceOk(LogOf(w.store, other.run), other);
      DispatchedInOnePlace(w.store, inv, i.run, i.dispatchAt.value, other.run, other.dispatchAt.value);
      assert SharesDispatch(i, other);
      assert false;
    }
  }

  lemma CallsAdded(w: World, w1: World, id: nat)
    requires CallsOk(w) && id in w1.instances && w1.instances == w.instances[id := w1.instances[id]] && w1.instances[id].executed
    requires id in w.instances ==> w1.instances[id].turn == w.instances[id].turn
    requires w1.instances[id].turn.invocation !in w.calls && w1.calls == w.calls + multiset{w1.instances[id].turn.invocation}
    ensures CallsOk(w1)
  {
    forall inv | inv in w1.calls
      ensures w1.calls[inv] == 1 && exists j :: j in w1.instances && w1.instances[j].executed && w1.instances[j].turn.invocation == inv
    {
      if inv == w1.instances[id].turn.invocation {
        assert id in w1.instances && w1.instances[id].executed;
      } else {
        var j :| j in w.instances && w.instances[j].executed && w.instances[j].turn.invocation == inv;
        assert j in w1.instances && w1.instances[j].executed && w1.instances[j].turn.invocation == inv;
      }
    }
  }

  lemma ExecuteOk(w: World, id: nat, status: ToolLifecycle)
    requires WorldOk(w) && id in w.instances && w.instances[id].loaded && w.instances[id].point == AtExecute && IsOutcome(status)
    ensures WorldOk(Do(w, Execute(id, status)))
  {
    hide StoreOk;
    hide SuccessesJustified;
    hide CallsOk;
    hide OwnDispatches;
    NotYetCalled(w, id);
    var i := w.instances[id];
    assert InstanceOk(LogOf(w.store, i.run), i);
    var w1 := Do(w, Execute(id, status));
    CallsAdded(w, w1, id);
    NewDispatchIsOwn(w, id, w1.instances[id]);
    OwnDispatchesWith(w, w1, id);
  }

  lemma LaunchOk(w: World, id: nat, run: string, turn: Turn)
    requires WorldOk(w) && id !in w.instances
    ensures WorldOk(With(w, id, NewInstance(w, run, turn)))
  {
    ReplaceOk(w, id, NewInstance(w, run, turn));
  }

  lemma ReloadOk(w: World, id: nat)
    requires WorldOk(w) && id in w.instances
    ensures WorldOk(With(w, id, w.instances[id].(loaded := true, version := |LogOf(w.store, w.instances[id].run)|)))
  {
    assert InstanceOk(LogOf(w.store, w.instances[id].run), w.instances[id]);
    ReplaceOk(w, id, w.instances[id].(loaded := true, version := |LogOf(w.store, w.instances[id].run)|));
  }

  /** An instance may stop anywhere. */
  lemma StopOk(w: World, id: nat)
    requires WorldOk(w) && id in w.instances
    ensures WorldOk(With(w, id, w.instances[id].(point := Ended)))
  {
    assert InstanceOk(LogOf(w.store, w.instances[id].run), w.instances[id]);
    ReplaceOk(w, id, w.instances[id].(point := Ended));
  }

  lemma DoOk(w: World, step: Step)
    requires WorldOk(w)
    ensures WorldOk(Do(w, step))
  {
    hide WorldOk;
    hide Append;
    hide EventAt;
    match step
    case Launch(id, run, turn) =>
      if id !in w.instances && MayLaunch(LogOf(w.store, run)) { LaunchOk(w, id, run, turn); }
    case AppendNext(id) =>
      if id in w.instances && w.instances[id].loaded && w.instances[id].point != AtExecute && w.instances[id].point != Ended {
        var i := w.instances[id];
        if Append(w.store, i.run, i.version, [EventAt(i)]).1.Committed? { AppendNextOk(w, id); } else { StopOk(w, id); }
      }
    case Reload(id) => if id in w.instances { ReloadOk(w, id); }
    case Execute(id, status) =>
      if id in w.instances && w.instances[id].loaded && w.instances[id].point == AtExecute && IsOutcome(status) { ExecuteOk(w, id, status); }
    case Stop(id) => if id in w.instances { StopOk(w, id); }
    case External(run, expected, e) => if MayBeExternal(e) { ExternalOk(w, run, expected, e); }
  }

  const Genesis := World(map[], map[], multiset{})

  lemma {:induction false} ReachedOk(steps: seq<Step>)
    ensures WorldOk(DoAll(Genesis, steps))
    decreases |steps|
  {
    if steps != [] {
      ReachedOk(steps[..|steps| - 1]);
      DoOk(DoAll(Genesis, steps[..|steps| - 1]), steps[|steps| - 1]);
    }
  }

  // ----- the main results -----

  /** However instances of any number of services interleave and wherever they stop, the
      executor is called at most once for an invocation. */
  lemma AtMostOnce(steps: seq<Step>, invocation: Id)
    ensures DoAll(Genesis, steps).calls[invocation] <= 1
  {
    ReachedOk(steps);
  }

  /** A run is logged as succeeded only after an accepted verdict that follows a succeeded
      result for the same invocation. */
  lemma SuccessIsEarned(steps: seq<Step>, run: string, k: nat)
    requires var store := DoAll(Genesis, steps).store; run in store && k < |store[run]| && IsSuccess(store[run][k])
    ensures Justified(DoAll(Genesis, steps).store[run], k)
  {
    ReachedOk(steps);
  }

  datatype Recovery = ReconcileOnly | SafeRetry | TerminalOrPaused

  function Recover(s: RunState): Recovery {
    if s.dispatched - s.results != {} then ReconcileOnly
    else if s.lifecycle == Deciding || s.lifecycle == Ready then SafeRetry
    else TerminalOrPaused
  }

  /** Unless recovery answers reconcile_only, every execution ever started for the run has its
      result in the log: nothing is in flight that a retry could repeat. */
  lemma RecoveryIsSafe(steps: seq<Step>, run: string, id: nat)
    requires var w := DoAll(Genesis, steps);
             run in w.store && id in w.instances && w.instances[id].run == run && w.instances[id].executed
    ensures var w := DoAll(Genesis, steps);
            && Legal(w.store[run])
            && (Recover(Replay(w.store[run]).value) != ReconcileOnly ==>
                  exists k :: 0 <= k < |w.store[run]| && IsResult(w.store[run][k], w.instances[id].turn.invocation))
  {
    hide DoAll;
    hide StoreOk;
    hide OwnDispatches;
    hide CallsOk;
    hide SuccessesJustified;
    ReachedOk(steps);
    var w := DoAll(Genesis, steps);
    var i := w.instances[id];
    assert InstanceOk(LogOf(w.store, run), i);
    LegalInStore(w.store, run);
    ExecutedHasResult(w.store[run], i);
  }

  lemma LegalInStore(store: Store, run: string)
    requires StoreOk(store) && run in store
    ensures Legal(store[run])
  {
  }

  lemma ExecutedHasResult(log: seq<Event>, i: Instance)
    requires Legal(log) && InstanceOk(log, i) && i.executed
    ensures Recover(Replay(log).value) != ReconcileOnly ==>
              exists k :: 0 <= k < |log| && IsResult(log[k], i.turn.invocation)
  {
    hide Replay;
    StateMirrorsLog(log, i.turn.invocation);
    assert Contains(log, i.turn.invocation, 1);
    var s := Replay(log).value;
    if Recover(s) != ReconcileOnly {
      assert i.turn.invocation !in s.dispatched - s.results;
      assert Contains(log, i.turn.invocation, 2);
    }
  }
}
