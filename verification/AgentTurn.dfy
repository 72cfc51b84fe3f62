/** What a turn writes, and when it may call the executor. Each instance appends its turn's
    script, line by line and nothing else; the executor is called, and a dispatch is recorded,
    only for a call that the permission gate allowed. */
module AgentTurn {
  import opened Basics
  import opened AgentLog
  import opened AgentProtocol

  // ----- the script of a turn -----

  /** A line of the script: a record, whose identifier comes from its place in the log, or a
      plain event. */
  datatype Line = Keep(record: Record) | Plain(event: Event)

  function Written(run: string, line: Line, at: nat): Event {
    match line
    case Keep(r) => Recorded(Hash("rec", run, [], at + 1), true, r)
    case Plain(e) => e
  }

  function Spend(run: string, name: Namespace, what: string, c: Category, amount: nat): Line {
    Plain(BudgetConsumed(BudgetHash(run, name, what), c, amount, false))
  }

  /** Every turn first records the inference, pays for it and records the decision. */
  function Opening(run: string, t: Turn): seq<Line> {
    [Keep(InferenceCompleted), Spend(run, Named(t.turnId), "turns", Turns, 1)]
    + (if t.tokens > 0 then [Spend(run, Named(t.attemptId), "inference_tokens", InferenceTokens, t.tokens)] else [])
    + (if t.ms > 0 then [Spend(run, Named(t.attemptId), "inference_ms", InferenceMs, t.ms)] else [])
    + [Keep(DecisionRecorded)]
  }

  /** A tool call up to the permission gate's answer. */
  function Asking(t: Turn): seq<Line> {
    [Plain(RunTransition(WaitingTool, false)), Plain(ToolProposed(t.invocation, t.actionId)),
     Keep(ArgumentsCompiled(t.invocation)), Plain(ToolTransition(t.invocation, ArgsReady)),
     Keep(AuthorizationRecorded(t.invocation, t.idempotency))]
  }

  function Refusing(t: Turn): seq<Line>
    requires t.permission != Allow
  {
    [Plain(ToolTransition(t.invocation, match t.permission case Deny => Denied case RequireApproval => WaitingApproval))]
  }

  /** An allowed call, up to the point where the executor is called. */
  function Dispatching(run: string, t: Turn): seq<Line> {
    [Plain(ToolTransition(t.invocation, Authorized)),
     Spend(run, Invocation(t.invocation), "tool_calls", ToolCalls, 1),
     Keep(DispatchStarted(t.invocation)), Plain(ToolTransition(t.invocation, Dispatched)),
     Spend(run, Invocation(t.invocation), "tool_attempts", ToolAttempts, 1)]
  }

  /** What follows the executor's answer. */
  function Concluding(t: Turn, status: ToolLifecycle): seq<Line> {
    var common := [Keep(ResultRecorded(t.invocation, status)), Plain(ToolTransition(t.invocation, status)),
                   Plain(RunTransition(Observing, false)), Keep(FlowDecided)];
    if status == UnknownOutcome then common + [Plain(RunTransition(Paused, false))]
    else if status == ToolFailed then common + [Plain(RunTransition(Deciding, false))]
    else
      var good := status == ToolSucceeded && t.evidence;
      common + [Plain(RunTransition(Verifying, false)), Keep(AcceptanceDecided(good, true, Some(t.invocation))),
                Plain(RunTransition(if good then Succeeded else Blocked, true))]
  }

  function Before(run: string, t: Turn): seq<Line> { Opening(run, t) + Asking(t) + Dispatching(run, t) }

  function Script(run: string, t: Turn, status: ToolLifecycle): seq<Line> {
    match t.action
    case AskUser => Opening(run, t) + [Plain(RunTransition(WaitingUser, false))]
    case ProposeBlocked => Opening(run, t) + [Plain(RunTransition(Blocked, false))]
    case Submit =>
      Opening(run, t) + [Keep(AcceptanceDecided(false, true, None)), Plain(RunTransition(Blocked, true))]
    case CallTool =>
      if t.permission != Allow then Opening(run, t) + Asking(t) + Refusing(t)
      else Before(run, t) + Concluding(t, status)
  }

  /** The line an instance is at. */
  function LineOf(t: Turn, p: Point): nat {
    var o := 3 + (if t.tokens > 0 then 1 else 0) + (if t.ms > 0 then 1 else 0);
    match p
    case AtInference => 0
    case AtTurnBudget => 1
    case AtTokenBudget => 2
    case AtMsBudget => o - 2
    case AtDecision => o - 1
    case AtAskUser => o
    case AtBlocked => o
    case AtSubmitVerdict => o
    case AtSubmitBlocked => o + 1
    case AtWaitingTool => o
    case AtProposal => o + 1
    case AtArguments => o + 2
    case AtArgsReady => o + 3
    case AtAuthorization => o + 4
    case AtRefusal => o + 5
    case AtAuthorized => o + 5
    case AtCallBudget => o + 6
    case AtDispatch => o + 7
    case AtDispatched => o + 8
    case AtAttemptBudget => o + 9
    case AtExecute => o + 10
    case AtResult => o + 10
    case AtOutcome => o + 11
    case AtObserving => o + 12
    case AtFlow => o + 13
    case AtNextLifecycle => o + 14
    case AtVerdict => o + 15
    case AtFinish => o + 16
    case Ended => 0
  }

  /** Points a turn can be at. */
  predicate Visits(t: Turn, status: ToolLifecycle, p: Point) {
    match p
    case AtInference => true
    case AtTurnBudget => true
    case AtTokenBudget => t.tokens > 0
    case AtMsBudget => t.ms > 0
    case AtDecision => true
    case AtAskUser => t.action == AskUser
    case AtBlocked => t.action == ProposeBlocked
    case AtSubmitVerdict => t.action == Submit
    case AtSubmitBlocked => t.action == Submit
    case AtRefusal => t.action == CallTool && t.permission != Allow
    case AtWaitingTool => t.action == CallTool
    case AtProposal => t.action == CallTool
    case AtArguments => t.action == CallTool
    case AtArgsReady => t.action == CallTool
    case AtAuthorization => t.action == CallTool
    case AtVerdict => t.action == CallTool && t.permission == Allow && status != UnknownOutcome && status != ToolFailed
    case AtFinish => t.action == CallTool && t.permission == Allow && status != UnknownOutcome && status != ToolFailed
    case _ => t.action == CallTool && t.permission == Allow
  }

  function OpeningLength(t: Turn): nat { 3 + (if t.tokens > 0 then 1 else 0) + (if t.ms > 0 then 1 else 0) }

  lemma OpeningLine(i: Instance)
    requires Visits(i.turn, i.status, i.point)
    ensures |Opening(i.run, i.turn)| == OpeningLength(i.turn)
    ensures i.point in {AtInference, AtTurnBudget, AtTokenBudget, AtMsBudget, AtDecision} ==>
              && LineOf(i.turn, i.point) < OpeningLength(i.turn)
              && EventAt(i) == Written(i.run, Opening(i.run, i.turn)[LineOf(i.turn, i.point)], i.version)
  {
  }

  lemma AskingLine(i: Instance)
    requires i.point in {AtWaitingTool, AtProposal, AtArguments, AtArgsReady, AtAuthorization}
    ensures var k := LineOf(i.turn, i.point) - OpeningLength(i.turn);
            0 <= k < 5 == |Asking(i.turn)| && EventAt(i) == Written(i.run, Asking(i.turn)[k], i.version)
  {
  }

  lemma DispatchingLine(i: Instance)
    requires i.point in {AtAuthorized, AtCallBudget, AtDispatch, AtDispatched, AtAttemptBudget}
    ensures var k := LineOf(i.turn, i.point) - OpeningLength(i.turn) - 5;
            0 <= k < 5 == |Dispatching(i.run, i.turn)| && EventAt(i) == Written(i.run, Dispatching(i.run, i.turn)[k], i.version)
  {
  }

  lemma ConcludingLine(i: Instance)
    requires i.point in {AtResult, AtOutcome, AtObserving, AtFlow, AtNextLifecycle, AtVerdict, AtFinish}
    requires Visits(i.turn, i.status, i.point)
    ensures var k := LineOf(i.turn, i.point) - OpeningLength(i.turn) - 10;
            0 <= k < |Concluding(i.turn, i.status)|
            && EventAt(i) == Written(i.run, Concluding(i.turn, i.status)[k], i.version)
  {
  }

  lemma EndingLine(i: Instance)
    requires Visits(i.turn, i.status, i.point) && i.point in {AtAskUser, AtBlocked, AtSubmitVerdict, AtSubmitBlocked}
    ensures var script := Script(i.run, i.turn, i.status);
            |Opening(i.run, i.turn)| == OpeningLength(i.turn) <= LineOf(i.turn, i.point) < |script|
            && EventAt(i) == Written(i.run, script[LineOf(i.turn, i.point)], i.version)
  {
    hide Opening;
    OpeningLine(i.(point := AtInference));
  }

  /** The event an instance appends is the line of the script it is at. */
  lemma AtItsLine(i: Instance)
    requires Visits(i.turn, i.status, i.point) && i.point != AtExecute && i.point != Ended
    ensures LineOf(i.turn, i.point) < |Script(i.run, i.turn, i.status)|
    ensures EventAt(i) == Written(i.run, Script(i.run, i.turn, i.status)[LineOf(i.turn, i.point)], i.version)
  {
    hide Opening;
    hide Asking;
    hide Dispatching;
    hide Concluding;
    hide EventAt;
    hide Written;
    var t := i.turn;
    var o := OpeningLength(t);
    OpeningLine(i);
    if i.point in {AtAskUser, AtBlocked, AtSubmitVerdict, AtSubmitBlocked} {
      EndingLine(i);
    } else if i.point in {AtWaitingTool, AtProposal, AtArguments, AtArgsReady, AtAuthorization} {
      AskingLine(i);
    } else if i.point in {AtAuthorized, AtCallBudget, AtDispatch, AtDispatched, AtAttemptBudget} {
      AskingLine(i.(point := AtProposal));
      DispatchingLine(i);
    } else if i.point in {AtResult, AtOutcome, AtObserving, AtFlow, AtNextLifecycle, AtVerdict, AtFinish} {
      AskingLine(i.(point := AtProposal));
      DispatchingLine(i.(point := AtDispatch));
      ConcludingLine(i);
    } else if i.point == AtRefusal {
      AskingLine(i.(point := AtProposal));
      RefusingLine(i);
    }
  }

  lemma RefusingLine(i: Instance)
    requires i.point == AtRefusal && i.turn.permission != Allow
    ensures EventAt(i) == Written(i.run, Refusing(i.turn)[0], i.version)
  {
  }

  // ----- what an instance has written -----

  /** What it has appended are the first lines of its script, in order, where it remembers. */
  predicate Wrote(log: seq<Event>, run: string, script: seq<Line>, marks: seq<nat>) {
    && |marks| <= |script|
    && (forall k :: 0 <= k < |marks| ==> marks[k] < |log| && log[marks[k]] == Written(run, script[k], marks[k]))
    && (forall j, k :: 0 <= j < k < |marks| ==> marks[j] < marks[k])
  }

  /** Lines of the script before the executor is called. */
  function Due(t: Turn): nat { OpeningLength(t) + 10 }

  predicate MayCall(t: Turn) { t.action == CallTool && t.permission == Allow }

  predicate Placed(i: Instance) {
    && (i.point != Ended ==> Visits(i.turn, i.status, i.point) && |i.marks| == LineOf(i.turn, i.point))
    && (i.executed ==> MayCall(i.turn) && |i.marks| >= Due(i.turn))
    && (MayCall(i.turn) && |i.marks| > Due(i.turn) ==> i.executed)
    && (i.point != Ended ==> (AfterExecution(i.point) <==> i.executed))
  }

  predicate TurnOk(log: seq<Event>, i: Instance) {
    Wrote(log, i.run, Script(i.run, i.turn, i.status), i.marks) && Placed(i)
  }

  predicate AllTurnsOk(w: World) {
    forall id :: id in w.instances ==> TurnOk(LogOf(w.store, w.instances[id].run), w.instances[id])
  }

  /** After an append the instance is at the next line of its script. */
  lemma NextLine(i: Instance, at: nat)
    requires Placed(i) && i.point != AtExecute && i.point != Ended
    ensures Placed(Booked(i, at))
  {
  }

  lemma BookedTurn(log: seq<Event>, i: Instance)
    requires TurnOk(log, i) && i.version == |log| && i.point != AtExecute && i.point != Ended
    ensures TurnOk(log + [EventAt(i)], Booked(i, |log|))
  {
    hide Script;
    hide Written;
    hide EventAt;
    hide Next;
    hide LineOf;
    hide Visits;
    NextLine(i, |log|);
    AtItsLine(i);
    var longer := log + [EventAt(i)];
    assert forall k :: 0 <= k < |log| ==> longer[k] == log[k];
  }

  lemma TurnLogGrows(log: seq<Event>, e: Event, i: Instance)
    requires TurnOk(log, i)
    ensures TurnOk(log + [e], i)
  {
    hide Script;
    hide Placed;
    hide Written;
  }

  /** The executor's answer changes only the lines after it. */
  lemma AnswerComesLater(run: string, t: Turn, a: ToolLifecycle, b: ToolLifecycle)
    requires MayCall(t)
    ensures |Before(run, t)| == Due(t) && Due(t) < |Script(run, t, b)|
    ensures Script(run, t, a)[..Due(t)] == Script(run, t, b)[..Due(t)] == Before(run, t)
  {
    assert (Before(run, t) + Concluding(t, a))[..Due(t)] == Before(run, t);
    assert (Before(run, t) + Concluding(t, b))[..Due(t)] == Before(run, t);
  }

  lemma ExecutedTurn(log: seq<Event>, i: Instance, status: ToolLifecycle)
    requires TurnOk(log, i) && i.point == AtExecute
    ensures TurnOk(log, i.(point := AtResult, status := status, executed := true))
  {
    hide Script;
    hide Written;
    AnswerComesLater(i.run, i.turn, i.status, status);
    var old_, new_ := Script(i.run, i.turn, i.status), Script(i.run, i.turn, status);
    assert forall k :: 0 <= k < Due(i.turn) ==> old_[..Due(i.turn)][k] == old_[k] && new_[..Due(i.turn)][k] == new_[k];
  }

  // ----- every step keeps it -----

  lemma OneTurnGrows(store: Store, run: string, expected: nat, e: Event, i: Instance)
    requires TurnOk(LogOf(store, i.run), i)
    ensures TurnOk(LogOf(Append(store, run, expected, [e]).0, i.run), i)
  {
    hide TurnOk;
    hide Append;
    AppendShape(store, run, expected, e, i.run);
    TurnLogGrows(LogOf(store, i.run), e, i);
  }

  lemma ReplacedTurn(w: World, id: nat, i: Instance)
    requires AllTurnsOk(w) && TurnOk(LogOf(w.store, i.run), i)
    ensures AllTurnsOk(With(w, id, i))
  {
    hide TurnOk;
  }

  lemma NewTurn(w: World, run: string, turn: Turn)
    ensures TurnOk(LogOf(w.store, run), NewInstance(w, run, turn))
  {
  }

  lemma AppendTurn(w: World, id: nat)
    requires AllTurnsOk(w) && id in w.instances && w.instances[id].loaded && w.instances[id].point != AtExecute && w.instances[id].point != Ended
    requires Append(w.store, w.instances[id].run, w.instances[id].version, [EventAt(w.instances[id])]).1.Committed?
    ensures AllTurnsOk(Do(w, AppendNext(id)))
  {
    hide TurnOk;
    hide EventAt;
    hide Append;
    var i := w.instances[id];
    assert Booked(i, i.version).run == i.run;
    hide Booked;
    var w1 := Do(w, AppendNext(id));
    assert TurnOk(LogOf(w.store, i.run), i);
    AppendShape(w.store, i.run, i.version, EventAt(i), i.run);
    BookedTurn(LogOf(w.store, i.run), i);
    forall j | j in w1.instances
      ensures TurnOk(LogOf(w1.store, w1.instances[j].run), w1.instances[j])
    {
      if j != id { OneTurnGrows(w.store, i.run, i.version, EventAt(i), w.instances[j]); }
    }
  }

  lemma StoppedTurn(log: seq<Event>, i: Instance)
    requires TurnOk(log, i)
    ensures TurnOk(log, i.(point := Ended))
    ensures forall n :: TurnOk(log, i.(loaded := true, version := n))
  {
    hide Script;
    hide Written;
  }

  lemma DoTurn(w: World, step: Step)
    requires AllTurnsOk(w)
    ensures AllTurnsOk(Do(w, step))
  {
    hide TurnOk;
    hide EventAt;
    hide Append;
    match step
    case Launch(id, run, turn) =>
      NewTurn(w, run, turn);
      if id !in w.instances { ReplacedTurn(w, id, NewInstance(w, run, turn)); }
    case AppendNext(id) =>
      if id in w.instances && w.instances[id].loaded && w.instances[id].point != AtExecute && w.instances[id].point != Ended {
        var i := w.instances[id];
        StoppedTurn(LogOf(w.store, i.run), i);
        if Append(w.store, i.run, i.version, [EventAt(i)]).1.Committed? { AppendTurn(w, id); }
        else { ReplacedTurn(w, id, i.(point := Ended)); }
      }
    case Reload(id) =>
      if id in w.instances {
        StoppedTurn(LogOf(w.store, w.instances[id].run), w.instances[id]);
        ReplacedTurn(w, id, w.instances[id].(loaded := true, version := |LogOf(w.store, w.instances[id].run)|));
      }
    case Execute(id, status) =>
      if id in w.instances && w.instances[id].point == AtExecute {
        ExecutedTurn(LogOf(w.store, w.instances[id].run), w.instances[id], status);
        ReplacedTurn(w, id, w.instances[id].(point := AtResult, status := status, executed := true));
      }
    case Stop(id) =>
      if id in w.instances {
        StoppedTurn(LogOf(w.store, w.instances[id].run), w.instances[id]);
        ReplacedTurn(w, id, w.instances[id].(point := Ended));
      }
    case External(run, expected, e) =>
      forall j | j in w.instances
        ensures TurnOk(LogOf(Append(w.store, run, expected, [e]).0, w.instances[j].run), w.instances[j])
      {
        OneTurnGrows(w.store, run, expected, e, w.instances[j]);
      }
  }

  /** In every reached world each instance has appended exactly the first lines of its turn's
      script, in the log's order, and it has called the executor only at its place in the
      script of an allowed call. */
  lemma {:induction false} TurnsFollowScript(steps: seq<Step>)
    ensures AllTurnsOk(DoAll(Genesis, steps))
    decreases |steps|
  {
    hide TurnOk;
    if steps != [] {
      TurnsFollowScript(steps[..|steps| - 1]);
      DoTurn(DoAll(Genesis, steps[..|steps| - 1]), steps[|steps| - 1]);
    }
  }

  // ----- who wrote a record -----

  predicate WroteAt(w: World, id: nat, run: string, k: nat) {
    id in w.instances && w.instances[id].run == run && k in w.instances[id].marks
  }

  ghost predicate HasWriter(w: World, run: string, k: nat) { exists id :: WroteAt(w, id, run, k) }

  /** Every record in the store is a line of some instance. */
  ghost predicate RecordsHaveWriters(w: World) {
    forall run, k :: run in w.store && 0 <= k < |w.store[run]| && w.store[run][k].Recorded? ==> HasWriter(w, run, k)
  }

  /** Instances are kept with their run, and their marks only grow. */
  predicate MarksGrow(w: World, w1: World) {
    forall id :: id in w.instances ==>
      && id in w1.instances && w1.instances[id].run == w.instances[id].run
      && (forall k :: k in w.instances[id].marks ==> k in w1.instances[id].marks)
  }

  lemma WritersStay(w: World, w1: World, run: string, k: nat)
    requires MarksGrow(w, w1) && HasWriter(w, run, k)
    ensures HasWriter(w1, run, k)
  {
    var id :| WroteAt(w, id, run, k);
    assert WroteAt(w1, id, run, k);
  }

  lemma MarksOnlyGrow(w: World, step: Step)
    ensures MarksGrow(w, Do(w, step))
  {
    hide Append;
    hide EventAt;
    hide Next;
    hide Replay;
  }

  lemma AppendedRecord(w: World, step: Step, run: string, k: nat)
    requires RecordsHaveWriters(w)
    requires var s1 := Do(w, step).store; run in s1 && k < |s1[run]| && s1[run][k].Recorded?
    ensures HasWriter(Do(w, step), run, k)
  {
    hide Append;
    hide EventAt;
    hide Next;
    hide Replay;
    MarksOnlyGrow(w, step);
    var w1 := Do(w, step);
    match step
    case AppendNext(id) =>
      if w1.store != w.store {
        var i := w.instances[id];
        AppendShape(w.store, i.run, i.version, EventAt(i), run);
        assert LogOf(w1.store, run) == w1.store[run];
        if run == i.run && k == i.version {
          assert WroteAt(w1, id, run, k);
        } else {
          assert LogOf(w.store, run)[k] == w1.store[run][k];
          WritersStay(w, w1, run, k);
        }
      } else {
        WritersStay(w, w1, run, k);
      }
    case External(q, expected, e) =>
      AppendShape(w.store, q, expected, e, run);
      assert LogOf(w1.store, run) == w1.store[run];
      assert k < |LogOf(w.store, run)| && LogOf(w.store, run)[k] == w1.store[run][k];
      WritersStay(w, w1, run, k);
    case _ => WritersStay(w, w1, run, k);
  }

  /** However instances interleave, every record of the store is a line of some instance. */
  lemma {:induction false} WritersKnown(steps: seq<Step>)
    ensures RecordsHaveWriters(DoAll(Genesis, steps))
    decreases |steps|
  {
    if steps != [] {
      var w, step := DoAll(Genesis, steps[..|steps| - 1]), steps[|steps| - 1];
      WritersKnown(steps[..|steps| - 1]);
      forall run, k | run in Do(w, step).store && 0 <= k < |Do(w, step).store[run]| && Do(w, step).store[run][k].Recorded?
        ensures HasWriter(Do(w, step), run, k)
      {
        AppendedRecord(w, step, run, k);
      }
    }
  }

  // ----- the permission gate decides -----

  /** Where an allowed call stands in its run's log: authorized before dispatched. */
  predicate AuthorizedThenDispatched(log: seq<Event>, i: Instance) {
    var o := OpeningLength(i.turn);
    && |i.marks| >= Due(i.turn)
    && i.marks[o + 5] < i.marks[o + 7] < |log|
    && log[i.marks[o + 5]] == ToolTransition(i.turn.invocation, Authorized)
    && IsDispatch(log[i.marks[o + 7]], i.turn.invocation)
  }

  lemma AllowedLines(run: string, t: Turn, status: ToolLifecycle)
    requires MayCall(t)
    ensures var (o, script) := (OpeningLength(t), Script(run, t, status));
            && |script| > Due(t)
            && script[o + 5] == Plain(ToolTransition(t.invocation, Authorized))
            && script[o + 7] == Keep(DispatchStarted(t.invocation))
  {
    AnswerComesLater(run, t, status, status);
    var b, o := Before(run, t), OpeningLength(t);
    assert b[o + 5] == Dispatching(run, t)[0] && b[o + 7] == Dispatching(run, t)[2];
    assert Script(run, t, status)[..Due(t)][o + 5] == b[o + 5] && Script(run, t, status)[..Due(t)][o + 7] == b[o + 7];
  }

  lemma ExecutedWasAllowed(log: seq<Event>, i: Instance)
    requires TurnOk(log, i) && i.executed
    ensures MayCall(i.turn) && AuthorizedThenDispatched(log, i)
  {
    hide Script;
    AllowedLines(i.run, i.turn, i.status);
  }

  /** An instance that has called the executor runs a tool call that its permission gate
      allowed, and its run's log has the authorization, then the dispatch; and every call ever
      made was made by such an instance. */
  lemma CallsAreAllowed(steps: seq<Step>)
    ensures var w := DoAll(Genesis, steps);
            && (forall id :: id in w.instances && w.instances[id].executed ==>
                  var i := w.instances[id];
                  && i.turn.action == CallTool && i.turn.permission == Allow
                  && AuthorizedThenDispatched(LogOf(w.store, i.run), i))
            && (forall inv :: inv in w.calls ==>
                  exists id :: && id in w.instances && w.instances[id].executed && w.instances[id].turn.invocation == inv
                               && w.instances[id].turn.action == CallTool && w.instances[id].turn.permission == Allow)
  {
    hide TurnOk;
    hide AuthorizedThenDispatched;
    hide StoreOk;
    hide SuccessesJustified;
    hide OwnDispatches;
    hide AllInstancesOk;
    var w := DoAll(Genesis, steps);
    TurnsFollowScript(steps);
    ReachedOk(steps);
    forall id | id in w.instances && w.instances[id].executed
      ensures MayCall(w.instances[id].turn) && AuthorizedThenDispatched(LogOf(w.store, w.instances[id].run), w.instances[id])
    {
      assert TurnOk(LogOf(w.store, w.instances[id].run), w.instances[id]);
      ExecutedWasAllowed(LogOf(w.store, w.instances[id].run), w.instances[id]);
    }
    forall inv | inv in w.calls
      ensures exists id :: && id in w.instances && w.instances[id].executed && w.instances[id].turn.invocation == inv
                           && w.instances[id].turn.action == CallTool && w.instances[id].turn.permission == Allow
    {
      var id :| id in w.instances && w.instances[id].executed && w.instances[id].turn.invocation == inv;
      assert MayCall(w.instances[id].turn);
    }
  }

  /** Events that only an allowed call writes. */
  predicate NeedsPermission(e: Event) {
    || (e.Recorded? && (e.record.DispatchStarted? || e.record.ResultRecorded?))
    || (e.ToolTransition? && e.toolTarget in {Authorized, Dispatched})
    || (e.RunTransition? && e.target == Succeeded)
  }

  lemma OthersNeedNone(run: string, t: Turn, status: ToolLifecycle, k: nat, at: nat)
    requires k < |Script(run, t, status)|
    ensures var e := Written(run, Script(run, t, status)[k], at);
            && (NeedsPermission(e) ==> MayCall(t))
            && (e.Recorded? && e.record.DispatchStarted? ==> e.record.invocation == t.invocation)
  {
    if t.action == CallTool && t.permission != Allow {
      RefusedLines(run, t, status, k, at);
    } else if t.action == CallTool {
      AllowedDispatch(run, t, status, k, at);
    }
  }

  lemma AllowedDispatch(run: string, t: Turn, status: ToolLifecycle, k: nat, at: nat)
    requires MayCall(t) && k < |Script(run, t, status)|
    ensures var e := Written(run, Script(run, t, status)[k], at);
            e.Recorded? && e.record.DispatchStarted? ==> e.record.invocation == t.invocation
  {
    var o := OpeningLength(t);
    AnswerComesLater(run, t, status, status);
    var before, after := Before(run, t), Concluding(t, status);
    assert Script(run, t, status) == before + after;
    if k >= o + 10 {
      assert Script(run, t, status)[k] == after[k - o - 10];
    } else if k >= o + 5 {
      assert before[k] == Dispatching(run, t)[k - o - 5];
    } else if k >= o {
      assert before[k] == Asking(t)[k - o];
    } else {
      assert before[k] == Opening(run, t)[k];
    }
  }

  lemma RefusedLines(run: string, t: Turn, status: ToolLifecycle, k: nat, at: nat)
    requires t.action == CallTool && t.permission != Allow
    requires k < |Script(run, t, status)|
    ensures !NeedsPermission(Written(run, Script(run, t, status)[k], at))
    ensures |Script(run, t, status)| == OpeningLength(t) + 6
    ensures Script(run, t, status)[OpeningLength(t) + 5] ==
              Plain(ToolTransition(t.invocation, if t.permission == Deny then Denied else WaitingApproval))
  {
    var o := OpeningLength(t);
    assert Script(run, t, status) == Opening(run, t) + Asking(t) + Refusing(t);
    assert |Opening(run, t)| == o;
    if k < o {
      assert Script(run, t, status)[k] == Opening(run, t)[k];
    } else if k < o + 5 {
      assert Script(run, t, status)[k] == Asking(t)[k - o];
    }
  }

  /** Wherever a dispatch stands in the store, an instance wrote it whose turn is a call of
      that invocation that the permission gate allowed. */
  lemma DispatchesAreAllowed(steps: seq<Step>, run: string, k: nat, inv: Id)
    requires var store := DoAll(Genesis, steps).store; run in store && k < |store[run]| && IsDispatch(store[run][k], inv)
    ensures var w := DoAll(Genesis, steps);
            exists id :: && WroteAt(w, id, run, k) && w.instances[id].turn.invocation == inv
                         && w.instances[id].turn.action == CallTool && w.instances[id].turn.permission == Allow
  {
    hide Script;
    hide Placed;
    hide DoAll;
    var w := DoAll(Genesis, steps);
    TurnsFollowScript(steps);
    WritersKnown(steps);
    assert HasWriter(w, run, k);
    var id :| WroteAt(w, id, run, k);
    var i := w.instances[id];
    assert TurnOk(LogOf(w.store, run), i);
    var j :| 0 <= j < |i.marks| && i.marks[j] == k;
    OthersNeedNone(run, i.turn, i.status, j, k);
  }

  /** A tool the gate denied stays denied whatever is appended. */
  lemma {:induction false} DeniedStays(log: seq<Event>, n: nat, inv: Id)
    requires Legal(log) && 1 <= n <= |log| && Legal(log[..n])
    requires var tools := Replay(log[..n]).value.tools; inv in tools && tools[inv] == Denied
    ensures var tools := Replay(log).value.tools; inv in tools && tools[inv] == Denied
    decreases |log|
  {
    if n == |log| {
      assert log[..n] == log;
    } else {
      var init := log[..|log| - 1];
      assert init[..n] == log[..n];
      PrefixLegal(log, |log| - 1);
      DeniedStays(init, n, inv);
    }
  }

  lemma TransitionLands(log: seq<Event>, k: nat, inv: Id, target: ToolLifecycle)
    requires Legal(log) && k < |log| && log[k] == ToolTransition(inv, target)
    ensures Legal(log[..k + 1])
    ensures var tools := Replay(log[..k + 1]).value.tools; inv in tools && tools[inv] == target
  {
    PrefixLegal(log, k + 1);
    var upto := log[..k + 1];
    if k > 0 {
      assert upto[..|upto| - 1] == log[..k];
      PrefixLegal(log, k);
    }
  }

  /** A call the gate refused is never executed or authorized by its turn, which ends with the
      refusal: then its tool is denied, for good, or waits for approval. */
  lemma RefusedTurnsStop(steps: seq<Step>, id: nat)
    requires id in DoAll(Genesis, steps).instances
    requires var t := DoAll(Genesis, steps).instances[id].turn; t.action == CallTool && t.permission != Allow
    ensures var w := DoAll(Genesis, steps); var i := w.instances[id];
            var (log, o) := (LogOf(w.store, i.run), OpeningLength(i.turn));
            && !i.executed && |i.marks| <= o + 6
            && (forall k :: 0 <= k < |i.marks| ==>
                  && i.marks[k] < |log| && !IsDispatch(log[i.marks[k]], i.turn.invocation)
                  && log[i.marks[k]] != ToolTransition(i.turn.invocation, Authorized))
            && (|i.marks| == o + 6 ==>
                  var tools := AfterEvent(log, i.marks[o + 5]);
                  && i.turn.invocation in tools
                  && tools[i.turn.invocation] == (if i.turn.permission == Deny then Denied else WaitingApproval)
                  && (i.turn.permission == Deny ==> DeniedIn(log, i.turn.invocation)))
  {
    hide Script;
    hide DoAll;
    hide StoreOk;
    hide SuccessesJustified;
    hide OwnDispatches;
    hide AllInstancesOk;
    hide CallsOk;
    var w := DoAll(Genesis, steps);
    var i := w.instances[id];
    TurnsFollowScript(steps);
    ReachedOk(steps);
    var log := LogOf(w.store, i.run);
    assert TurnOk(log, i);
    RefusedTurn(log, i);
    if |i.marks| == OpeningLength(i.turn) + 6 { LegalInStore(w.store, i.run); RefusalLands(log, i); }
  }

  /** The tools of a log up to and with event `k`. */
  function AfterEvent(log: seq<Event>, k: nat): map<Id, ToolLifecycle> {
    if k < |log| && Legal(log[..k + 1]) then Replay(log[..k + 1]).value.tools else map[]
  }

  predicate DeniedIn(log: seq<Event>, inv: Id) {
    Legal(log) && inv in Replay(log).value.tools && Replay(log).value.tools[inv] == Denied
  }

  lemma RefusedTurn(log: seq<Event>, i: Instance)
    requires TurnOk(log, i) && i.turn.action == CallTool && i.turn.permission != Allow
    ensures !i.executed && |i.marks| <= OpeningLength(i.turn) + 6
    ensures forall k :: 0 <= k < |i.marks| ==>
              && i.marks[k] < |log| && !IsDispatch(log[i.marks[k]], i.turn.invocation)
              && log[i.marks[k]] != ToolTransition(i.turn.invocation, Authorized)
    ensures |i.marks| == OpeningLength(i.turn) + 6 ==>
              log[i.marks[OpeningLength(i.turn) + 5]] ==
              ToolTransition(i.turn.invocation, if i.turn.permission == Deny then Denied else WaitingApproval)
  {
    hide Script;
    RefusedLength(i.run, i.turn, i.status);
    forall k | 0 <= k < |i.marks|
      ensures !NeedsPermission(log[i.marks[k]])
    {
      RefusedLines(i.run, i.turn, i.status, k, i.marks[k]);
    }
  }

  lemma RefusedLength(run: string, t: Turn, status: ToolLifecycle)
    requires t.action == CallTool && t.permission != Allow
    ensures |Script(run, t, status)| == OpeningLength(t) + 6
    ensures Script(run, t, status)[OpeningLength(t) + 5] ==
              Plain(ToolTransition(t.invocation, if t.permission == Deny then Denied else WaitingApproval))
  {
    RefusedLines(run, t, status, 0, 0);
  }

  lemma RefusalLands(log: seq<Event>, i: Instance)
    requires Legal(log) && TurnOk(log, i) && i.turn.action == CallTool && i.turn.permission != Allow
    requires |i.marks| == OpeningLength(i.turn) + 6
    ensures var tools := AfterEvent(log, i.marks[OpeningLength(i.turn) + 5]);
            && i.turn.invocation in tools
            && tools[i.turn.invocation] == (if i.turn.permission == Deny then Denied else WaitingApproval)
            && (i.turn.permission == Deny ==> DeniedIn(log, i.turn.invocation))
  {
    hide Script;
    hide Replay;
    RefusedTurn(log, i);
    var k, inv := i.marks[OpeningLength(i.turn) + 5], i.turn.invocation;
    TransitionLands(log, k, inv, if i.turn.permission == Deny then Denied else WaitingApproval);
    if i.turn.permission == Deny { DeniedStays(log, k + 1, inv); }
  }
}
