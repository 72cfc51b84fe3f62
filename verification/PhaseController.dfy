module PhaseController {
  // The marker-driven phase machine of one generation (native/reasoning_phase_controller.cpp):
  // reasoning between a start and an end marker, then a grammar-constrained final part, under
  // three token budgets. The controller sees only a bounded window of recent tokens; the
  // reference machine remembers everything.

  import opened Basics

  datatype Phase = ExpectStart | Reasoning | Final | Done | Error
  datatype Action = NoAction | ReasoningStarted | ActivateFinalGrammar | Completed | Failed

  datatype Config = Config(
    start: seq<Token>, end: seq<Token>,
    reasoningBudget: nat, finalBudget: nat, totalBudget: nat, requireStart: bool)

  datatype Controller = Controller(
    phase: Phase, memory: seq<Token>, sampled: nat, reasoning: nat, final: nat)

  datatype Input = Input(token: Token, eog: bool, accepting: bool)
  datatype Result = Result(action: Action, phase: Phase, error: string)

  /** The constructor throws unless the markers and the budget envelope are sound. */
  predicate ValidConfig(c: Config) {
    && c.start != [] && c.end != [] && c.start != c.end
    && c.reasoningBudget <= c.totalBudget && c.finalBudget <= c.totalBudget
    && c.totalBudget <= c.reasoningBudget + c.finalBudget
  }

  function Initial(c: Config): Controller {
    Controller(if c.requireStart then ExpectStart else Reasoning, [], 0, 0, 0)
  }

  predicate Live(p: Phase) { p != Done && p != Error }

  predicate EndsWith(s: seq<Token>, marker: seq<Token>) {
    |s| >= |marker| && s[|s| - |marker|..] == marker
  }

  function Limit(c: Config): nat { if |c.start| > |c.end| then |c.start| else |c.end| }

  function LastOf(n: nat, s: seq<Token>): seq<Token> { if |s| <= n then s else s[|s| - n..] }

  /** `remember`: push, then drop the oldest token if the window is over its limit. */
  function Remember(c: Config, tail: seq<Token>, token: Token): seq<Token> {
    var pushed := tail + [token];
    if |pushed| > Limit(c) then pushed[1..] else pushed
  }

  function Fail(s: Controller, reason: string): (Controller, Result) {
    (s.(phase := Error), Result(Failed, Error, reason))
  }

  function Move(s: Controller, action: Action, phase: Phase): (Controller, Result) {
    (s.(phase := phase), Result(action, phase, ""))
  }

  /** The part of `consume` after the budgets: `start` and `end` say which marker the
      remembered tokens now end with. */
  function Decide(s: Controller, i: Input, start: bool, end: bool): (Controller, Result) {
    if i.eog then
      if s.phase != Final then Fail(s, "eog_before_reasoning_end")
      else if !i.accepting then Fail(s, "eog_before_grammar_accepting")
      else Move(s, Completed, Done)
    else if s.phase == ExpectStart && end then Fail(s, "reasoning_end_before_start")
    else if s.phase == ExpectStart && start then Move(s, ReasoningStarted, Reasoning)
    else if s.phase == Reasoning && start then Fail(s, "duplicate_reasoning_start")
    else if s.phase == Reasoning && end then Move(s, ActivateFinalGrammar, Final)
    else if s.phase == Final && (start || end) then Fail(s, "reasoning_marker_after_final")
    else Move(s, NoAction, s.phase)
  }

  /** `consume`, with the token memory to use once the budgets allow the token. */
  function ConsumeWith(c: Config, s: Controller, i: Input, memory: seq<Token>, start: bool, end: bool): (Controller, Result) {
    if !Live(s.phase) then Fail(s, "token received after terminal state")
    else
      var s1 := s.(sampled := s.sampled + 1);
      if s1.sampled > c.totalBudget then Fail(s1, "total_budget_exhausted")
      else if s1.phase != Final then
        var s2 := s1.(reasoning := s1.reasoning + 1);
        if s2.reasoning > c.reasoningBudget then Fail(s2, "reasoning_budget_exhausted")
        else Decide(s2.(memory := memory), i, start, end)
      else if !i.eog then
        var s2 := s1.(final := s1.final + 1);
        if s2.final > c.finalBudget then Fail(s2, "final_budget_exhausted")
        else Decide(s2.(memory := memory), i, start, end)
      else Decide(s1.(memory := memory), i, start, end)
  }

  function Consume(c: Config, s: Controller, i: Input): (Controller, Result) {
    var memory := Remember(c, s.memory, i.token);
    ConsumeWith(c, s, i, memory, EndsWith(memory, c.start), EndsWith(memory, c.end))
  }

  /** The reference: the same machine with unbounded memory. */
  function ConsumeRemembering(c: Config, s: Controller, i: Input): (Controller, Result) {
    var memory := s.memory + [i.token];
    ConsumeWith(c, s, i, memory, EndsWith(memory, c.start), EndsWith(memory, c.end))
  }

  // ----- whole runs -----

  datatype Trace = Trace(state: Controller, results: seq<Result>)

  function Run(c: Config, inputs: seq<Input>): (t: Trace)
    ensures |t.results| == |inputs|
    decreases |inputs|
  {
    if inputs == [] then Trace(Initial(c), [])
    else
      var before := Run(c, inputs[..|inputs| - 1]);
      var (now, result) := Consume(c, before.state, inputs[|inputs| - 1]);
      Trace(now, before.results + [result])
  }

  function ReferenceRun(c: Config, inputs: seq<Input>): (t: Trace)
    ensures |t.results| == |inputs|
    decreases |inputs|
  {
    if inputs == [] then Trace(Initial(c), [])
    else
      var before := ReferenceRun(c, inputs[..|inputs| - 1]);
      var (now, result) := ConsumeRemembering(c, before.state, inputs[|inputs| - 1]);
      Trace(now, before.results + [result])
  }

  function Tokens(inputs: seq<Input>): seq<Token> { seq(|inputs|, k requires 0 <= k < |inputs| => inputs[k].token) }

  lemma WindowAnswersAlike(c: Config, history: seq<Token>)
    ensures EndsWith(LastOf(Limit(c), history), c.start) <==> EndsWith(history, c.start)
    ensures EndsWith(LastOf(Limit(c), history), c.end) <==> EndsWith(history, c.end)
  {
    var tail := LastOf(Limit(c), history);
    forall marker | marker == c.start || marker == c.end
      ensures EndsWith(tail, marker) <==> EndsWith(history, marker)
    {
      if |marker| <= |history| {
        assert tail[|tail| - |marker|..] == history[|history| - |marker|..];
      }
    }
  }

  lemma RememberKeepsWindow(c: Config, history: seq<Token>, token: Token)
    ensures Remember(c, LastOf(Limit(c), history), token) == LastOf(Limit(c), history + [token])
  {
  }

  /** The window `w` holds the end of what the reference `h` remembers. */
  predicate Shadows(c: Config, w: Controller, h: Controller) {
    w == h.(memory := LastOf(Limit(c), h.memory))
  }

  lemma ShadowStep(c: Config, w: Controller, h: Controller, i: Input)
    requires Shadows(c, w, h)
    ensures Shadows(c, Consume(c, w, i).0, ConsumeRemembering(c, h, i).0)
    ensures Consume(c, w, i).1 == ConsumeRemembering(c, h, i).1
  {
    var tail, full := Remember(c, w.memory, i.token), h.memory + [i.token];
    RememberKeepsWindow(c, h.memory, i.token);
    WindowAnswersAlike(c, full);
    MemoryIsOnlyCarried(c, h, i, w.memory, tail, full, EndsWith(full, c.start), EndsWith(full, c.end));
  }

  lemma DecideCarries(s: Controller, i: Input, start: bool, end: bool, memory: seq<Token>)
    ensures var x, y := Decide(s.(memory := memory), i, start, end), Decide(s, i, start, end);
            x.1 == y.1 && x.0 == y.0.(memory := memory) && y.0.memory == s.memory
  {
  }

  lemma MemoryIsOnlyCarried(
    c: Config, h: Controller, i: Input, kept: seq<Token>, tail: seq<Token>, full: seq<Token>, start: bool, end: bool)
    ensures var x, y := ConsumeWith(c, h.(memory := kept), i, tail, start, end), ConsumeWith(c, h, i, full, start, end);
            && x.1 == y.1
            && (|| (x.0 == y.0.(memory := kept) && y.0.memory == h.memory)
                || (x.0 == y.0.(memory := tail) && y.0.memory == full))
  {
    hide Decide;
    var s := h.(sampled := h.sampled + 1, memory := full);
    DecideCarries(s, i, start, end, tail);
    DecideCarries(s.(reasoning := s.reasoning + 1), i, start, end, tail);
    DecideCarries(s.(final := s.final + 1), i, start, end, tail);
  }

  lemma LiveRemembers(c: Config, h: Controller, i: Input)
    ensures var now := ConsumeRemembering(c, h, i).0;
            Live(now.phase) ==> Live(h.phase) && now.memory == h.memory + [i.token]
  {
  }

  /** The windowed controller and the one that remembers everything give the same results,
      phase and counters on every run, and the window is the end of the full history. */
  lemma {:induction false} WindowRefinesHistory(c: Config, inputs: seq<Input>)
    ensures Run(c, inputs).results == ReferenceRun(c, inputs).results
    ensures Shadows(c, Run(c, inputs).state, ReferenceRun(c, inputs).state)
    decreases |inputs|
  {
    hide Consume;
    hide ConsumeRemembering;
    if inputs != [] {
      var init := inputs[..|inputs| - 1];
      WindowRefinesHistory(c, init);
      ShadowStep(c, Run(c, init).state, ReferenceRun(c, init).state, inputs[|inputs| - 1]);
    }
  }

  /** While the controller is live, the reference remembers every token consumed. */
  lemma {:induction false} HistoryIsComplete(c: Config, inputs: seq<Input>)
    requires Live(ReferenceRun(c, inputs).state.phase)
    ensures ReferenceRun(c, inputs).state.memory == Tokens(inputs)
    decreases |inputs|
  {
    hide ConsumeRemembering;
    if inputs != [] {
      var init, i := inputs[..|inputs| - 1], inputs[|inputs| - 1];
      LiveRemembers(c, ReferenceRun(c, init).state, i);
      HistoryIsComplete(c, init);
      assert Tokens(inputs) == Tokens(init) + [i.token];
    }
  }

  /** `suffix_is` on the window answers for the whole token history. */
  lemma SuffixIsExact(c: Config, inputs: seq<Input>)
    requires Live(Run(c, inputs).state.phase)
    ensures EndsWith(Run(c, inputs).state.memory, c.start) <==> EndsWith(Tokens(inputs), c.start)
    ensures EndsWith(Run(c, inputs).state.memory, c.end) <==> EndsWith(Tokens(inputs), c.end)
  {
    WindowRefinesHistory(c, inputs);
    HistoryIsComplete(c, inputs);
    WindowAnswersAlike(c, Tokens(inputs));
  }

  // ----- budgets -----

  predicate Counted(c: Config, s: Controller, consumed: nat) {
    && s.reasoning + s.final <= s.sampled <= s.reasoning + s.final + 1
    && s.sampled <= c.totalBudget + 1
    && (Live(s.phase) ==>
          && s.sampled == s.reasoning + s.final == consumed
          && s.sampled <= c.totalBudget && s.reasoning <= c.reasoningBudget && s.final <= c.finalBudget)
    && (s.phase == Done ==> s.sampled == s.reasoning + s.final + 1 <= c.totalBudget)
  }

  lemma ConsumeCounts(c: Config, s: Controller, i: Input, consumed: nat)
    requires Counted(c, s, consumed)
    ensures Counted(c, Consume(c, s, i).0, consumed + 1)
  {
    hide EndsWith;
    hide Remember;
  }

  /** Every sampled token is charged to reasoning or to the final part, except at most the
      one that ends the run, and no run stays live past its total budget. */
  lemma {:induction false} RunStaysInBudget(c: Config, inputs: seq<Input>)
    ensures Counted(c, Run(c, inputs).state, |inputs|)
    ensures |inputs| > c.totalBudget ==> !Live(Run(c, inputs).state.phase)
    decreases |inputs|
  {
    hide Consume;
    if inputs != [] {
      var init := inputs[..|inputs| - 1];
      RunStaysInBudget(c, init);
      var s, i := Run(c, init).state, inputs[|inputs| - 1];
      ConsumeCounts(c, s, i, |init|);
    }
  }

  // ----- order of events -----

  /** The phase changes a run reported, in order. */
  function Milestones(results: seq<Result>): seq<Action>
    decreases |results|
  {
    if results == [] then []
    else
      WithAction(Milestones(results[..|results| - 1]), results[|results| - 1].action)
  }

  function Path(c: Config): seq<Action> {
    (if c.requireStart then [ReasoningStarted] else []) + [ActivateFinalGrammar, Completed]
  }

  /** How many milestones of the path lie behind a live or finished phase. */
  function Passed(c: Config, p: Phase): nat {
    var extra := if c.requireStart then 1 else 0;
    match p case ExpectStart => 0 case Reasoning => extra case Final => 1 + extra case Done => 2 + extra case Error => 0
  }

  lemma ConsumeFollowsPath(c: Config, s: Controller, i: Input)
    requires s.phase == ExpectStart ==> c.requireStart
    ensures var (now, r) := Consume(c, s, i);
            && (now.phase == ExpectStart ==> c.requireStart)
            && (r.action == Failed <==> now.phase == Error)
            && (s.phase == Error ==> now.phase == Error)
            && (now.phase != Error && r.action == NoAction ==> now.phase == s.phase)
            && (now.phase != Error && r.action != NoAction ==>
                  Passed(c, now.phase) == Passed(c, s.phase) + 1 && Path(c)[Passed(c, s.phase)] == r.action)
  {
  }

  /** The milestones reported so far are the path up to the phase. */
  predicate OnPath(c: Config, ms: seq<Action>, p: Phase) {
    && ms <= Path(c)
    && (p != Error ==> |ms| == Passed(c, p))
    && (p == ExpectStart ==> c.requireStart)
  }

  function WithAction(ms: seq<Action>, a: Action): seq<Action> { if a == NoAction || a == Failed then ms else ms + [a] }

  lemma OnPathStep(c: Config, s: Controller, i: Input, ms: seq<Action>)
    requires OnPath(c, ms, s.phase)
    ensures OnPath(c, WithAction(ms, Consume(c, s, i).1.action), Consume(c, s, i).0.phase)
  {
    hide Consume;
    ConsumeFollowsPath(c, s, i);
  }

  /** The reported phase changes are a prefix of start, final grammar, completed: each at
      most once and in that order, exactly as far as the phase says. */
  lemma {:induction false} MilestonesInOrder(c: Config, inputs: seq<Input>)
    ensures OnPath(c, Milestones(Run(c, inputs).results), Run(c, inputs).state.phase)
    decreases |inputs|
  {
    hide Consume;
    if inputs != [] {
      var init, i := inputs[..|inputs| - 1], inputs[|inputs| - 1];
      MilestonesInOrder(c, init);
      var t := Run(c, init);
      OnPathStep(c, t.state, i, Milestones(t.results));
      assert Run(c, inputs).results[..|inputs| - 1] == t.results;
    }
  }

  /** Once a run has failed it reports nothing but failures. */
  lemma {:induction false} FailureAbsorbs(c: Config, inputs: seq<Input>)
    ensures forall k :: 0 <= k < |inputs| && Run(c, inputs).results[k].action == Failed ==>
              && Run(c, inputs).state.phase == Error
              && Run(c, inputs).results[|inputs| - 1].action == Failed
    decreases |inputs|
  {
    hide Consume;
    if inputs != [] {
      var init, i := inputs[..|inputs| - 1], inputs[|inputs| - 1];
      FailureAbsorbs(c, init);
      var t := Run(c, init);
      FailedMeansError(c, t.state, i);
      assert Run(c, inputs).results == t.results + [Consume(c, t.state, i).1];
    }
  }

  lemma FailedMeansError(c: Config, s: Controller, i: Input)
    ensures Consume(c, s, i).1.action == Failed <==> Consume(c, s, i).0.phase == Error
    ensures s.phase == Error ==> Consume(c, s, i).1.action == Failed
  {
    hide EndsWith;
    hide Remember;
  }

  // ----- the controller object -----

  class ReasoningPhaseController {
    const config: Config
    var phase: Phase
    var tail: seq<Token>
    var sampled: nat
    var reasoning: nat
    var final: nat

    function View(): Controller
      reads this
    {
      Controller(phase, tail, sampled, reasoning, final)
    }

    constructor (c: Config)
      requires ValidConfig(c)
      ensures config == c && View() == Initial(c)
    {
      config := c;
      phase := if c.requireStart then ExpectStart else Reasoning;
      tail, sampled, reasoning, final := [], 0, 0, 0;
    }

    method Push(token: Token)
      modifies this`tail
      ensures tail == Remember(config, old(tail), token)
    {
      tail := tail + [token];
      if |tail| > Limit(config) { tail := tail[1..]; }
    }

    method Refuse(reason: string) returns (r: Result)
      modifies this`phase
      ensures phase == Error && r == Result(Failed, Error, reason)
    {
      phase := Error;
      return Result(Failed, phase, reason);
    }

    method Take(i: Input) returns (r: Result)
      modifies this
      ensures (View(), r) == Consume(config, old(View()), i)
    {
      if phase == Done || phase == Error {
        r := Refuse("token received after terminal state");
        return;
      }
      sampled := sampled + 1;
      if sampled > config.totalBudget {
        r := Refuse("total_budget_exhausted");
        return;
      }
      if phase != Final {
        reasoning := reasoning + 1;
        if reasoning > config.reasoningBudget {
          r := Refuse("reasoning_budget_exhausted");
          return;
        }
      } else if !i.eog {
        final := final + 1;
        if final > config.finalBudget {
          r := Refuse("final_budget_exhausted");
          return;
        }
      }
      Push(i.token);
      r := Conclude(i);
    }

    method Conclude(i: Input) returns (r: Result)
      modifies this`phase
      ensures (View(), r) == Decide(old(View()), i, EndsWith(tail, config.start), EndsWith(tail, config.end))
    {
      if i.eog {
        if phase != Final {
          r := Refuse("eog_before_reasoning_end");
        } else if !i.accepting {
          r := Refuse("eog_before_grammar_accepting");
        } else {
          phase := Done;
          r := Result(Completed, phase, "");
        }
        return;
      }
      var start, end := EndsWith(tail, config.start), EndsWith(tail, config.end);
      r := Result(NoAction, phase, "");
      if phase == ExpectStart {
        if end {
          r := Refuse("reasoning_end_before_start");
        } else if start {
          phase := Reasoning;
          r := Result(ReasoningStarted, phase, "");
        }
      } else if phase == Reasoning {
        if start {
          r := Refuse("duplicate_reasoning_start");
        } else if end {
          phase := Final;
          r := Result(ActivateFinalGrammar, phase, "");
        }
      } else if phase == Final && (start || end) {
        r := Refuse("reasoning_marker_after_final");
      }
    }
  }
}
