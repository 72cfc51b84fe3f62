/** The phase machine told by the tokens alone: which tokens end a marker decides the phase, the
    counters and, for the next token, exactly which action or failure is reported. Nothing here
    looks at how `consume` decides. */
module PhaseHistory {
  import opened Basics
  import opened PhaseController

  // ----- what a token history says -----

  /** The first `k` tokens end with the marker. */
  predicate MarkedAt(tokens: seq<Token>, marker: seq<Token>, k: int) {
    0 < k <= |tokens| && EndsWith(tokens[..k], marker)
  }

  ghost predicate Seen(tokens: seq<Token>, marker: seq<Token>) { exists k :: MarkedAt(tokens, marker, k) }

  /** The marker has ended at most once. */
  ghost predicate OnlyOnce(tokens: seq<Token>, marker: seq<Token>) {
    forall j, k :: MarkedAt(tokens, marker, j) && MarkedAt(tokens, marker, k) ==> j == k
  }

  /** Where markers may stand: one start, if one is required at all, and after it one end. */
  ghost predicate MarkersInOrder(c: Config, tokens: seq<Token>) {
    && OnlyOnce(tokens, c.start) && OnlyOnce(tokens, c.end)
    && (!c.requireStart ==> !Seen(tokens, c.start))
    && (c.requireStart ==>
          forall k :: MarkedAt(tokens, c.end, k) ==> exists j :: j < k && MarkedAt(tokens, c.start, j))
  }

  /** Tokens up to and with the end marker are reasoning, the others final. */
  ghost predicate WithinBudgets(c: Config, tokens: seq<Token>) {
    && |tokens| <= c.totalBudget
    && (!Seen(tokens, c.end) ==> |tokens| <= c.reasoningBudget)
    && (forall k :: MarkedAt(tokens, c.end, k) ==> k <= c.reasoningBudget && |tokens| - k <= c.finalBudget)
  }

  predicate NoEnd(inputs: seq<Input>) { forall k :: 0 <= k < |inputs| ==> !inputs[k].eog }

  ghost predicate Acceptable(c: Config, tokens: seq<Token>) { MarkersInOrder(c, tokens) && WithinBudgets(c, tokens) }

  /** The state is live and is what the tokens say it is. */
  ghost predicate Agrees(c: Config, s: Controller, tokens: seq<Token>) {
    && Live(s.phase) && s.sampled == |tokens|
    && (s.phase == ExpectStart <==> c.requireStart && !Seen(tokens, c.start))
    && (s.phase == Final <==> Seen(tokens, c.end))
    && (!Seen(tokens, c.end) ==> s.reasoning == |tokens| && s.final == 0)
    && (forall k :: MarkedAt(tokens, c.end, k) ==> s.reasoning == k && s.final == |tokens| - k)
  }

  // ----- one token -----

  /** The next token would be one final token too many. */
  ghost predicate FinalOverrun(c: Config, tokens: seq<Token>, i: Input) {
    !i.eog && exists k :: MarkedAt(tokens, c.end, k) && |tokens| + 1 - k > c.finalBudget
  }

  /** What a live controller must report for the next token, said of the history alone. */
  ghost predicate Reports(c: Config, tokens: seq<Token>, i: Input, r: Result) {
    var longer := tokens + [i.token];
    ReportsWhen(c, i, r, Seen(tokens, c.start), Seen(tokens, c.end),
                EndsWith(longer, c.start), EndsWith(longer, c.end), |longer|, FinalOverrun(c, tokens, i))
  }

  /** `started`, `ended`: which markers were seen before; `start`, `end`: which one this token
      completes; `count`: tokens including this one. */
  predicate ReportsWhen(
    c: Config, i: Input, r: Result, started: bool, ended: bool, start: bool, end: bool, count: nat, overFinal: bool)
  {
    var overTotal := count > c.totalBudget;
    var overReasoning := !ended && count > c.reasoningBudget;
    var within := !overTotal && !overReasoning && !overFinal;
    var waiting := c.requireStart && !started;
    && (r.action == Failed <==> r.error != "")
    && (r.error == "total_budget_exhausted" <==> overTotal)
    && (r.error == "reasoning_budget_exhausted" <==> !overTotal && overReasoning)
    && (r.error == "final_budget_exhausted" <==> !overTotal && overFinal)
    && (r.error == "eog_before_reasoning_end" <==> within && i.eog && !ended)
    && (r.error == "eog_before_grammar_accepting" <==> within && i.eog && ended && !i.accepting)
    && (r.action == Completed <==> within && i.eog && ended && i.accepting)
    && (r.error == "reasoning_end_before_start" <==> within && !i.eog && waiting && end)
    && (r.action == ReasoningStarted <==> within && !i.eog && waiting && start && !end)
    && (r.error == "duplicate_reasoning_start" <==> within && !i.eog && !waiting && !ended && start)
    && (r.action == ActivateFinalGrammar <==> within && !i.eog && !waiting && !ended && end && !start)
    && (r.error == "reasoning_marker_after_final" <==> within && !i.eog && ended && (start || end))
    && (r.action == NoAction <==> within && !i.eog && !start && !end)
  }

  lemma MarkedLater(tokens: seq<Token>, token: Token, marker: seq<Token>)
    ensures forall k :: MarkedAt(tokens + [token], marker, k) <==>
              MarkedAt(tokens, marker, k) || (k == |tokens| + 1 && EndsWith(tokens + [token], marker))
    ensures Seen(tokens + [token], marker) <==> Seen(tokens, marker) || EndsWith(tokens + [token], marker)
  {
    var longer := tokens + [token];
    assert forall k :: 0 < k <= |tokens| ==> longer[..k] == tokens[..k];
    assert longer[..|longer|] == longer;
    if EndsWith(longer, marker) {
      assert MarkedAt(longer, marker, |longer|);
    }
    if Seen(tokens, marker) {
      var k :| MarkedAt(tokens, marker, k);
      assert MarkedAt(longer, marker, k);
    }
  }

  lemma OverrunIsCounted(c: Config, s: Controller, i: Input, tokens: seq<Token>)
    requires Agrees(c, s, tokens)
    ensures FinalOverrun(c, tokens, i) <==> s.phase == Final && !i.eog && s.final + 1 > c.finalBudget
  {
  }

  /** What is reported once the budgets allow the token. */
  lemma DecideReports(s: Controller, i: Input, start: bool, end: bool)
    requires Live(s.phase)
    ensures var r := Decide(s, i, start, end).1;
            && (r.action == Failed <==> r.error != "")
            && (r.error == "eog_before_reasoning_end" <==> i.eog && s.phase != Final)
            && (r.error == "eog_before_grammar_accepting" <==> i.eog && s.phase == Final && !i.accepting)
            && (r.action == Completed <==> i.eog && s.phase == Final && i.accepting)
            && (r.error == "reasoning_end_before_start" <==> !i.eog && s.phase == ExpectStart && end)
            && (r.action == ReasoningStarted <==> !i.eog && s.phase == ExpectStart && start && !end)
            && (r.error == "duplicate_reasoning_start" <==> !i.eog && s.phase == Reasoning && start)
            && (r.action == ActivateFinalGrammar <==> !i.eog && s.phase == Reasoning && end && !start)
            && (r.error == "reasoning_marker_after_final" <==> !i.eog && s.phase == Final && (start || end))
            && (r.action == NoAction <==> !i.eog && !start && !end)
            && r.error !in {"total_budget_exhausted", "reasoning_budget_exhausted", "final_budget_exhausted"}
  {
  }

  /** The code of the first budget the token exceeds, if it exceeds one. */
  function BudgetError(c: Config, s: Controller, i: Input): Option<string> {
    if s.sampled + 1 > c.totalBudget then Some("total_budget_exhausted")
    else if s.phase != Final && s.reasoning + 1 > c.reasoningBudget then Some("reasoning_budget_exhausted")
    else if s.phase == Final && !i.eog && s.final + 1 > c.finalBudget then Some("final_budget_exhausted")
    else None
  }

  /** The budgets come first, and otherwise `decide` reports. */
  lemma BudgetsReport(c: Config, s: Controller, i: Input, memory: seq<Token>, start: bool, end: bool)
    requires Live(s.phase)
    ensures var ((now, r), over) := (ConsumeWith(c, s, i, memory, start, end), BudgetError(c, s, i));
            if over.Some? then r == Fail(s, over.value).1 && now.phase == Error
            else exists t: Controller :: t.phase == s.phase && (now, r) == Decide(t, i, start, end)
  {
    hide Decide;
  }

  lemma ReportsOver(c: Config, s: Controller, i: Input, r: Result,
                    started: bool, ended: bool, start: bool, end: bool, overFinal: bool)
    requires BudgetError(c, s, i).Some? && r == Fail(s, BudgetError(c, s, i).value).1
    requires (s.phase == Final <==> ended) && (s.phase != Final ==> s.reasoning == s.sampled)
    requires overFinal <==> s.phase == Final && !i.eog && s.final + 1 > c.finalBudget
    ensures ReportsWhen(c, i, r, started, ended, start, end, s.sampled + 1, overFinal)
  {
  }

  lemma ReportsWithin(c: Config, s: Controller, i: Input, t: Controller,
                      started: bool, ended: bool, start: bool, end: bool, overFinal: bool)
    requires BudgetError(c, s, i).None? && Live(s.phase) && t.phase == s.phase
    requires (s.phase == ExpectStart <==> c.requireStart && !started) && (s.phase == Final <==> ended)
    requires (s.phase != Final ==> s.reasoning == s.sampled) && (ended && c.requireStart ==> started)
    requires overFinal <==> s.phase == Final && !i.eog && s.final + 1 > c.finalBudget
    ensures ReportsWhen(c, i, Decide(t, i, start, end).1, started, ended, start, end, s.sampled + 1, overFinal)
  {
    DecideReports(t, i, start, end);
    hide Decide;
  }

  lemma ReportsStep(c: Config, s: Controller, i: Input, memory: seq<Token>,
                    started: bool, ended: bool, start: bool, end: bool, overFinal: bool)
    requires Live(s.phase)
    requires s.phase == ExpectStart <==> c.requireStart && !started
    requires s.phase == Final <==> ended
    requires s.phase != Final ==> s.reasoning == s.sampled
    requires ended && c.requireStart ==> started
    requires overFinal <==> s.phase == Final && !i.eog && s.final + 1 > c.finalBudget
    ensures ReportsWhen(c, i, ConsumeWith(c, s, i, memory, start, end).1, started, ended, start, end, s.sampled + 1, overFinal)
  {
    hide ConsumeWith;
    hide Decide;
    hide ReportsWhen;
    hide BudgetError;
    BudgetsReport(c, s, i, memory, start, end);
    var (now, r) := ConsumeWith(c, s, i, memory, start, end);
    if BudgetError(c, s, i).Some? {
      ReportsOver(c, s, i, r, started, ended, start, end, overFinal);
    } else {
      var t: Controller :| t.phase == s.phase && (now, r) == Decide(t, i, start, end);
      ReportsWithin(c, s, i, t, started, ended, start, end, overFinal);
    }
  }

  /** Going on. */
  predicate GoesOn(r: Result) { r.action in {NoAction, ReasoningStarted, ActivateFinalGrammar} }

  lemma EndAfterStart(c: Config, tokens: seq<Token>)
    requires MarkersInOrder(c, tokens) && c.requireStart && Seen(tokens, c.end)
    ensures Seen(tokens, c.start)
  {
  }

  /** A token may follow exactly if the longer history is still acceptable. */
  lemma FollowsMarkers(c: Config, tokens: seq<Token>, token: Token)
    requires MarkersInOrder(c, tokens)
    ensures var longer := tokens + [token];
            var started, ended := Seen(tokens, c.start), Seen(tokens, c.end);
            var start, end := EndsWith(longer, c.start), EndsWith(longer, c.end);
            MarkersInOrder(c, longer) <==>
              if ended then !start && !end
              else if c.requireStart && !started then !end
              else !start
  {
    hide EndsWith;
    var longer := tokens + [token];
    MarkedLater(tokens, token, c.start);
    MarkedLater(tokens, token, c.end);
    if c.requireStart && Seen(tokens, c.end) { EndAfterStart(c, tokens); }
    forall marker | marker == c.start || marker == c.end
      ensures OnlyOnce(longer, marker) <==> !(Seen(tokens, marker) && EndsWith(longer, marker))
    {
      if Seen(tokens, marker) && EndsWith(longer, marker) {
        var k :| MarkedAt(tokens, marker, k);
        assert MarkedAt(longer, marker, k) && MarkedAt(longer, marker, |longer|);
      }
    }
  }

  lemma FollowsBudgets(c: Config, tokens: seq<Token>, i: Input)
    requires WithinBudgets(c, tokens) && OnlyOnce(tokens, c.end) && !i.eog
    requires Seen(tokens, c.end) ==> !EndsWith(tokens + [i.token], c.end)
    ensures WithinBudgets(c, tokens + [i.token]) <==>
              && |tokens| + 1 <= c.totalBudget
              && (!Seen(tokens, c.end) ==> |tokens| + 1 <= c.reasoningBudget)
              && !FinalOverrun(c, tokens, i)
  {
    hide EndsWith;
    var longer := tokens + [i.token];
    MarkedLater(tokens, i.token, c.end);
    if !Seen(tokens, c.end) && EndsWith(longer, c.end) {
      assert MarkedAt(longer, c.end, |longer|);
    }
    if FinalOverrun(c, tokens, i) {
      var k :| MarkedAt(tokens, c.end, k) && |tokens| + 1 - k > c.finalBudget;
      assert MarkedAt(longer, c.end, k);
    }
  }

  lemma Follows(c: Config, tokens: seq<Token>, i: Input, r: Result)
    requires Acceptable(c, tokens) && Reports(c, tokens, i, r)
    ensures GoesOn(r) <==> !i.eog && Acceptable(c, tokens + [i.token])
  {
    hide EndsWith;
    hide FinalOverrun;
    hide OnlyOnce;
    FollowsMarkers(c, tokens, i.token);
    if c.requireStart && Seen(tokens, c.end) { EndAfterStart(c, tokens); }
    OnceOf(c, tokens);
    if !i.eog && (Seen(tokens, c.end) ==> !EndsWith(tokens + [i.token], c.end)) { FollowsBudgets(c, tokens, i); }
  }

  lemma OnceOf(c: Config, tokens: seq<Token>)
    requires MarkersInOrder(c, tokens)
    ensures OnlyOnce(tokens, c.end) && OnlyOnce(tokens, c.start)
  {
  }

  lemma AgreesStep(c: Config, s: Controller, i: Input, tokens: seq<Token>, memory: seq<Token>)
    requires Agrees(c, s, tokens) && Acceptable(c, tokens)
    ensures var longer := tokens + [i.token];
            var (now, r) := ConsumeWith(c, s, i, memory, EndsWith(longer, c.start), EndsWith(longer, c.end));
            && Reports(c, tokens, i, r)
            && (GoesOn(r) <==> Live(now.phase))
            && (GoesOn(r) ==> Agrees(c, now, longer))
  {
    hide EndsWith;
    hide FinalOverrun;
    hide Acceptable;
    hide ConsumeWith;
    assert Live(s.phase);
    hide Agrees;
    hide Reports;
    var longer := tokens + [i.token];
    ReportsOnHistory(c, s, i, tokens, memory);
    var start, end := EndsWith(longer, c.start), EndsWith(longer, c.end);
    MovesOn(c, s, i, memory, start, end);
    if GoesOn(ConsumeWith(c, s, i, memory, start, end).1) { AgreesLater(c, s, i, tokens, memory); }
  }

  lemma ReportsOnHistory(c: Config, s: Controller, i: Input, tokens: seq<Token>, memory: seq<Token>)
    requires Agrees(c, s, tokens) && Acceptable(c, tokens)
    ensures var longer := tokens + [i.token];
            Reports(c, tokens, i, ConsumeWith(c, s, i, memory, EndsWith(longer, c.start), EndsWith(longer, c.end)).1)
  {
    hide EndsWith;
    hide FinalOverrun;
    assert MarkersInOrder(c, tokens);
    hide Acceptable;
    hide ConsumeWith;
    hide ReportsWhen;
    var longer := tokens + [i.token];
    var start, end := EndsWith(longer, c.start), EndsWith(longer, c.end);
    var started, ended := Seen(tokens, c.start), Seen(tokens, c.end);
    OverrunIsCounted(c, s, i, tokens);
    if c.requireStart && ended { EndAfterStart(c, tokens); }
    ReportsStep(c, s, i, memory, started, ended, start, end, FinalOverrun(c, tokens, i));
  }

  lemma AgreesLater(c: Config, s: Controller, i: Input, tokens: seq<Token>, memory: seq<Token>)
    requires Agrees(c, s, tokens) && Acceptable(c, tokens)
    requires var longer := tokens + [i.token];
             GoesOn(ConsumeWith(c, s, i, memory, EndsWith(longer, c.start), EndsWith(longer, c.end)).1)
    ensures var longer := tokens + [i.token];
            Agrees(c, ConsumeWith(c, s, i, memory, EndsWith(longer, c.start), EndsWith(longer, c.end)).0, longer)
  {
    ReportsOnHistory(c, s, i, tokens, memory);
    hide EndsWith;
    hide FinalOverrun;
    hide Acceptable;
    hide ConsumeWith;
    var longer := tokens + [i.token];
    MovesOn(c, s, i, memory, EndsWith(longer, c.start), EndsWith(longer, c.end));
    MarkedLater(tokens, i.token, c.start);
    MarkedLater(tokens, i.token, c.end);
  }

  /** What a step that goes on does to phase and counters. */
  lemma MovesOn(c: Config, s: Controller, i: Input, memory: seq<Token>, start: bool, end: bool)
    requires Live(s.phase)
    ensures var (now, r) := ConsumeWith(c, s, i, memory, start, end);
            && (GoesOn(r) <==> Live(now.phase))
            && (GoesOn(r) ==>
                  && !i.eog && now.sampled == s.sampled + 1
                  && (if s.phase == Final then now.reasoning == s.reasoning && now.final == s.final + 1 && now.phase == Final
                      else now.reasoning == s.reasoning + 1 && now.final == s.final
                           && now.phase == (if r.action == ReasoningStarted then Reasoning
                                            else if r.action == ActivateFinalGrammar then Final else s.phase)))
  {
  }

  // ----- whole runs -----

  lemma AcceptablePrefix(c: Config, tokens: seq<Token>, token: Token)
    requires Acceptable(c, tokens + [token])
    ensures Acceptable(c, tokens)
  {
    hide EndsWith;
    MarkedLater(tokens, token, c.start);
    MarkedLater(tokens, token, c.end);
    var longer := tokens + [token];
    forall k | MarkedAt(tokens, c.end, k)
      ensures k <= c.reasoningBudget && |tokens| - k <= c.finalBudget
      ensures c.requireStart ==> exists j :: j < k && MarkedAt(tokens, c.start, j)
    {
      assert MarkedAt(longer, c.end, k);
    }
    if !Seen(tokens, c.end) && Seen(longer, c.end) { assert MarkedAt(longer, c.end, |longer|); }
  }

  /** A live controller decides on the whole history, though it remembers only its end. */
  lemma StepOnHistory(c: Config, inputs: seq<Input>, i: Input)
    requires Live(Run(c, inputs).state.phase)
    ensures var longer := Tokens(inputs) + [i.token];
            Consume(c, Run(c, inputs).state, i) ==
            ConsumeWith(c, Run(c, inputs).state, i, LastOf(Limit(c), longer), EndsWith(longer, c.start), EndsWith(longer, c.end))
  {
    hide ConsumeWith;
    hide EndsWith;
    WindowRefinesHistory(c, inputs);
    HistoryIsComplete(c, inputs);
    RememberKeepsWindow(c, Tokens(inputs), i.token);
    WindowAnswersAlike(c, Tokens(inputs) + [i.token]);
  }

  lemma AfterTheEnd(c: Config, s: Controller, i: Input)
    requires !Live(s.phase)
    ensures Consume(c, s, i).1 == Result(Failed, Error, "token received after terminal state")
    ensures Consume(c, s, i).0.phase == Error
  {
  }

  lemma EmptyHistory(c: Config)
    ensures Acceptable(c, []) && Agrees(c, Initial(c), [])
  {
  }

  lemma LastInput(c: Config, inputs: seq<Input>)
    requires inputs != []
    ensures var init, i := inputs[..|inputs| - 1], inputs[|inputs| - 1];
            && Tokens(inputs) == Tokens(init) + [i.token]
            && (NoEnd(inputs) <==> NoEnd(init) && !i.eog)
            && Run(c, inputs).state == Consume(c, Run(c, init).state, i).0
            && Run(c, inputs).results == Run(c, init).results + [Consume(c, Run(c, init).state, i).1]
  {
    hide Consume;
  }

  /** The phase is a function of the tokens: the controller is live exactly while no token
      ended the generation, the markers stood in order and every budget was kept, and then it
      expects the start until a prefix ends with the start marker, is final from the first
      prefix that ends with the end marker on, and reasons in between. */
  lemma {:induction false} LiveExactly(c: Config, inputs: seq<Input>)
    ensures Live(Run(c, inputs).state.phase) <==> NoEnd(inputs) && Acceptable(c, Tokens(inputs))
    ensures Live(Run(c, inputs).state.phase) ==> Agrees(c, Run(c, inputs).state, Tokens(inputs))
    decreases |inputs|
  {
    hide Consume;
    hide ConsumeWith;
    hide Acceptable;
    hide Reports;
    hide EndsWith;
    if inputs == [] {
      EmptyHistory(c);
      assert Tokens(inputs) == [] && Run(c, inputs).state == Initial(c);
    } else {
      hide Agrees;
      hide Tokens;
      hide Run;
      var init, i := inputs[..|inputs| - 1], inputs[|inputs| - 1];
      LiveExactly(c, init);
      LastInput(c, inputs);
      if Live(Run(c, init).state.phase) {
        StepOnHistory(c, init, i);
        AgreesStep(c, Run(c, init).state, i, Tokens(init), LastOf(Limit(c), Tokens(inputs)));
        Follows(c, Tokens(init), i, Consume(c, Run(c, init).state, i).1);
      } else {
        AfterTheEnd(c, Run(c, init).state, i);
        if Acceptable(c, Tokens(inputs)) { AcceptablePrefix(c, Tokens(init), i.token); }
      }
    }
  }

  /** What is reported for the next token: exactly when each marker, the end of the generation
      and each budget is reported, on the tokens so far. */
  lemma ReportsExactly(c: Config, inputs: seq<Input>, i: Input)
    ensures var r := Consume(c, Run(c, inputs).state, i).1;
            if NoEnd(inputs) && Acceptable(c, Tokens(inputs)) then Reports(c, Tokens(inputs), i, r)
            else r == Result(Failed, Error, "token received after terminal state")
  {
    hide Consume;
    hide ConsumeWith;
    hide Acceptable;
    hide Agrees;
    hide Reports;
    hide EndsWith;
    hide Tokens;
    hide Run;
    LiveExactly(c, inputs);
    if Live(Run(c, inputs).state.phase) {
      StepOnHistory(c, inputs, i);
      AgreesStep(c, Run(c, inputs).state, i, Tokens(inputs), LastOf(Limit(c), Tokens(inputs) + [i.token]));
    } else {
      AfterTheEnd(c, Run(c, inputs).state, i);
    }
  }

  /** A run has completed exactly if its last token, and no earlier one, ended the generation
      where the grammar accepted it, after the end marker and within the total budget. */
  lemma CompletesExactly(c: Config, inputs: seq<Input>)
    ensures Run(c, inputs).state.phase == Done <==>
              && 0 < |inputs| <= c.totalBudget
              && var init, i := inputs[..|inputs| - 1], inputs[|inputs| - 1];
                 && NoEnd(init) && Acceptable(c, Tokens(init)) && Seen(Tokens(init), c.end)
                 && i.eog && i.accepting
  {
    hide Consume;
    hide Acceptable;
    hide Reports;
    hide Tokens;
    hide EndsWith;
    if inputs != [] {
      var init, i := inputs[..|inputs| - 1], inputs[|inputs| - 1];
      LastInput(c, inputs);
      ReportsExactly(c, init, i);
      LiveExactly(c, init);
      if Live(Run(c, init).state.phase) {
        CompletedMeansDone(c, Run(c, init).state, i);
        ReportsCompletion(c, Tokens(init), i, Consume(c, Run(c, init).state, i).1);
        CountsTokens(init);
      } else {
        AfterTheEnd(c, Run(c, init).state, i);
      }
    }
  }

  lemma CountsTokens(inputs: seq<Input>)
    ensures |Tokens(inputs)| == |inputs|
  {
  }

  lemma ReportsCompletion(c: Config, tokens: seq<Token>, i: Input, r: Result)
    requires Reports(c, tokens, i, r)
    ensures r.action == Completed <==> |tokens| + 1 <= c.totalBudget && i.eog && Seen(tokens, c.end) && i.accepting
  {
    hide EndsWith;
  }

  lemma CompletedMeansDone(c: Config, s: Controller, i: Input)
    requires Live(s.phase)
    ensures Consume(c, s, i).1.action == Completed <==> Consume(c, s, i).0.phase == Done
  {
    hide EndsWith;
    hide Remember;
    hide ConsumeWith;
    var memory := Remember(c, s.memory, i.token);
    CompletedMeansDoneWith(c, s, i, memory, EndsWith(memory, c.start), EndsWith(memory, c.end));
  }

  lemma CompletedMeansDoneWith(c: Config, s: Controller, i: Input, memory: seq<Token>, start: bool, end: bool)
    requires Live(s.phase)
    ensures var (now, r) := ConsumeWith(c, s, i, memory, start, end); r.action == Completed <==> now.phase == Done
  {
    hide ConsumeWith;
    hide BudgetError;
    BudgetsReport(c, s, i, memory, start, end);
    if BudgetError(c, s, i).None? {
      var t: Controller :| t.phase == s.phase && ConsumeWith(c, s, i, memory, start, end) == Decide(t, i, start, end);
    }
  }
}
