/** A generation told by its tokens: how it goes on or ends, and with what text, is decided by
    the tokens sampled so far, the markers, the budgets and the pieces' bytes. */
module GenerationHistory {
  import opened Basics
  import opened KvMemory
  import opened Generation
  import opened H = PhaseHistory
  import P = PhaseController
  import U = Utf8

  // ----- one token -----

  lemma HeldBackIsRest(g: Gen)
    requires U.Tracks(U.Fed(g.utf8, g.deltas), g.finalBytes)
    ensures U.Finished(g.utf8) <==> U.WellFormed(g.finalBytes)
    ensures !g.utf8.valid <==> U.Refusable(g.finalBytes)
  {
    U.ScanCompleteIffWellFormed(g.finalBytes);
    U.ScanBreaksExactly(g.finalBytes);
  }

  lemma TransitionCases(m: Model, c: P.Config, g: Gen, token: Token)
    requires GenOk(c, g) && !g.terminal
    ensures var r := Transition(m, c, g, token).1; var eog := m.isEog(token);
            && (r.action == P.Completed <==> eog && g.finalPhase)
            && (GoesOn(r) <==> r.action != P.Failed && r.action != P.Completed)
            && (GoesOn(r) ==> !eog)
            && (r.action == P.Failed ==> r.error !in {"", "invalid_utf8", "incomplete_utf8", "total_budget_exhausted"})
  {
    hide P.EndsWith;
    hide P.Remember;
    hide U.Tracks;
  }

  lemma FinalTextGrows(m: Model, c: P.Config, g: Gen, token: Token)
    requires GenOk(c, g) && !g.terminal
    ensures g.finalPhase && !m.isEog(token) ==> Piece(m, g, token) == m.piece(token)
    ensures !(g.finalPhase && !m.isEog(token)) ==> Piece(m, g, token) == [] && Decoded(m, g, token).acc == g.utf8
    ensures U.Tracks(U.Fed(g.utf8, g.deltas), g.finalBytes)
  {
  }

  /** What one token does to a generation that is still going: it ends well exactly if the
      token ends the generation under the final grammar, within the total budget, and the
      final text is UTF-8; each way of failing that the loop itself adds to the controller's
      is reported exactly under its condition on the input. */
  lemma TokenEndsExactly(m: Model, c: P.Config, g: Gen, token: Token)
    requires GenOk(c, g) && !g.terminal
    ensures var g1 := Absorb(m, c, g, token, |g.generated| + 1 == c.totalBudget);
            var eog, goes := m.isEog(token), GoesOn(Transition(m, c, g, token).1);
            var refusable := g.finalPhase && !eog && U.Refusable(g.finalBytes + m.piece(token));
            && (g1.failed ==> g1.terminal)
            && (g1.terminal && !g1.failed <==>
                  eog && g.finalPhase && |g.generated| + 1 <= c.totalBudget && U.WellFormed(g.finalBytes))
            && (g1.terminal && g1.error == "incomplete_utf8" <==>
                  eog && g.finalPhase && |g.generated| + 1 <= c.totalBudget && !U.WellFormed(g.finalBytes))
            && (g1.terminal && g1.error == "invalid_utf8" <==> goes && refusable)
            && (g1.terminal && g1.error == "total_budget_exhausted" <==>
                  goes && !refusable && |g.generated| + 1 == c.totalBudget)
            && (!g1.terminal <==> goes && !refusable && |g.generated| + 1 < c.totalBudget)
  {
    hide P.Consume;
    hide P.Counted;
    hide U.Tracks;
    hide Decoded;
    hide Piece;
    hide Transition;
    var g1 := Absorb(m, c, g, token, |g.generated| + 1 == c.totalBudget);
    FinalTextGrows(m, c, g, token);
    HeldBackIsRest(g);
    DecodedTracks(m, g, token);
    HeldBackIsRest(g1);
    TransitionCases(m, c, g, token);
    assert g.finalBytes + [] == g.finalBytes;
  }

  // ----- the tokens decide -----

  predicate NoEog(m: Model, tokens: seq<Token>) { forall k :: 0 <= k < |tokens| ==> !m.isEog(tokens[k]) }

  /** The final part of a token history: what comes after the end marker. */
  ghost function FinalPart(m: Model, tokens: seq<Token>): seq<Token>
    decreases |tokens|
  {
    if tokens == [] then []
    else
      var init := tokens[..|tokens| - 1];
      FinalPart(m, init) + if Seen(init, m.endMarker) then [tokens[|tokens| - 1]] else []
  }

  /** The bytes of some tokens, end-of-generation tokens apart. */
  function TextOf(m: Model, tokens: seq<Token>): seq<U.Byte>
    decreases |tokens|
  {
    if tokens == [] then []
    else
      var last := tokens[|tokens| - 1];
      TextOf(m, tokens[..|tokens| - 1]) + if m.isEog(last) then [] else m.piece(last)
  }

  ghost function FinalText(m: Model, tokens: seq<Token>): seq<U.Byte> { TextOf(m, FinalPart(m, tokens)) }

  /** Token `k` as the controller is told of it. */
  ghost function InputAt(m: Model, tokens: seq<Token>, k: nat): P.Input
    requires k < |tokens|
  {
    P.Input(tokens[k], m.isEog(tokens[k]), m.isEog(tokens[k]) && Seen(tokens[..k], m.endMarker))
  }

  ghost function InputsOf(m: Model, tokens: seq<Token>): (inputs: seq<P.Input>)
    ensures |inputs| == |tokens| && P.Tokens(inputs) == tokens
    ensures NoEnd(inputs) <==> NoEog(m, tokens)
  {
    seq(|tokens|, k requires 0 <= k < |tokens| => InputAt(m, tokens, k))
  }

  lemma InputsGrow(m: Model, tokens: seq<Token>, token: Token)
    ensures InputsOf(m, tokens + [token]) == InputsOf(m, tokens) + [InputAt(m, tokens + [token], |tokens|)]
    ensures InputAt(m, tokens + [token], |tokens|) == P.Input(token, m.isEog(token), m.isEog(token) && Seen(tokens, m.endMarker))
  {
    var longer := tokens + [token];
    assert longer[..|tokens|] == tokens;
    forall k | 0 <= k < |tokens|
      ensures InputAt(m, longer, k) == InputAt(m, tokens, k)
    {
      assert longer[..k] == tokens[..k];
    }
  }

  lemma FinalPartGrows(m: Model, tokens: seq<Token>, token: Token)
    ensures FinalPart(m, tokens + [token]) == FinalPart(m, tokens) + if Seen(tokens, m.endMarker) then [token] else []
    ensures FinalText(m, tokens + [token]) ==
              FinalText(m, tokens) + if Seen(tokens, m.endMarker) && !m.isEog(token) then m.piece(token) else []
  {
    var longer := tokens + [token];
    assert longer[..|longer| - 1] == tokens;
    if Seen(tokens, m.endMarker) {
      var part := FinalPart(m, longer);
      assert part[..|part| - 1] == FinalPart(m, tokens);
    } else {
      assert FinalPart(m, tokens) + [] == FinalPart(m, tokens);
      assert FinalText(m, tokens) + [] == FinalText(m, tokens);
    }
  }

  /** A generation may go on after these tokens. */
  ghost predicate StillGoing(m: Model, c: P.Config, tokens: seq<Token>) {
    NoEog(m, tokens) && Acceptable(c, tokens) && !U.Refusable(FinalText(m, tokens)) && |tokens| < c.totalBudget
  }

  /** Everything but the accumulator is read off the tokens. */
  ghost predicate ReadOff(m: Model, c: P.Config, g: Gen) {
    && g.phase == P.Run(c, InputsOf(m, g.generated)).state
    && g.accepted == FinalPart(m, g.generated) && g.finalBytes == FinalText(m, g.generated)
    && (!g.terminal ==> (g.finalPhase <==> Seen(g.generated, m.endMarker)))
  }

  /** How a generation stands after its tokens. */
  ghost predicate StandsAs(m: Model, c: P.Config, g: Gen) {
    if StillGoing(m, c, g.generated) then !g.terminal && !g.failed && g.error == ""
    else
      && g.generated != [] && g.terminal
      && var n := |g.generated| - 1;
         var before, last := g.generated[..n], g.generated[n];
         && StillGoing(m, c, before)
         && EndsAs(m, c, before, last, g)
  }

  /** How the token that ends a generation ends it. */
  ghost predicate EndsAs(m: Model, c: P.Config, before: seq<Token>, last: Token, g: Gen) {
    var eog, ended, text := m.isEog(last), Seen(before, m.endMarker), FinalText(m, before);
    var goes := !eog && Acceptable(c, before + [last]);
    var refusable := ended && !eog && U.Refusable(text + m.piece(last));
    && (!g.failed <==> eog && ended && U.WellFormed(text))
    && (g.error == "incomplete_utf8" <==> eog && ended && !U.WellFormed(text))
    && (g.error == "invalid_utf8" <==> goes && refusable)
    && (g.error == "total_budget_exhausted" <==> goes && !refusable && |before| + 1 == c.totalBudget)
    && (g.failed && !goes && !(eog && ended) ==>
          exists r :: Reports(c, before, P.Input(last, eog, eog && ended), r) && r.action == P.Failed && r.error == g.error)
  }

  lemma LiveReadOff(m: Model, c: P.Config, g: Gen)
    requires GenOk(c, g) && !g.terminal && ReadOff(m, c, g) && c.end == m.endMarker
    ensures Acceptable(c, g.generated) && NoEog(m, g.generated)
    ensures g.finalPhase <==> Seen(g.generated, m.endMarker)
  {
    hide P.Counted;
    hide U.Tracks;
    hide Acceptable;
    hide P.Run;
    LiveExactly(c, InputsOf(m, g.generated));
  }

  /** The controller's verdict on the next token, from the tokens. */
  lemma NextVerdict(m: Model, c: P.Config, g: Gen, token: Token)
    requires GenOk(c, g) && !g.terminal && ReadOff(m, c, g) && c.end == m.endMarker
    ensures var r := Transition(m, c, g, token).1;
            && Reports(c, g.generated, P.Input(token, m.isEog(token), m.isEog(token) && Seen(g.generated, m.endMarker)), r)
            && (GoesOn(r) <==> !m.isEog(token) && Acceptable(c, g.generated + [token]))
            && Transition(m, c, g, token).0 == P.Run(c, InputsOf(m, g.generated + [token])).state
  {
    hide P.Counted;
    hide U.Tracks;
    hide Acceptable;
    hide Reports;
    hide P.Run;
    hide P.Consume;
    LiveReadOff(m, c, g);
    var i := P.Input(token, m.isEog(token), m.isEog(token) && Seen(g.generated, m.endMarker));
    ReportsExactly(c, InputsOf(m, g.generated), i);
    Follows(c, g.generated, i, Transition(m, c, g, token).1);
    InputsGrow(m, g.generated, token);
    var inputs := InputsOf(m, g.generated + [token]);
    assert inputs[..|inputs| - 1] == InputsOf(m, g.generated);
    LastInput(c, inputs);
  }

  lemma AbsorbReadOff(m: Model, c: P.Config, g: Gen, token: Token, exhausted: bool)
    requires GenOk(c, g) && !g.terminal && ReadOff(m, c, g) && c.end == m.endMarker
    requires exhausted == (|g.generated| + 1 == c.totalBudget)
    ensures ReadOff(m, c, Absorb(m, c, g, token, exhausted))
  {
    hide P.Counted;
    hide U.Tracks;
    hide Transition;
    hide Decoded;
    hide FinalPart;
    hide FinalText;
    hide InputsOf;
    hide P.Run;
    hide Seen;
    LiveReadOff(m, c, g);
    NextVerdict(m, c, g, token);
    FinalPartGrows(m, g.generated, token);
    FinalTextGrows(m, c, g, token);
    assert g.accepted + [] == g.accepted && g.finalBytes + [] == g.finalBytes;
    AbsorbKeeps(m, c, g, token);
    PhaseAfter(m, c, Absorb(m, c, g, token, exhausted));
  }

  /** A generation that goes on is in the final phase exactly if the end marker was seen. */
  lemma PhaseAfter(m: Model, c: P.Config, g: Gen)
    requires GenOk(c, g) && c.end == m.endMarker && g.phase == P.Run(c, InputsOf(m, g.generated)).state
    ensures !g.terminal ==> (g.finalPhase <==> Seen(g.generated, m.endMarker))
  {
    hide P.Counted;
    hide U.Tracks;
    hide Acceptable;
    hide P.Run;
    LiveExactly(c, InputsOf(m, g.generated));
  }

  lemma AbsorbStands(m: Model, c: P.Config, g: Gen, token: Token, exhausted: bool)
    requires GenOk(c, g) && !g.terminal && ReadOff(m, c, g) && StandsAs(m, c, g) && c.end == m.endMarker
    requires exhausted == (|g.generated| + 1 == c.totalBudget)
    ensures StandsAs(m, c, Absorb(m, c, g, token, exhausted))
  {
    hide P.Counted;
    hide U.Tracks;
    hide Decoded;
    hide P.Run;
    hide Acceptable;
    hide Reports;
    hide InputsOf;
    hide FinalText;
    hide Transition;
    hide NoEog;
    hide Seen;
    hide GoesOn;
    var g1 := Absorb(m, c, g, token, exhausted);
    LiveReadOff(m, c, g);
    NextVerdict(m, c, g, token);
    TokenEndsExactly(m, c, g, token);
    FinalPartGrows(m, g.generated, token);
    OneMore(m, g.generated, token);
    assert FinalText(m, g.generated) + [] == FinalText(m, g.generated);
    assert g1.generated[..|g1.generated| - 1] == g.generated;
    ControllersError(m, c, g, token, exhausted);
  }

  lemma OneMore(m: Model, tokens: seq<Token>, token: Token)
    ensures NoEog(m, tokens + [token]) <==> NoEog(m, tokens) && !m.isEog(token)
  {
    var longer := tokens + [token];
    assert forall k :: 0 <= k < |tokens| ==> longer[k] == tokens[k];
    assert longer[|tokens|] == token;
  }

  /** A failure that is none of the loop's own is the controller's, with its code. */
  lemma ControllersError(m: Model, c: P.Config, g: Gen, token: Token, exhausted: bool)
    requires GenOk(c, g) && !g.terminal
    ensures var (g1, r) := (Absorb(m, c, g, token, exhausted), Transition(m, c, g, token).1);
            && (g1.failed && !GoesOn(r) && !(m.isEog(token) && g.finalPhase) ==> r.action == P.Failed && r.error == g1.error)
            && (!g1.terminal ==> !g1.failed && g1.error == "")
            && (g1.failed ==> g1.terminal)
            && (g1.terminal && !g1.failed ==> g1.error == "")
  {
    hide P.Consume;
    hide Decoded;
    TransitionCases(m, c, g, token);
  }

  /** The reference run of a job is read off its tokens at every point: controller state, the
      tokens the final grammar accepted and the final text; it goes on exactly while they are
      acceptable, and the token that ends it decides how. */
  lemma {:induction false} ReferenceReadOff(m: Model, r: Job, n: nat)
    requires r.totalTokens > 0
    ensures var g := Reference(m, r, n); ReadOff(m, PhaseConfig(m, r), g) && StandsAs(m, PhaseConfig(m, r), g)
    decreases n
  {
    hide Absorb;
    hide ReadOff;
    hide StandsAs;
    hide GenOk;
    if n == 0 {
      NothingYet(m, r);
    } else {
      ReferenceReadOff(m, r, n - 1);
      ReferenceOk(m, r, n - 1);
      var g := Reference(m, r, n - 1);
      if !g.terminal {
        var token := m.sample(Cells(r.prompt + g.generated), g.finalPhase, g.accepted, r.grammar);
        AbsorbReadOff(m, PhaseConfig(m, r), g, token, |g.generated| + 1 == r.totalTokens);
        AbsorbStands(m, PhaseConfig(m, r), g, token, |g.generated| + 1 == r.totalTokens);
      }
    }
  }

  lemma NothingYet(m: Model, r: Job)
    requires r.totalTokens > 0
    ensures ReadOff(m, PhaseConfig(m, r), NewGen(m, r)) && StandsAs(m, PhaseConfig(m, r), NewGen(m, r))
  {
    EmptyHistory(PhaseConfig(m, r));
    assert FinalText(m, []) == [];
    U.ScanBreaksExactly([]);
  }

  /** Every token was sampled from the memory of the prompt and the tokens before it, by the
      sampler the markers call for, which has accepted the final part so far. */
  ghost predicate SampledInTurn(m: Model, r: Job, tokens: seq<Token>) {
    forall k :: 0 <= k < |tokens| ==>
      tokens[k] == m.sample(Cells(r.prompt + tokens[..k]), Seen(tokens[..k], m.endMarker), FinalPart(m, tokens[..k]), r.grammar)
  }

  lemma SampledOneMore(m: Model, r: Job, tokens: seq<Token>, token: Token)
    requires SampledInTurn(m, r, tokens)
    requires token == m.sample(Cells(r.prompt + tokens), Seen(tokens, m.endMarker), FinalPart(m, tokens), r.grammar)
    ensures SampledInTurn(m, r, tokens + [token])
  {
    hide FinalPart;
    hide Seen;
    var longer := tokens + [token];
    forall k | 0 <= k < |longer|
      ensures longer[..k] == tokens[..k] && (k < |tokens| ==> longer[k] == tokens[k])
    {
    }
    assert tokens[..|tokens|] == tokens;
  }

  /** The tokens of the reference run are the one sequence sampled that way. */
  lemma {:induction false} ReferenceSamples(m: Model, r: Job, n: nat)
    requires r.totalTokens > 0
    ensures SampledInTurn(m, r, Reference(m, r, n).generated)
    decreases n
  {
    hide Absorb;
    hide StandsAs;
    hide GenOk;
    hide FinalPart;
    hide FinalText;
    assert SampledInTurn(m, r, []);
    hide SampledInTurn;
    if n > 0 {
      ReferenceSamples(m, r, n - 1);
      ReferenceReadOff(m, r, n - 1);
      var g := Reference(m, r, n - 1);
      if !g.terminal {
        var token := m.sample(Cells(r.prompt + g.generated), g.finalPhase, g.accepted, r.grammar);
        SampledOneMore(m, r, g.generated, token);
        Appends(m, PhaseConfig(m, r), g, token, |g.generated| + 1 == r.totalTokens);
      }
    }
  }

  lemma Appends(m: Model, c: P.Config, g: Gen, token: Token, exhausted: bool)
    ensures Absorb(m, c, g, token, exhausted).generated == g.generated + [token]
  {
  }

  /** The tokens make a generation that ended well. */
  ghost predicate EndsWell(m: Model, c: P.Config, tokens: seq<Token>) {
    && tokens != []
    && var before, last := tokens[..|tokens| - 1], tokens[|tokens| - 1];
       && StillGoing(m, c, before) && m.isEog(last) && Seen(before, m.endMarker) && U.WellFormed(FinalText(m, before))
  }

  /** The last token ends the generation after the end marker, but within a character. */
  ghost predicate EndsMidCharacter(m: Model, c: P.Config, tokens: seq<Token>) {
    && tokens != []
    && var before, last := tokens[..|tokens| - 1], tokens[|tokens| - 1];
       && StillGoing(m, c, before) && m.isEog(last) && Seen(before, m.endMarker) && !U.WellFormed(FinalText(m, before))
  }

  /** The last token is one the controller accepts, and makes the final text no UTF-8. */
  ghost predicate EndsInBadText(m: Model, c: P.Config, tokens: seq<Token>) {
    && tokens != []
    && StillGoing(m, c, tokens[..|tokens| - 1]) && NoEog(m, tokens) && Acceptable(c, tokens) && U.Refusable(FinalText(m, tokens))
  }

  /** The tokens are all acceptable and use up the total budget. */
  ghost predicate EndsExhausted(m: Model, c: P.Config, tokens: seq<Token>) {
    && NoEog(m, tokens) && Acceptable(c, tokens) && !U.Refusable(FinalText(m, tokens)) && |tokens| == c.totalBudget
  }

  lemma GoingHasNotEnded(m: Model, c: P.Config, tokens: seq<Token>)
    requires StillGoing(m, c, tokens)
    ensures !EndsWell(m, c, tokens) && !EndsMidCharacter(m, c, tokens)
    ensures !EndsInBadText(m, c, tokens) && !EndsExhausted(m, c, tokens)
  {
    hide Acceptable;
    hide FinalText;
  }

  /** How it stands, by the four ways of ending the loop itself knows. */
  lemma EndedOne(m: Model, c: P.Config, before: seq<Token>, last: Token, g: Gen)
    requires StillGoing(m, c, before) && EndsAs(m, c, before, last, g)
    ensures var tokens := before + [last];
            && (!g.failed <==> EndsWell(m, c, tokens))
            && (g.error == "incomplete_utf8" <==> EndsMidCharacter(m, c, tokens))
            && (g.error == "invalid_utf8" <==> EndsInBadText(m, c, tokens))
            && (g.error == "total_budget_exhausted" <==> EndsExhausted(m, c, tokens))
  {
    hide Acceptable;
    hide Reports;
    hide FinalText;
    hide NoEog;
    hide Seen;
    hide U.WellFormed;
    hide U.Refusable;
    var tokens := before + [last];
    assert tokens[..|tokens| - 1] == before;
    OneMore(m, before, last);
    FinalPartGrows(m, before, last);
    assert FinalText(m, before) + [] == FinalText(m, before);
  }

  /** How a generation stands, by the conditions of that name. */
  lemma StandsEnds(m: Model, c: P.Config, g: Gen)
    requires StandsAs(m, c, g) && (g.failed ==> g.terminal)
    ensures !g.terminal <==> StillGoing(m, c, g.generated)
    ensures g.terminal && !g.failed <==> EndsWell(m, c, g.generated)
    ensures g.terminal && g.error == "incomplete_utf8" <==> EndsMidCharacter(m, c, g.generated)
    ensures g.terminal && g.error == "invalid_utf8" <==> EndsInBadText(m, c, g.generated)
    ensures g.terminal && g.error == "total_budget_exhausted" <==> EndsExhausted(m, c, g.generated)
  {
    hide Acceptable;
    hide Reports;
    hide FinalText;
    hide StillGoing;
    hide EndsAs;
    hide EndsWell;
    hide EndsMidCharacter;
    hide EndsInBadText;
    hide EndsExhausted;
    if StillGoing(m, c, g.generated) {
      GoingHasNotEnded(m, c, g.generated);
    } else {
      var k := |g.generated| - 1;
      assert g.generated == g.generated[..k] + [g.generated[k]];
      EndedOne(m, c, g.generated[..k], g.generated[k], g);
    }
  }

  lemma FailedHasEnded(c: P.Config, g: Gen)
    requires GenOk(c, g)
    ensures g.failed ==> g.terminal
  {
  }

  /** How the reference run stands, on its tokens: it goes on, ended well, or ended in one of
      the loop's own failures, exactly under the condition of that name; what ended well has
      handed out the final text. */
  lemma ReferenceStands(m: Model, r: Job, n: nat)
    requires r.totalTokens > 0
    ensures var (c, g) := (PhaseConfig(m, r), Reference(m, r, n));
            && (!g.terminal <==> StillGoing(m, c, g.generated))
            && (g.terminal && !g.failed <==> EndsWell(m, c, g.generated))
            && (g.terminal && g.error == "incomplete_utf8" <==> EndsMidCharacter(m, c, g.generated))
            && (g.terminal && g.error == "invalid_utf8" <==> EndsInBadText(m, c, g.generated))
            && (g.terminal && g.error == "total_budget_exhausted" <==> EndsExhausted(m, c, g.generated))
            && (EndsWell(m, c, g.generated) ==> g.deltas == FinalText(m, g.generated))
  {
    hide FinalText;
    hide StillGoing;
    hide StandsAs;
    hide EndsWell;
    hide EndsMidCharacter;
    hide EndsInBadText;
    hide EndsExhausted;
    hide GenOk;
    hide Reference;
    var (c, g) := (PhaseConfig(m, r), Reference(m, r, n));
    ReferenceReadOff(m, r, n);
    ReferenceOk(m, r, n);
    FailedHasEnded(c, g);
    StandsEnds(m, c, g);
    if EndsWell(m, c, g.generated) { FinishedTextIsDelivered(c, g); }
  }
}
