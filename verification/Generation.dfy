module Generation {
  // One generation, apart from where its memory lives: what the decode loop of
  // native/inference_runtime_main.cpp does with a sampled token, and the reference run of a
  // request that is decoded alone, uncached and in one piece.

  import opened Basics
  import opened KvMemory
  import P = PhaseController
  import U = Utf8

  /** The loaded model. `sample` stands for logits plus sampler: a function of the memory
      the token was decoded into, of the sampler in use (`final` once the grammar is active),
      of the tokens that sampler has accepted and of the request's grammar. */
  datatype Model = Model(
    sample: (seq<Cell>, bool, seq<Token>, string) -> Token,
    isEog: Token -> bool,
    piece: Token -> seq<U.Byte>,
    startMarker: seq<Token>, endMarker: seq<Token>)

  /** What is to be generated: the tokenized prompt, the final grammar and the budgets. */
  datatype Job = Job(prompt: seq<Token>, grammar: string, totalTokens: nat, reasoningTokens: nat, finalTokens: nat)

  function PhaseConfig(m: Model, r: Job): P.Config {
    P.Config(m.startMarker, m.endMarker, r.reasoningTokens, r.finalTokens, r.totalTokens, true)
  }

  /** `generated` and `deltas` are history: all tokens sampled and all text handed out. */
  datatype Gen = Gen(
    phase: P.Controller, utf8: U.Acc, finalPhase: bool, accepted: seq<Token>,
    finalBytes: seq<U.Byte>, deltas: seq<U.Byte>, generated: seq<Token>,
    terminal: bool, failed: bool, error: string)

  function NewGen(m: Model, r: Job): Gen {
    Gen(P.Initial(PhaseConfig(m, r)), U.Fresh, false, [], [], [], [], false, false, "")
  }

  /** The bytes a sampled token adds to the final text. */
  function Piece(m: Model, g: Gen, token: Token): seq<U.Byte> {
    if g.phase.phase == P.Final && !m.isEog(token) then m.piece(token) else []
  }

  /** `append` is called only for tokens of the final part. */
  function Decoded(m: Model, g: Gen, token: Token): U.Fed {
    if g.phase.phase == P.Final && !m.isEog(token) then U.Feed(g.utf8, m.piece(token)) else U.Fed(g.utf8, [])
  }

  function Transition(m: Model, c: P.Config, g: Gen, token: Token): (P.Controller, P.Result) {
    var eog := m.isEog(token);
    P.Consume(c, g.phase, P.Input(token, eog, eog && g.finalPhase))
  }

  datatype Ending = Goes | Fails(error: string) | Stops

  /** How the loop body leaves the sequence: the checks in their order, later errors winning
      over the UTF-8 error. */
  function EndingOf(r: P.Result, utf8: U.Acc, exhausted: bool): Ending {
    if r.action == P.Failed then Fails(r.error)
    else if !utf8.valid then Fails("invalid_utf8")
    else if r.action == P.Completed then
      if U.Finished(utf8) then Stops else Fails("incomplete_utf8")
    else if exhausted then Fails("total_budget_exhausted")
    else Goes
  }

  /** The loop body after sampling `token`; `exhausted` tells whether the engine's decode
      budget is used up by it. */
  function Absorb(m: Model, c: P.Config, g: Gen, token: Token, exhausted: bool): Gen {
    var (phase, r) := Transition(m, c, g, token);
    var fed := Decoded(m, g, token);
    var end := EndingOf(r, fed.acc, exhausted);
    Gen(phase, fed.acc,
        g.finalPhase || r.action == P.ActivateFinalGrammar,
        if g.finalPhase then g.accepted + [token] else g.accepted,
        g.finalBytes + Piece(m, g, token), g.deltas + fed.completed, g.generated + [token],
        !end.Goes?, end.Fails?, if end.Fails? then end.error else "")
  }

  /** The reference: after the prompt, each token is sampled from a memory that holds the
      prompt and everything generated so far. */
  function Reference(m: Model, r: Job, n: nat): Gen
    decreases n
  {
    if n == 0 then NewGen(m, r)
    else
      var g := Reference(m, r, n - 1);
      if g.terminal then g
      else
        var token := m.sample(Cells(r.prompt + g.generated), g.finalPhase, g.accepted, r.grammar);
        Absorb(m, PhaseConfig(m, r), g, token, |g.generated| + 1 == r.totalTokens)
  }

  // ----- what holds along a generation -----

  ghost predicate GenOk(c: P.Config, g: Gen) {
    && P.Counted(c, g.phase, |g.generated|)
    && U.Tracks(U.Fed(g.utf8, g.deltas), g.finalBytes)
    && (!g.terminal ==>
          && P.Live(g.phase.phase) && g.utf8.valid && !g.failed
          && |g.generated| < c.totalBudget
          && (g.finalPhase <==> g.phase.phase == P.Final))
    && (g.terminal && !g.failed ==> g.phase.phase == P.Done && U.Finished(g.utf8))
  }

  lemma NewGenOk(m: Model, r: Job)
    requires r.totalTokens > 0
    ensures GenOk(PhaseConfig(m, r), NewGen(m, r))
  {
  }

  lemma DecodedTracks(m: Model, g: Gen, token: Token)
    requires U.Tracks(U.Fed(g.utf8, g.deltas), g.finalBytes)
    ensures var fed := Decoded(m, g, token);
            U.Tracks(U.Fed(fed.acc, g.deltas + fed.completed), g.finalBytes + Piece(m, g, token))
  {
    if g.phase.phase == P.Final && !m.isEog(token) {
      U.FeedTracks(U.Fed(g.utf8, g.deltas), g.finalBytes, m.piece(token));
    } else {
      assert g.deltas + [] == g.deltas && g.finalBytes + [] == g.finalBytes;
    }
  }

  lemma TransitionPhases(m: Model, c: P.Config, g: Gen, token: Token)
    requires P.Live(g.phase.phase)
    ensures var (now, r) := Transition(m, c, g, token);
            && (r.action == P.Failed <==> now.phase == P.Error)
            && (r.action == P.Completed <==> now.phase == P.Done)
            && (r.action == P.ActivateFinalGrammar ==> now.phase == P.Final)
            && (now.phase == P.Final ==> g.phase.phase == P.Final || r.action == P.ActivateFinalGrammar)
            && (P.Live(now.phase) && g.phase.phase == P.Final ==> now.phase == P.Final)
  {
  }

  lemma AbsorbCounts(m: Model, c: P.Config, g: Gen, token: Token)
    requires P.Counted(c, g.phase, |g.generated|)
    ensures P.Counted(c, Transition(m, c, g, token).0, |g.generated| + 1)
  {
    var eog := m.isEog(token);
    P.ConsumeCounts(c, g.phase, P.Input(token, eog, eog && g.finalPhase), |g.generated|);
  }

  lemma AbsorbKeeps(m: Model, c: P.Config, g: Gen, token: Token)
    requires GenOk(c, g) && !g.terminal
    ensures GenOk(c, Absorb(m, c, g, token, |g.generated| + 1 == c.totalBudget))
    ensures |Absorb(m, c, g, token, |g.generated| + 1 == c.totalBudget).generated| == |g.generated| + 1
  {
    hide P.Consume;
    hide P.Counted;
    hide U.Tracks;
    hide Decoded;
    hide Piece;
    AbsorbCounts(m, c, g, token);
    DecodedTracks(m, g, token);
    TransitionPhases(m, c, g, token);
  }

  lemma {:induction false} ReferenceOk(m: Model, r: Job, n: nat)
    requires r.totalTokens > 0
    ensures GenOk(PhaseConfig(m, r), Reference(m, r, n))
    ensures |Reference(m, r, n).generated| <= n
    ensures !Reference(m, r, n).terminal ==> |Reference(m, r, n).generated| == n
    decreases n
  {
    hide Absorb;
    hide GenOk;
    if n == 0 {
      NewGenOk(m, r);
    } else {
      ReferenceOk(m, r, n - 1);
      var g := Reference(m, r, n - 1);
      if !g.terminal {
        var token := m.sample(Cells(r.prompt + g.generated), g.finalPhase, g.accepted, r.grammar);
        AbsorbKeeps(m, PhaseConfig(m, r), g, token);
      }
    }
  }

  /** One run is a later stage of the other. */
  predicate Extends(later: Gen, earlier: Gen) {
    && earlier.generated <= later.generated
    && earlier.deltas <= later.deltas
    && (earlier.terminal ==> later == earlier)
  }

  lemma AbsorbExtends(m: Model, c: P.Config, g: Gen, token: Token, exhausted: bool)
    requires !g.terminal
    ensures Extends(Absorb(m, c, g, token, exhausted), g)
  {
  }

  lemma ReferenceStep(m: Model, r: Job, n: nat)
    ensures Extends(Reference(m, r, n + 1), Reference(m, r, n))
  {
    var g := Reference(m, r, n);
    if !g.terminal {
      var token := m.sample(Cells(r.prompt + g.generated), g.finalPhase, g.accepted, r.grammar);
      AbsorbExtends(m, PhaseConfig(m, r), g, token, |g.generated| + 1 == r.totalTokens);
    }
  }

  lemma ExtendsTransitive(a: Gen, b: Gen, c: Gen)
    requires Extends(c, b) && Extends(b, a)
    ensures Extends(c, a)
  {
  }

  /** Longer reference runs extend shorter ones, and nothing follows a terminal state. */
  lemma {:induction false} ReferenceGrows(m: Model, r: Job, a: nat, b: nat)
    requires a <= b
    ensures Extends(Reference(m, r, b), Reference(m, r, a))
    decreases b - a
  {
    if a < b {
      ReferenceStep(m, r, a);
      ReferenceGrows(m, r, a + 1, b);
      ExtendsTransitive(Reference(m, r, a), Reference(m, r, a + 1), Reference(m, r, b));
    }
  }

  /** Every generation is over within its total budget. */
  lemma ReferenceEnds(m: Model, r: Job)
    requires r.totalTokens > 0
    ensures Reference(m, r, r.totalTokens).terminal
  {
    ReferenceOk(m, r, r.totalTokens);
  }

  /** A finished generation has handed out exactly its final text, which is UTF-8. */
  lemma FinishedTextIsDelivered(c: P.Config, g: Gen)
    requires GenOk(c, g) && g.terminal && !g.failed
    ensures g.deltas == g.finalBytes && U.WellFormed(g.finalBytes)
  {
    U.ScanCompleteIffWellFormed(g.finalBytes);
  }
}
