/** Which jobs of the one-shot worker complete, and with what text, told by what their turns
    sample. */
module JobHistory {
  import opened Basics
  import opened FrameStream
  import opened PhaseHistory
  import P = PhaseController
  import U = Utf8

  // ----- what the turns sample -----

  /** The tokens of the first `n` turns. */
  function TokensOf(job: Job, n: nat): seq<Token>
    decreases n
  {
    if n == 0 then [] else TokensOf(job, n - 1) + if job.turns(n - 1).Samples? then [job.turns(n - 1).token] else []
  }

  /** Their final text: the pieces after the end marker. */
  ghost function TextOf(job: Job, n: nat): Bytes
    decreases n
  {
    if n == 0 then []
    else
      var turn := job.turns(n - 1);
      TextOf(job, n - 1) + if turn.Samples? && !turn.eog && Seen(TokensOf(job, n - 1), job.config.end) then turn.piece else []
  }

  /** Turn `k` goes on: it samples a token, not the end of the generation, that leaves the tokens
      acceptable and the final text such that it may still be UTF-8. */
  ghost predicate GoesOnAt(job: Job, k: nat) {
    job.turns(k).Samples? && !job.turns(k).eog && Acceptable(job.config, TokensOf(job, k + 1)) && !U.Refusable(TextOf(job, k + 1))
  }

  /** Nothing in the first `n` turns ends the job. */
  ghost predicate Good(job: Job, n: nat) { forall k: nat :: k < n ==> GoesOnAt(job, k) }

  /** Turn `k` completes the job: it ends the generation, within the budget and after the end
      marker, and the final text is UTF-8. */
  ghost predicate CompletesAt(job: Job, k: nat) {
    && Good(job, k) && job.turns(k).Samples? && job.turns(k).eog && k < job.config.totalBudget
    && Seen(TokensOf(job, k), job.config.end) && U.WellFormed(TextOf(job, k))
  }

  // ----- the loop at a turn -----

  ghost function InputAt(job: Job, k: nat): P.Input {
    var turn := job.turns(k);
    if turn.Samples? then P.Input(turn.token, turn.eog, turn.eog && Seen(TokensOf(job, k), job.config.end)) else P.Input(0, false, false)
  }

  ghost function InputsTo(job: Job, n: nat): (inputs: seq<P.Input>)
    ensures |inputs| == n
    decreases n
  {
    if n == 0 then [] else InputsTo(job, n - 1) + [InputAt(job, n - 1)]
  }

  lemma {:induction false} InputsAre(job: Job, n: nat)
    requires forall k: nat :: k < n ==> job.turns(k).Samples?
    ensures P.Tokens(InputsTo(job, n)) == TokensOf(job, n) && |TokensOf(job, n)| == n
    ensures (forall k: nat :: k < n ==> !job.turns(k).eog) ==> NoEnd(InputsTo(job, n))
    decreases n
  {
    hide P.Run;
    hide Seen;
    if n > 0 {
      hide P.Tokens;
      InputsAre(job, n - 1);
      InputsGrow(job, n - 1);
    }
  }

  lemma InputsGrow(job: Job, n: nat)
    ensures var all := InputsTo(job, n + 1);
            && P.Tokens(all) == P.Tokens(InputsTo(job, n)) + [InputAt(job, n).token]
            && (NoEnd(all) <==> NoEnd(InputsTo(job, n)) && !InputAt(job, n).eog)
            && P.Run(job.config, all).state == P.Consume(job.config, P.Run(job.config, InputsTo(job, n)).state, InputAt(job, n)).0
  {
    hide InputAt;
    hide P.Consume;
    hide P.Run;
    hide NoEnd;
    hide P.Tokens;
    var all := InputsTo(job, n + 1);
    assert all[..|all| - 1] == InputsTo(job, n) && all[|all| - 1] == InputAt(job, n);
    LastInput(job.config, all);
  }

  ghost predicate AtTurn(job: Job, g: Loop, n: nat) {
    && LoopOk(job, g) && Good(job, n)
    && g.phase == P.Run(job.config, InputsTo(job, n)).state
    && g.finalBytes == TextOf(job, n)
    && (g.finalSampler <==> Seen(TokensOf(job, n), job.config.end))
  }

  lemma GoodSoFar(job: Job, n: nat)
    requires Good(job, n)
    ensures Acceptable(job.config, TokensOf(job, n)) && !U.Refusable(TextOf(job, n))
    ensures P.Tokens(InputsTo(job, n)) == TokensOf(job, n) && |TokensOf(job, n)| == n && NoEnd(InputsTo(job, n))
  {
    hide Acceptable;
    hide NoEnd;
    hide P.Tokens;
    hide TokensOf;
    hide TextOf;
    hide InputsTo;
    hide U.Refusable;
    if n == 0 { GoodAtStart(job); } else { assert GoesOnAt(job, n - 1); }
    forall k: nat | k < n
      ensures job.turns(k).Samples? && !job.turns(k).eog
    {
      assert GoesOnAt(job, k);
    }
    InputsAre(job, n);
  }

  lemma GoodAtStart(job: Job)
    ensures Acceptable(job.config, TokensOf(job, 0)) && !U.Refusable(TextOf(job, 0))
  {
    EmptyHistory(job.config);
    U.ScanBreaksExactly([]);
  }

  lemma PhaseAt(job: Job, g: Loop, n: nat)
    requires AtTurn(job, g, n)
    ensures P.Live(g.phase.phase) && g.phase.sampled == n == |TokensOf(job, n)|
    ensures g.phase.phase == P.Final <==> Seen(TokensOf(job, n), job.config.end)
  {
    hide Acceptable;
    hide P.Run;
    hide LoopOk;
    hide TokensOf;
    hide InputsTo;
    GoodSoFar(job, n);
    hide NoEnd;
    hide P.Tokens;
    hide Good;
    LiveExactly(job.config, InputsTo(job, n));
  }

  /** The controller's verdict on the next turn, from what was sampled. */
  lemma VerdictAt(job: Job, g: Loop, n: nat)
    requires AtTurn(job, g, n) && job.turns(n).Samples? && n < job.config.totalBudget
    ensures var turn := job.turns(n);
            var (now, r) := P.Consume(job.config, g.phase, P.Input(turn.token, turn.eog, turn.eog && g.finalSampler));
            && now == P.Run(job.config, InputsTo(job, n + 1)).state
            && (r.action == P.Completed <==> turn.eog && Seen(TokensOf(job, n), job.config.end))
            && (GoesOn(r) <==> !turn.eog && Acceptable(job.config, TokensOf(job, n + 1)))
            && (r.action == P.Completed <==> now.phase == P.Done)
            && (GoesOn(r) <==> r.action != P.Failed && r.action != P.Completed)
  {
    hide Acceptable;
    hide Reports;
    hide P.Run;
    hide P.Consume;
    hide LoopOk;
    hide Seen;
    hide InputsTo;
    hide P.Tokens;
    hide NoEnd;
    hide GoesOn;
    hide TextOf;
    PhaseAt(job, g, n);
    GoodSoFar(job, n);
    hide Good;
    InputsGrow(job, n);
    var i := InputAt(job, n);
    assert TokensOf(job, n + 1) == TokensOf(job, n) + [i.token];
    ReportsExactly(job.config, InputsTo(job, n), i);
    var r := P.Consume(job.config, g.phase, i).1;
    Follows(job.config, TokensOf(job, n), i, r);
    ReportsCompletion(job.config, TokensOf(job, n), i, r);
    CompletedMeansDone(job.config, g.phase, i);
    ThreeWays(job.config, g.phase, i);
  }

  lemma ThreeWays(c: P.Config, s: P.Controller, i: P.Input)
    ensures var r := P.Consume(c, s, i).1; GoesOn(r) <==> r.action != P.Failed && r.action != P.Completed
  {
  }

  /** The final text held and handed out breaks exactly if it cannot become UTF-8. */
  lemma TextBreaks(job: Job, frames: seq<Frame>, utf8: U.Acc, finalBytes: Bytes, piece: Bytes)
    requires TextOk(utf8, frames, finalBytes)
    ensures Texted(job, frames, utf8, piece).1.valid <==> !U.Refusable(finalBytes + piece)
    ensures U.Finished(utf8) <==> U.WellFormed(finalBytes)
  {
    U.FeedTracks(U.Fed(utf8, Deltas(frames)), finalBytes, piece);
    U.ScanBreaksExactly(finalBytes + piece);
    U.ScanCompleteIffWellFormed(finalBytes);
  }

  /** Before the end marker there is no final text. */
  lemma FinalSampler(job: Job, g: Loop, n: nat)
    requires AtTurn(job, g, n) && job.turns(n).Samples? && n < job.config.totalBudget && !job.turns(n).eog
    requires Acceptable(job.config, TokensOf(job, n + 1))
    ensures var turn := job.turns(n);
            var r := P.Consume(job.config, g.phase, P.Input(turn.token, turn.eog, turn.eog && g.finalSampler)).1;
            Seen(TokensOf(job, n + 1), job.config.end) <==> g.finalSampler || r.action == P.ActivateFinalGrammar
  {
    hide P.Consume;
    hide Acceptable;
    hide P.Run;
    hide LoopOk;
    hide Seen;
    hide InputsTo;
    hide P.Tokens;
    hide NoEnd;
    hide TextOf;
    VerdictAt(job, g, n);
    PhaseAt(job, g, n);
    GoodSoFar(job, n);
    hide Good;
    InputsGrow(job, n);
    var i := InputAt(job, n);
    assert TokensOf(job, n + 1) == TokensOf(job, n) + [i.token];
    ConsumePhases(job.config, g.phase, i);
    LiveExactly(job.config, InputsTo(job, n + 1));
  }

  /** One turn of the loop, told by what it samples: it throws exactly if it does not sample, or
      ends the generation too early, or samples what is not acceptable. */
  lemma TurnExactly(job: Job, g: Loop, n: nat)
    requires AtTurn(job, g, n) && n < job.config.totalBudget
    ensures var ((g1, thrown), turn) := (OneTurn(job, g, job.turns(n)), job.turns(n));
            && (thrown.None? ==> turn.Samples?)
            && (turn.Samples? && turn.eog ==> (thrown.None? <==> Seen(TokensOf(job, n), job.config.end)))
            && (thrown.None? && turn.eog ==> g1.phase.phase == P.Done && g1.finalBytes == g.finalBytes && g1.utf8 == g.utf8)
            && (turn.Samples? && !turn.eog ==> (thrown.None? <==> GoesOnAt(job, n)) && (thrown.None? ==> AtTurn(job, g1, n + 1)))
  {
    var turn := job.turns(n);
    if turn.Samples? {
      if turn.eog { LastTurn(job, g, n); } else { NextTurn(job, g, n); }
    }
  }

  lemma LastTurn(job: Job, g: Loop, n: nat)
    requires AtTurn(job, g, n) && n < job.config.totalBudget && job.turns(n).Samples? && job.turns(n).eog
    ensures var (g1, thrown) := OneTurn(job, g, job.turns(n));
            && (thrown.None? <==> Seen(TokensOf(job, n), job.config.end))
            && (thrown.None? ==> g1.phase.phase == P.Done && g1.finalBytes == g.finalBytes && g1.utf8 == g.utf8)
  {
    hide Acceptable;
    hide P.Run;
    hide P.Consume;
    hide Seen;
    hide Transitioned;
    hide GoesOn;
    VerdictAt(job, g, n);
    LoopHas(job, g);
    hide LoopOk;
    hide TextOk;
  }

  lemma NextTurn(job: Job, g: Loop, n: nat)
    requires AtTurn(job, g, n) && n < job.config.totalBudget && job.turns(n).Samples? && !job.turns(n).eog
    ensures var (g1, thrown) := OneTurn(job, g, job.turns(n));
            (thrown.None? <==> GoesOnAt(job, n)) && (thrown.None? ==> AtTurn(job, g1, n + 1))
  {
    hide Acceptable;
    hide P.Run;
    hide P.Consume;
    hide Seen;
    hide Texted;
    hide Transitioned;
    hide GoesOn;
    hide InputsTo;
    hide TokensOf;
    hide U.Refusable;
    var turn := job.turns(n);
    PhaseAt(job, g, n);
    VerdictAt(job, g, n);
    GoodSoFar(job, n);
    GoodGrows(job, n);
    hide Good;
    LoopHas(job, g);
    OneTurnOk(job, g, turn);
    TextBreaks(job, g.frames, g.utf8, g.finalBytes, turn.piece);
    hide LoopOk;
    hide TextOk;
    assert g.finalBytes + [] == g.finalBytes;
    if Acceptable(job.config, TokensOf(job, n + 1)) { FinalSampler(job, g, n); }
  }

  lemma GoodGrows(job: Job, n: nat)
    ensures Good(job, n + 1) <==> Good(job, n) && GoesOnAt(job, n)
  {
    hide GoesOnAt;
  }

  lemma LoopHas(job: Job, g: Loop)
    requires LoopOk(job, g)
    ensures TextOk(g.utf8, g.frames, g.finalBytes) && g.utf8.valid
  {
  }

  /** The loop from turn `n` on finishes exactly if some turn completes the job, with the text
      up to it. */
  lemma {:induction false} GeneratedExactly(job: Job, g: Loop, n: nat)
    requires AtTurn(job, g, n)
    ensures forall text :: Generated(job, g, n).1 == Finished(text) <==> exists k: nat :: n <= k && CompletesAt(job, k) && text == TextOf(job, k)
    decreases if g.phase.sampled < job.config.totalBudget then job.config.totalBudget - g.phase.sampled else 0
  {
    hide LoopOk;
    hide OneTurn;
    hide Seen;
    hide P.Run;
    hide Acceptable;
    PhaseAt(job, g, n);
    TextAt(job, g, n);
    GoodGrows(job, n);
    hide AtTurn;
    hide Good;
    if n < job.config.totalBudget {
      TurnExactly(job, g, n);
      var (g1, thrown) := OneTurn(job, g, job.turns(n));
      if thrown.Some? {
        NoneLater(job, n);
      } else if job.turns(n).eog {
        NoneLater(job, n);
        assert Generated(job, g, n) == Generated(job, g1, n + 1);
        assert U.Finished(g1.utf8) <==> CompletesAt(job, n);
      } else {
        TurnCounts(job, g, job.turns(n));
        GeneratedExactly(job, g1, n + 1);
        assert !CompletesAt(job, n);
      }
    }
  }

  lemma TextAt(job: Job, g: Loop, n: nat)
    requires AtTurn(job, g, n)
    ensures Good(job, n) && g.finalBytes == TextOf(job, n) && (U.Finished(g.utf8) <==> U.WellFormed(TextOf(job, n)))
  {
    LoopHas(job, g);
    TextBreaks(job, g.frames, g.utf8, g.finalBytes, []);
  }

  /** A turn that stops the loop, or ends the generation, has none after it. */
  lemma NoneLater(job: Job, n: nat)
    requires Good(job, n) && !Good(job, n + 1)
    ensures forall k: nat :: k > n ==> !CompletesAt(job, k)
  {
    forall k: nat | k > n
      ensures !Good(job, k)
    {
      hide GoesOnAt;
      assert Good(job, k) ==> forall j: nat :: j < n + 1 ==> GoesOnAt(job, j);
    }
  }

  lemma {:induction false} PromptExactly(job: Job, frames: seq<Frame>, k: nat, decoded: nat)
    requires k <= |job.prompt|
    ensures Prompted(job, frames, k, decoded).1.None? <==> forall j :: k <= j < |job.prompt| ==> job.prompt[j].Decodes?
    decreases |job.prompt| - k
  {
    if k < |job.prompt| && job.prompt[k].Decodes? {
      PromptExactly(job, Emitted(job, frames, Progress("prompt_decode", decoded + job.prompt[k].count)), k + 1, decoded + job.prompt[k].count);
    }
  }

  /** A job's last frame is a completion with a text exactly if nothing threw before the loop and
      some turn completes the job with that text. */
  lemma JobCompletesExactly(job: Job, text: Bytes)
    ensures var frames := JobFrames(job);
            && frames != []
            && (frames[|frames| - 1].body == Completed(text) <==>
                  && job.setup.None? && (forall j :: 0 <= j < |job.prompt| ==> job.prompt[j].Decodes?) && job.begin.None?
                  && exists k: nat :: CompletesAt(job, k) && text == TextOf(job, k))
  {
    hide Generated;
    hide Prompted;
    hide CompletesAt;
    hide TextOf;
    hide Going;
    hide HasPhase;
    hide Deltas;
    hide AtTurn;
    var start := Emitted(job, [], Started);
    StartOk(job);
    PromptExactly(job, start, 0, 0);
    PromptedOk(job, start, 0, 0);
    var (frames, thrown) := Prompted(job, start, 0, 0);
    StartsAtTurn(job, frames);
    GeneratedExactly(job, StartLoop(job, frames), 0);
    LastOf(job);
    hide JobFrames;
    assert Generated(job, StartLoop(job, frames), 0).1 == Finished(text) <==>
        exists k: nat :: 0 <= k && CompletesAt(job, k) && text == TextOf(job, k);
  }

  lemma LastOf(job: Job)
    ensures var (frames, outcome) := (JobFrames(job), Generation(job, Emitted(job, [], Started)).1);
            frames != [] && forall text :: frames[|frames| - 1].body == Completed(text) <==> outcome == Finished(text)
  {
    hide Generation;
  }

  /** A job that does not complete ends in a failure with the message thrown, under the code that
      message stands for; what is thrown before the loop is what it ends with. */
  lemma {:induction false} FailureCodes(job: Job)
    ensures var frames := JobFrames(job);
            && frames != [] && var last := frames[|frames| - 1].body;
               && (last.Completed? || last.Failed?)
               && (last.Failed? ==>
                     && (last.error == "cancelled" <==> last.detail == "cancelled")
                     && (last.error == "context_overflow" <==> last.detail == "context_overflow")
                     && (last.error == "protocol_violation" <==> |last.detail| >= 18 && last.detail[..18] == "protocol_violation")
                     && (last.error == "decode_failed" <==>
                           last.error !in {"cancelled", "context_overflow", "protocol_violation"}))
               && (job.setup.Some? ==> last.Failed? && last.detail == job.setup.value)
  {
    hide Generated;
    hide Prompted;
    var frames := JobFrames(job);
    var outcome := Generation(job, Emitted(job, [], Started)).1;
    assert frames[|frames| - 1].body == LastFrame(outcome);
    hide Generation;
    if outcome.Thrown? { CodeOf(outcome.message); }
  }

  lemma {:induction false} CodeOf(message: string)
    ensures var code := ErrorCode(message);
            && (code == "cancelled" <==> message == "cancelled")
            && (code == "context_overflow" <==> message == "context_overflow")
            && (code == "protocol_violation" <==> |message| >= 18 && message[..18] == "protocol_violation")
            && (code == "decode_failed" <==> code !in {"cancelled", "context_overflow", "protocol_violation"})
  {
    assert |"protocol_violation"| == 18;
    if |message| >= 18 && message[..18] == "protocol_violation" {
      assert message[0] == "protocol_violation"[0];
    }
  }

  lemma StartsAtTurn(job: Job, frames: seq<Frame>)
    requires Going(job, frames) && !HasPhase(frames) && Deltas(frames) == []
    ensures AtTurn(job, StartLoop(job, frames), 0)
  {
    TextStarts(frames);
    InStepAtStart(job.config, frames);
    hide Going;
    hide TextOk;
    hide InStep;
    assert P.Run(job.config, []).state == P.Initial(job.config);
    assert !Seen([], job.config.end);
  }
}
