/** What a client may conclude from the tokens of a sequence, in every reached state of the
    native runtime: whether the sequence is still going, and if not, how it ended. */
module RuntimeEndings {
  import opened Basics
  import opened KvMemory
  import opened Generation
  import opened GenerationHistory
  import opened NativeRuntime
  import opened RuntimeTransparency
  import P = PhaseController
  import E = SlotEngine
  import C = PromptCache

  /** The sequence stands as its tokens say: each was sampled from prompt and output before it;
      it decodes exactly while the tokens are acceptable, and has stopped exactly if they end
      well, having handed out the final text; every other ending is a failure, under the code
      of its condition. */
  ghost predicate StandsByTokens(m: Model, slot: E.Slot, s: Sequence) {
    var (c, g, tokens) := (PhaseConfig(m, s.request.job), s.gen, s.gen.generated);
    && SampledInTurn(m, s.request.job, tokens)
    && (slot.lifecycle == E.Decode <==> StillGoing(m, c, tokens))
    && (slot.lifecycle == E.Terminal && slot.reason == E.Stop <==> EndsWell(m, c, tokens))
    && (EndsWell(m, c, tokens) ==> !g.failed && g.deltas == g.finalBytes == FinalText(m, tokens))
    && (slot.lifecycle == E.Terminal && slot.reason == E.Failure <==> g.failed)
    && (g.failed && g.error == "incomplete_utf8" <==> EndsMidCharacter(m, c, tokens))
    && (g.failed && g.error == "invalid_utf8" <==> EndsInBadText(m, c, tokens))
    && (g.failed && g.error == "total_budget_exhausted" <==> EndsExhausted(m, c, tokens))
  }

  lemma LaneStands(m: Model, i: nat, lane: Lane)
    requires LaneOk(m, i, lane) && lane.owner.Some? && lane.slot.lifecycle in {E.Decode, E.Terminal}
    ensures StandsByTokens(m, lane.slot, lane.owner.value)
  {
    hide SampledInTurn;
    hide StillGoing;
    hide EndsWell;
    hide EndsMidCharacter;
    hide EndsInBadText;
    hide EndsExhausted;
    hide FinalText;
    hide StandsAs;
    hide GenOk;
    hide Reference;
    var s := lane.owner.value;
    var n := |s.gen.generated|;
    OwnerOnReference(m, i, lane);
    ReferenceOk(m, s.request.job, n);
    ReferenceStands(m, s.request.job, n);
    ReferenceReadOff(m, s.request.job, n);
    ReferenceSamples(m, s.request.job, n);
    FailedIsOver(m, s.request.job, n);
  }

  lemma FailedIsOver(m: Model, r: Job, n: nat)
    requires r.totalTokens > 0
    ensures var g := Reference(m, r, n);
            && (g.failed ==> g.terminal) && (!g.failed ==> g.error == "")
  {
    if n > 0 && Reference(m, r, n - 1).terminal { FailedIsOver(m, r, n - 1); }
    if n > 0 {
      ReferenceOk(m, r, n - 1);
    }
  }

  /** In every state reached by clean commands, each sequence past its prompt stands by its
      tokens. */
  lemma EndsByTokens(m: Model, st: Settings, start: Runtime, cmds: seq<Command>, rt: Runtime,
                     slots: nat, capacity: nat, cache: C.Cache, i: nat)
    requires FreshStart(start, slots, capacity, cache) && Reaches(m, st, start, cmds, rt)
    requires i < |rt.seqs| == |rt.engine.slots| && rt.seqs[i].Some? && rt.engine.slots[i].lifecycle != E.Prefill
    ensures StandsByTokens(m, rt.engine.slots[i], rt.seqs[i].value)
  {
    hide StandsByTokens;
    hide Reaches;
    ReachedOk(m, st, start, cmds, rt, slots, capacity, cache);
    assert LaneOk(m, i, LaneAt(rt, i));
    LaneStands(m, i, LaneAt(rt, i));
  }
}
