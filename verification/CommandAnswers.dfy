/** Which prefill and decode commands the native runtime takes, and how far each takes the
    sequences it names. */
module CommandAnswers {
  import opened Basics
  import opened KvMemory
  import opened Generation
  import opened NativeRuntime
  import opened RuntimeSteps
  import opened RuntimeTransparency
  import E = SlotEngine
  import C = PromptCache

  // ----- decode_batch -----

  /** The quantum names the owner of its slot, by its generation, and that one is decoding. */
  predicate NamesDecoding(rt: Runtime, q: Quantum) {
    && q.slot < |rt.seqs| && q.slot < |rt.engine.slots| && rt.seqs[q.slot].Some?
    && rt.seqs[q.slot].value.handle.generation == q.generation && rt.engine.slots[q.slot].lifecycle.Decode?
  }

  /** Tokens granted by the first `n` quanta. */
  function Granted(quanta: seq<Quantum>, n: nat): nat
    requires n <= |quanta|
  {
    if n == 0 then 0 else Granted(quanta, n - 1) + quanta[n - 1].budget
  }

  predicate MayDecode(st: Settings, rt: Runtime, quanta: seq<Quantum>) {
    && 1 <= |quanta| <= st.maxDecodeBatch
    && (forall k :: 0 <= k < |quanta| ==> NamesDecoding(rt, quanta[k]) && 1 <= quanta[k].budget <= st.decodeQuantum)
    && (forall j, k :: 0 <= j < k < |quanta| ==> quanta[j].slot != quanta[k].slot)
    && Granted(quanta, |quanta|) <= st.tickBudget
  }

  /** The sequence has gone on by its budget, or by less and ended. */
  predicate WentOn(lane: Lane, lane1: Lane, budget: nat) {
    && lane.owner.Some? && lane1.owner.Some?
    && var (s, s1) := (lane.owner.value, lane1.owner.value);
       && s1.request == s.request && s1.handle == s.handle
       && s.gen.generated <= s1.gen.generated && s.gen.deltas <= s1.gen.deltas
       && var n := |s1.gen.generated| - |s.gen.generated|;
          1 <= n <= budget && (n < budget ==> lane1.slot.lifecycle.Terminal?)
  }

  lemma {:induction false} GrantedIsTotal(quanta: seq<Quantum>, n: nat)
    requires n <= |quanta|
    ensures TotalBudget(quanta[..n]) == Granted(quanta, n)
    decreases n
  {
    if n > 0 {
      GrantedIsTotal(quanta, n - 1);
      assert quanta[..n][..n - 1] == quanta[..n - 1];
    }
  }

  /** A sequence that is decoding has not ended. */
  lemma {:induction false} DecodingGoesOn(m: Model, rt: Runtime, q: Quantum)
    requires RuntimeOk(m, rt)
    ensures QuantumOk(rt, q) <==> NamesDecoding(rt, q)
  {
    hide C.WellKept;
    hide E.LedgerHolds;
    if NamesDecoding(rt, q) { assert LaneOk(m, q.slot, LaneAt(rt, q.slot)); }
  }

  lemma {:induction false} DecodeTaken(m: Model, st: Settings, rt: Runtime, quanta: seq<Quantum>)
    requires RuntimeOk(m, rt)
    ensures DecodeAccepted(st, rt, quanta) <==> MayDecode(st, rt, quanta)
  {
    hide C.WellKept;
    hide E.LedgerHolds;
    hide LaneOk;
    assert Shape(rt);
    forall k | 0 <= k < |quanta|
      ensures QuantumOk(rt, quanta[k]) <==> NamesDecoding(rt, quanta[k])
    {
      DecodingGoesOn(m, rt, quanta[k]);
    }
    GrantedIsTotal(quanta, |quanta|);
    assert quanta[..|quanta|] == quanta;
    hide QuantumOk;
    hide NamesDecoding;
  }

  lemma {:induction false} BudgetFound(quanta: seq<Quantum>, k: nat)
    requires k < |quanta| && DistinctQuanta(quanta)
    ensures BudgetOf(quanta, quanta[k].slot) == quanta[k].budget
    decreases |quanta|
  {
    var n := |quanta| - 1;
    if k < n {
      assert quanta[n].slot != quanta[k].slot;
      BudgetFound(quanta[..n], k);
    }
  }

  lemma {:induction false} RoundsGoOn(m: Model, i: nat, lane: Lane, budget: nat)
    requires LaneOk(m, i, lane) && lane.owner.Some? && lane.slot.lifecycle.Decode? && budget > 0
    ensures WentOn(lane, DecodeRounds(m, lane, budget), budget)
  {
    OutcomeInBounds(m, i, lane, budget);
    DecodeRoundsOk(m, i, lane, budget);
    RoundsKeepOwner(m, lane, budget);
    hide DecodeRounds;
    hide Reference;
  }

  lemma {:induction false} RoundKeepsOwner(m: Model, lane: Lane)
    requires lane.owner.Some?
    ensures var s1 := DecodeLane(m, lane).owner.value;
            s1.request == lane.owner.value.request && s1.handle == lane.owner.value.handle
  {
    hide Absorb;
  }

  lemma {:induction false} RoundsKeepOwner(m: Model, lane: Lane, n: nat)
    requires lane.owner.Some?
    ensures var s1 := DecodeRounds(m, lane, n).owner.value;
            s1.request == lane.owner.value.request && s1.handle == lane.owner.value.handle
    decreases n
  {
    hide DecodeLane;
    if n > 0 {
      RoundsKeepOwner(m, lane, n - 1);
      RoundKeepsOwner(m, DecodeRounds(m, lane, n - 1));
    }
  }

  /** A decode command is taken exactly if it may be, and then every sequence it names goes on by
      its budget, unless it ends before, and all other slots stay as they were; otherwise nothing
      happens. */
  lemma {:induction false} DecodeExactly(m: Model, st: Settings, rt: Runtime, quanta: seq<Quantum>)
    requires RuntimeOk(m, rt)
    ensures Shape(rt)
    ensures var (rt1, answer) := Execute(m, st, rt, DecodeBatch(quanta));
            if MayDecode(st, rt, quanta) then
              && answer == Answered && Shape(rt1) && |rt1.seqs| == |rt.seqs| && rt1.cache == rt.cache
              && (forall k :: 0 <= k < |quanta| ==> WentOn(LaneAt(rt, quanta[k].slot), LaneAt(rt1, quanta[k].slot), quanta[k].budget))
              && (forall i :: 0 <= i < |rt.seqs| && (forall k :: 0 <= k < |quanta| ==> quanta[k].slot != i) ==> LaneAt(rt1, i) == LaneAt(rt, i))
            else answer == Rejected && rt1 == rt
  {
    DecodeTaken(m, st, rt, quanta);
    if MayDecode(st, rt, quanta) {
      DecodeAllOk(m, rt, quanta);
      var rt1 := DecodeAll(m, rt, quanta);
      CacheUntouched(m, rt, quanta);
      hide DecodeAll;
      hide C.WellKept;
      hide E.LedgerHolds;
      hide LaneOk;
      hide DecodeRounds;
      hide WentOn;
      forall k | 0 <= k < |quanta|
        ensures WentOn(LaneAt(rt, quanta[k].slot), LaneAt(rt1, quanta[k].slot), quanta[k].budget)
      {
        BudgetFound(quanta, k);
        assert LaneOk(m, quanta[k].slot, LaneAt(rt, quanta[k].slot));
        RoundsGoOn(m, quanta[k].slot, LaneAt(rt, quanta[k].slot), quanta[k].budget);
      }
      forall i | 0 <= i < |rt.seqs| && (forall k :: 0 <= k < |quanta| ==> quanta[k].slot != i)
        ensures LaneAt(rt1, i) == LaneAt(rt, i)
      {
        UnnamedHasNoBudget(quanta, i);
        NoRounds(m, LaneAt(rt, i));
      }
    }
  }

  lemma {:induction false} NoRounds(m: Model, lane: Lane)
    ensures LaneAfter(m, lane, 0) == lane
  {
  }

  lemma {:induction false} CacheUntouched(m: Model, rt: Runtime, quanta: seq<Quantum>)
    requires Shape(rt)
    ensures DecodeAll(m, rt, quanta).cache == rt.cache
    decreases |quanta|
  {
    hide DecodeRounds;
    if quanta != [] { CacheUntouched(m, rt, quanta[..|quanta| - 1]); }
  }

  // ----- prefill_batch -----

  /** The step names the owner of its slot, by its generation, and that one is prefilling. */
  predicate NamesPrefilling(rt: Runtime, step: Step) {
    && step.slot < |rt.seqs| && step.slot < |rt.engine.slots| && rt.seqs[step.slot].Some?
    && rt.seqs[step.slot].value.handle.generation == step.generation && rt.engine.slots[step.slot].lifecycle.Prefill?
  }

  lemma {:induction false} PrefillingStands(m: Model, rt: Runtime, step: Step)
    requires RuntimeOk(m, rt) && step.budget > 0
    ensures StepOk(rt, step) <==> NamesPrefilling(rt, step)
  {
    hide C.WellKept;
    hide E.LedgerHolds;
    if NamesPrefilling(rt, step) {
      var lane := LaneAt(rt, step.slot);
      assert LaneOk(m, step.slot, lane);
      StepSizes(m, lane, lane.owner.value, step.budget);
    }
  }

  /** What has to hold of a prefill command besides the tokens it decodes. */
  predicate Addresses(st: Settings, rt: Runtime, steps: seq<Step>) {
    && 1 <= |steps| <= |rt.seqs|
    && (forall k :: 0 <= k < |steps| ==> NamesPrefilling(rt, steps[k]) && 1 <= steps[k].budget <= st.prefillChunk)
    && (forall j, k :: 0 <= j < k < |steps| ==> steps[j].slot != steps[k].slot)
  }

  /** A prefill command is rejected, with nothing done, exactly if its steps do not each name a
      different prefilling sequence with a budget within the chunk, or if they decode more
      tokens together than the tick or the backend's batch allows. */
  lemma {:induction false} PrefillRejectedExactly(m: Model, st: Settings, rt: Runtime, steps: seq<Step>)
    requires RuntimeOk(m, rt)
    ensures Shape(rt)
    ensures Addresses(st, rt, steps) ==> forall k :: 0 <= k < |steps| ==> StepOk(rt, steps[k])
    ensures var (rt1, answer) := Prefill(st, rt, steps);
            && (answer == Rejected <==>
                  !Addresses(st, rt, steps) || BatchTokens(rt, steps) > st.tickBudget || BatchTokens(rt, steps) > st.nBatch)
            && (answer == Rejected ==> rt1 == rt)
  {
    hide C.WellKept;
    hide E.LedgerHolds;
    hide LaneOk;
    hide StepOk;
    hide NamesPrefilling;
    forall k | 0 <= k < |steps| && steps[k].budget > 0
      ensures StepOk(rt, steps[k]) <==> NamesPrefilling(rt, steps[k])
    {
      PrefillingStands(m, rt, steps[k]);
    }
    hide BatchTokens;
    hide PrefillAll;
    hide BatchMemory;
  }

  /** One step takes its sequence on by exactly its tokens, and to decoding exactly at the end of
      the prompt. */
  predicate StepTook(rt: Runtime, rt1: Runtime, step: Step)
    requires Shape(rt) && StepOk(rt, step)
  {
    var s := rt.seqs[step.slot].value;
    var n := s.logical + LogicalStep(s, step.budget);
    && step.slot < |rt1.seqs| && step.slot < |rt1.engine.slots| && rt1.seqs[step.slot].Some?
    && rt1.seqs[step.slot].value.request == s.request && rt1.seqs[step.slot].value.logical == n
    && rt1.seqs[step.slot].value.physical == s.physical + PhysicalStep(s, step.budget)
    && (rt1.engine.slots[step.slot].lifecycle.Decode? <==> n == |s.request.job.prompt|)
  }

  lemma {:induction false} OneStepTook(m: Model, rt: Runtime, step: Step)
    requires RuntimeOk(m, rt) && StepOk(rt, step) && step.budget > 0
    ensures StepTook(rt, PrefillOne(rt, step).0, step)
  {
    hide C.WellKept;
    hide E.LedgerHolds;
    hide C.Store;
    hide C.StoreSession;
    AdvancedOk(m, rt, step);
    var lane := LaneAt(rt, step.slot);
    assert LaneOk(m, step.slot, lane);
    StepSizes(m, lane, lane.owner.value, step.budget);
    hide LogicalStep;
    hide PhysicalStep;
  }

  /** A prefill command that does not fail takes every sequence it names on by its step. */
  lemma {:induction false} PrefillTookAll(m: Model, rt: Runtime, steps: seq<Step>, k: nat)
    requires RuntimeOk(m, rt) && DistinctSlots(steps) && k < |steps|
    requires forall j :: 0 <= j < |steps| ==> StepOk(rt, steps[j]) && steps[j].budget > 0
    requires PrefillAll(rt, steps).1
    ensures StepTook(rt, PrefillAll(rt, steps).0, steps[k])
    decreases |steps|
  {
    hide RuntimeOk;
    hide PrefillOne;
    hide StepTook;
    hide BatchMemory;
    hide StepOk;
    var n := |steps| - 1;
    var init, last := steps[..n], steps[n];
    OkShape(m, rt);
    Elsewhere(rt, steps);
    PrefillAllOk(m, rt, init);
    var (rt1, ok) := PrefillAll(rt, init);
    OkShape(m, rt1);
    assert LaneAt(rt1, last.slot) == LaneAt(rt, last.slot);
    SameStep(rt, rt1, last);
    if k < n {
      PrefillTookAll(m, rt, init, k);
      StepTakenElsewhere(m, rt, rt1, last, steps[k]);
    } else {
      OneStepTook(m, rt1, last);
      FromSame(rt, rt1, PrefillOne(rt1, last).0, last);
    }
  }

  lemma {:induction false} Elsewhere(rt: Runtime, steps: seq<Step>)
    requires Shape(rt) && DistinctSlots(steps) && steps != [] && forall j :: 0 <= j < |steps| ==> StepOk(rt, steps[j])
    ensures var last := steps[|steps| - 1];
            last.slot < |rt.seqs| && forall j :: 0 <= j < |steps| - 1 ==> steps[j].slot < |rt.seqs| && steps[j].slot != last.slot
  {
  }

  lemma {:induction false} StepTakenElsewhere(m: Model, rt: Runtime, rt1: Runtime, last: Step, step: Step)
    requires Shape(rt) && StepOk(rt, step) && StepTook(rt, rt1, step)
    requires RuntimeOk(m, rt1) && StepOk(rt1, last) && last.budget > 0 && step.slot < |rt1.seqs| && step.slot != last.slot
    ensures StepTook(rt, PrefillOne(rt1, last).0, step)
  {
    PrefillOneOk(m, rt1, last);
    var rt2 := PrefillOne(rt1, last).0;
    OkShape(m, rt1);
    OkShape(m, rt2);
    hide RuntimeOk;
    hide PrefillOne;
    hide StepTook;
    hide StepOk;
    assert LaneAt(rt2, step.slot) == LaneAt(rt1, step.slot);
    SameTook(rt, rt1, rt2, step);
  }

  lemma {:induction false} OkShape(m: Model, rt: Runtime)
    requires RuntimeOk(m, rt)
    ensures Shape(rt)
  {
  }

  lemma {:induction false} SameStep(rt: Runtime, rt1: Runtime, step: Step)
    requires Shape(rt) && Shape(rt1) && |rt1.seqs| == |rt.seqs| && StepOk(rt, step)
    requires LaneAt(rt1, step.slot) == LaneAt(rt, step.slot)
    ensures StepOk(rt1, step)
  {
  }

  lemma {:induction false} SameTook(rt: Runtime, rt1: Runtime, rt2: Runtime, step: Step)
    requires Shape(rt) && StepOk(rt, step) && StepTook(rt, rt1, step)
    requires Shape(rt1) && Shape(rt2) && |rt1.seqs| == |rt2.seqs| && LaneAt(rt2, step.slot) == LaneAt(rt1, step.slot)
    ensures StepTook(rt, rt2, step)
  {
  }

  lemma {:induction false} FromSame(rt: Runtime, rt1: Runtime, rt2: Runtime, step: Step)
    requires Shape(rt) && StepOk(rt, step) && Shape(rt1) && StepOk(rt1, step) && StepTook(rt1, rt2, step)
    requires LaneAt(rt1, step.slot) == LaneAt(rt, step.slot)
    ensures StepTook(rt, rt2, step)
  {
  }
}
