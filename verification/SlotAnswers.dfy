/** What the slot engine answers to each of its operations, and the one slot it then changes. */
module SlotAnswers {
  import opened SlotEngine

  /** The handle names the sequence that lives in its slot. */
  predicate Names(e: Engine, h: Handle) {
    && 0 <= h.slot < |e.slots|
    && var s := e.slots[h.slot];
       !s.lifecycle.Released? && s.generation == h.generation && s.requestId == h.requestId && s.attemptId == h.attemptId
  }

  /** Only the slot named has changed, to `s`. */
  predicate Only(e: Engine, h: Handle, s: Slot, e1: Engine)
    requires 0 <= h.slot < |e.slots|
  {
    e1 == Engine(e.slots[h.slot := s], e.capacity, e.reserved, e.active, e.cursor)
  }

  predicate Answers(e: Engine, h: Handle, may: bool, fits: bool, s: Slot, e1: Engine, r: Status) {
    && (r == StaleHandle <==> !Names(e, h))
    && (r == InvalidState <==> Names(e, h) && !may)
    && (r == InvalidAmount <==> Names(e, h) && may && !fits)
    && (r == Applied <==> Names(e, h) && may && fits)
    && (r == Applied ==> Only(e, h, s, e1))
    && (r != Applied ==> e1 == e)
  }

  /** Each operation on a handle answers stale exactly if the handle does not name a live
      sequence, and otherwise by the lifecycle and the amounts left; applied, it moves that
      sequence's counters and lifecycle and nothing else. */
  lemma OperationsExactly(e: Engine, h: Handle, tokens: nat, reason: FinishReason)
    ensures Names(e, h) ==>
              var s := e.slots[h.slot];
              && (var (e1, r) := StartPrefill(e, h); Answers(e, h, s.lifecycle.Admitted?, true, s.(lifecycle := Prefill), e1, r))
              && (var (e1, r) := AdvancePrefill(e, h, tokens);
                  var n := s.processed + tokens;
                  Answers(e, h, s.lifecycle.Prefill?, 0 < tokens && n <= s.promptTokens,
                          s.(processed := n, lifecycle := if n < s.promptTokens then Prefill else Decode), e1, r))
              && (var (e1, r) := AdvanceDecode(e, h, tokens);
                  Answers(e, h, s.lifecycle.Decode?, 0 < tokens && s.decoded + tokens <= s.outputBudget,
                          s.(decoded := s.decoded + tokens), e1, r))
              && (var (e1, r) := Finish(e, h, reason);
                  Answers(e, h, s.lifecycle.Decode?, reason in {Stop, Length, Failure}, s.(lifecycle := Terminal, reason := reason), e1, r))
              && (var (e1, r) := Cancel(e, h);
                  Answers(e, h, s.lifecycle in {Lifecycle.Admitted, Prefill, Decode}, true, s.(lifecycle := Terminal, reason := Cancelled), e1, r))
    ensures !Names(e, h) ==>
              && StartPrefill(e, h) == AdvancePrefill(e, h, tokens) == AdvanceDecode(e, h, tokens) == (e, StaleHandle)
              && Finish(e, h, reason) == Cancel(e, h) == (e, StaleHandle)
  {
  }

  /** Admission answers with the first reason against it, and otherwise puts the sequence into
      the lowest free slot, under the slot's next generation. */
  lemma AdmitExactly(e: Engine, rid: string, aid: string, prompt: nat, budget: nat)
    requires LedgerHolds(e)
    ensures var (e1, r) := Admit(e, rid, aid, prompt, budget);
            var valid := rid != "" && aid != "" && prompt > 0 && budget > 0 && prompt + budget <= SIZE_MAX;
            var known := exists i :: 0 <= i < |e.slots| && !e.slots[i].lifecycle.Released? && e.slots[i].requestId == rid && e.slots[i].attemptId == aid;
            var free := exists i :: 0 <= i < |e.slots| && e.slots[i].lifecycle.Released?;
            && (r.InvalidRequest? <==> !valid)
            && (r.Duplicate? <==> valid && known)
            && (r.SequenceCapacity? <==> valid && !known && !free)
            && (r.TokenCapacity? <==> valid && !known && free && TotalOwed(e.slots) + prompt + budget > e.capacity)
            && (!r.AdmittedTo? ==> e1 == e)
            && (r.AdmittedTo? ==>
                  && 0 <= r.handle.slot < |e.slots| && e.slots[r.handle.slot].lifecycle.Released?
                  && (forall k :: 0 <= k < r.handle.slot ==> !e.slots[k].lifecycle.Released?)
                  && r.handle == Handle(r.handle.slot, NextGeneration(e.slots[r.handle.slot].generation), rid, aid)
                  && e1.slots == e.slots[r.handle.slot := Slot(r.handle.generation, rid, aid, Admitted, NoReason, prompt, budget, 0, 0)])
  {
    FullMeansNoneFree(e.slots);
  }
}
