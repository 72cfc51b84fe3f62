/** What one step of the native runtime keeps, lane by lane: a decode round, a prefill chunk
    with its checkpoint, an opening with its cache lookup. A decode round is one step of the
    reference run, and a lane filled from the cache is a lane that has prefilled the same
    tokens. */
module RuntimeSteps {
  import opened Basics
  import opened KvMemory
  import opened Generation
  import opened NativeRuntime
  import E = SlotEngine
  import C = PromptCache

  // ----- decode keeps it -----

  /** Decoding the pending token and sampling the next is one step of the reference run. */
  lemma DecodeLaneOk(m: Model, i: nat, lane: Lane)
    requires LaneOk(m, i, lane) && lane.owner.Some? && lane.slot.lifecycle == E.Decode
    ensures LaneOk(m, i, DecodeLane(m, lane))
    ensures var s, s1 := lane.owner.value, DecodeLane(m, lane).owner.value;
            && |s1.gen.generated| == |s.gen.generated| + 1 && Extends(s1.gen, s.gen)
            && s1 == s.(nPast := s1.nPast, gen := s1.gen, pending := s1.pending)
            && DecodeLane(m, lane).slot.lifecycle == if s1.gen.terminal then E.Terminal else E.Decode
  {
    var s := lane.owner.value;
    var job := s.request.job;
    var kv := lane.kv + [Cell(s.nPast, s.pending)];
    var token := m.sample(kv, s.gen.finalPhase, s.gen.accepted, job.grammar);
    var n := |s.gen.generated|;
    assert DecodeLane(m, lane).owner.value.gen == Reference(m, job, n + 1);
    assert kv[|lane.kv|] == Cells(job.prompt + s.gen.generated)[|lane.kv|];
    NextMemory(job.prompt, s.gen.generated, token, s.nPast);
    AbsorbExtends(m, PhaseConfig(m, job), s.gen, token, n + 1 == job.totalTokens);
  }

  lemma NextMemory(prompt: seq<Token>, generated: seq<Token>, token: Token, nPast: int)
    ensures nPast + 1 == |prompt + generated| ==>
              Cells(prompt + generated) + [Cell(nPast + 1, token)] == Cells(prompt + (generated + [token]))
  {
    CellsAppend(prompt + generated, [token]);
    assert prompt + (generated + [token]) == (prompt + generated) + [token];
  }

  lemma DecodingGoesOn(m: Model, i: nat, lane: Lane)
    requires LaneOk(m, i, lane) && lane.owner.Some? && lane.slot.lifecycle == E.Decode
    ensures !lane.owner.value.gen.terminal
  {
  }

  lemma {:induction false} DecodeRoundsOk(m: Model, i: nat, lane: Lane, n: nat)
    requires LaneOk(m, i, lane) && lane.owner.Some? && lane.slot.lifecycle == E.Decode
    ensures var r := DecodeRounds(m, lane, n); var g, g1 := lane.owner.value.gen, r.owner.value.gen;
            && LaneOk(m, i, r) && Extends(g1, g)
            && (r.slot.lifecycle == if g1.terminal then E.Terminal else E.Decode)
            && |g1.generated| <= |g.generated| + n
            && (!g1.terminal ==> |g1.generated| == |g.generated| + n)
            && (n > 0 ==> |g1.generated| > |g.generated|)
            && r.owner.value == lane.owner.value.(nPast := r.owner.value.nPast, gen := g1, pending := r.owner.value.pending)
    decreases n
  {
    hide DecodeLane;
    hide LaneOk;
    DecodingGoesOn(m, i, lane);
    if n > 0 {
      DecodeRoundsOk(m, i, lane, n - 1);
      var before := DecodeRounds(m, lane, n - 1);
      if !before.owner.value.gen.terminal {
        DecodeLaneOk(m, i, before);
        ExtendsTransitive(lane.owner.value.gen, before.owner.value.gen, DecodeLane(m, before).owner.value.gen);
      }
    }
  }

  /** Lock step: while a sequence decodes, the engine's count, the controller's count and
      the number of tokens generated are one number, below the total budget. */
  lemma LockStep(m: Model, i: nat, lane: Lane)
    requires LaneOk(m, i, lane) && lane.owner.Some? && lane.slot.lifecycle == E.Decode
    ensures var g := lane.owner.value.gen;
            lane.slot.decoded == |g.generated| == g.phase.sampled < lane.slot.outputBudget
  {
    var s := lane.owner.value;
    ReferenceOk(m, s.request.job, |s.gen.generated|);
  }

  /** So `advance_decode` and `finish` always apply: the round through the engine's own
      operations never fails and is `DecodeLane`. */
  lemma DecodeOneIsLane(m: Model, rt: Runtime, i: nat)
    requires Shape(rt) && i < |rt.seqs| && rt.seqs[i].Some? && rt.engine.slots[i].lifecycle == E.Decode
    requires rt.seqs[i].value.handle.slot == i && E.Finds(rt.engine, rt.seqs[i].value.handle)
    requires rt.engine.slots[i].decoded < rt.engine.slots[i].outputBudget
    ensures DecodeOne(m, rt, i) == (PutLane(rt, i, DecodeLane(m, LaneAt(rt, i))), true)
  {
    hide Absorb;
    var h := rt.seqs[i].value.handle;
    var e1 := E.AdvanceDecode(rt.engine, h, 1).0;
    assert E.Finds(e1, h);
    var last := DecodeLane(m, LaneAt(rt, i)).slot;
    assert e1.slots[i := last] == rt.engine.slots[i := last];
  }

  lemma PutLaneOk(m: Model, rt: Runtime, i: nat, lane: Lane)
    requires RuntimeOk(m, rt) && i < |rt.seqs| && LaneOk(m, i, lane)
    requires E.LedgerHolds(PutLane(rt, i, lane).engine)
    ensures RuntimeOk(m, PutLane(rt, i, lane))
  {
    var rt1 := PutLane(rt, i, lane);
    forall k | 0 <= k < |rt.seqs|
      ensures LaneOk(m, k, LaneAt(rt1, k))
    {
      assert k != i ==> LaneAt(rt1, k) == LaneAt(rt, k) && LaneOk(m, k, LaneAt(rt, k));
    }
  }

  /** Everything the ledger reads in a slot. */
  predicate SameBooking(a: E.Slot, b: E.Slot) {
    && E.SlotOk(b) && E.IsLive(b) && a.requestId == b.requestId && a.attemptId == b.attemptId
    && E.Reservation(a) == E.Reservation(b)
  }

  lemma DecodeLaneBooking(m: Model, lane: Lane)
    requires lane.owner.Some? && lane.slot.lifecycle == E.Decode && E.SlotOk(lane.slot)
    requires lane.slot.decoded < lane.slot.outputBudget
    ensures SameBooking(lane.slot, DecodeLane(m, lane).slot)
  {
  }

  lemma {:induction false} DecodeRoundsBooking(m: Model, i: nat, lane: Lane, n: nat)
    requires LaneOk(m, i, lane) && lane.owner.Some? && lane.slot.lifecycle == E.Decode && E.SlotOk(lane.slot)
    ensures SameBooking(lane.slot, DecodeRounds(m, lane, n).slot)
    decreases n
  {
    if n > 0 {
      DecodeRoundsBooking(m, i, lane, n - 1);
      DecodeRoundsOk(m, i, lane, n - 1);
      var before := DecodeRounds(m, lane, n - 1);
      if !before.owner.value.gen.terminal {
        LockStep(m, i, before);
        DecodeLaneBooking(m, before);
      }
    }
  }

  /** A decode command's effect on one slot. */
  lemma DecodeSlotOk(m: Model, rt: Runtime, i: nat, n: nat)
    requires RuntimeOk(m, rt) && i < |rt.seqs| && rt.seqs[i].Some? && rt.engine.slots[i].lifecycle == E.Decode
    ensures RuntimeOk(m, PutLane(rt, i, DecodeRounds(m, LaneAt(rt, i), n)))
  {
    var lane := LaneAt(rt, i);
    assert LaneOk(m, i, lane);
    DecodeRoundsOk(m, i, lane, n);
    DecodeRoundsBooking(m, i, lane, n);
    var h := lane.owner.value.handle;
    E.PutKeepsLedger(rt.engine, h, DecodeRounds(m, lane, n).slot);
    PutLaneOk(m, rt, i, DecodeRounds(m, lane, n));
  }

  // ----- prefill keeps it -----

  lemma StepSizes(m: Model, lane: Lane, s: Sequence, budget: nat)
    requires Prefilling(m, lane, s) && budget > 0
    ensures 0 < LogicalStep(s, budget) <= |s.request.job.prompt| - s.logical
    ensures if LogicalStep(s, budget) == |s.request.job.prompt| - s.logical
            then PhysicalStep(s, budget) == LogicalStep(s, budget) - 1 else PhysicalStep(s, budget) == LogicalStep(s, budget)
  {
  }

  /** Prefilling a chunk leaves a prefilling lane, or one ready to decode whose memory is the
      prompt without its last token. */
  lemma AdvanceOk(m: Model, i: nat, lane: Lane, budget: nat)
    requires LaneOk(m, i, lane) && lane.owner.Some? && lane.slot.lifecycle == E.Prefill && budget > 0
    ensures var s := lane.owner.value;
            var (n, s1, kv) := (LogicalStep(s, budget), Advance(s, budget), lane.kv + PromptCells(s, PhysicalStep(s, budget)));
            && kv == Cells(s.request.job.prompt[..s1.physical]) && s1.physical < |s.request.job.prompt|
            && LaneOk(m, i, Lane(lane.slot.(processed := lane.slot.processed + n,
                                            lifecycle := if lane.slot.processed + n == lane.slot.promptTokens then E.Decode else E.Prefill),
                                 Some(s1), kv))
  {
    var s := lane.owner.value;
    var prompt := s.request.job.prompt;
    StepSizes(m, lane, s, budget);
    var s1 := Advance(s, budget);
    var kv := lane.kv + PromptCells(s, PhysicalStep(s, budget));
    assert kv == Cells(prompt[..s1.physical]);
    if s.logical + LogicalStep(s, budget) == |prompt| {
      assert prompt + s1.gen.generated == prompt;
      assert prompt == prompt[..s1.physical] + [s1.pending];
      CellsAppend(prompt[..s1.physical], [s1.pending]);
    }
  }

  lemma CacheSwapOk(m: Model, rt: Runtime, cache: C.Cache)
    requires RuntimeOk(m, rt) && C.WellKept(cache)
    ensures RuntimeOk(m, rt.(cache := cache))
  {
    forall k | 0 <= k < |rt.seqs|
      ensures LaneOk(m, k, LaneAt(rt.(cache := cache), k))
    {
      assert LaneAt(rt.(cache := cache), k) == LaneAt(rt, k) && LaneOk(m, k, LaneAt(rt, k));
    }
  }

  /** Noting a committed generation in the owner changes nothing the invariant reads. */
  lemma NoteCommitOk(m: Model, rt: Runtime, i: nat, g: nat)
    requires RuntimeOk(m, rt) && i < |rt.seqs| && rt.seqs[i].Some?
    ensures RuntimeOk(m, rt.(seqs := rt.seqs[i := Some(rt.seqs[i].value.(committed := Some(g)))]))
  {
    var lane := LaneAt(rt, i);
    assert LaneOk(m, i, lane);
    var noted := lane.(owner := Some(lane.owner.value.(committed := Some(g))));
    assert rt.engine.slots[i := lane.slot] == rt.engine.slots && rt.kv[i := lane.kv] == rt.kv;
    PutLaneOk(m, rt, i, noted);
  }

  /** What a checkpoint stores is the memory of exactly the tokens it is filed under. */
  lemma CheckpointOk(m: Model, rt: Runtime, step: Step)
    requires RuntimeOk(m, rt) && step.slot < |rt.seqs| && rt.seqs[step.slot].Some?
    requires var s := rt.seqs[step.slot].value;
             s.physical <= |s.request.job.prompt| && rt.kv[step.slot] == Cells(s.request.job.prompt[..s.physical])
    ensures RuntimeOk(m, Checkpoint(rt, step).0)
  {
    var i := step.slot;
    var s := rt.seqs[i].value;
    var q := s.request;
    assert LaneOk(m, i, LaneAt(rt, i));
    if s.identity.Some? {
      if q.session.Some? && q.session.value.commit && s.committed.None? && s.physical == |q.sessionPrefix| {
        assert q.sessionPrefix == q.job.prompt[..s.physical];
        C.StoreSessionKeeps(rt.cache, s.identity.value, q.session.value.id, q.session.value.parent,
                            q.requestId, q.sessionPrefix, rt.kv[i], step.now, step.snapshot);
        var (cache, done) := C.StoreSession(rt.cache, s.identity.value, q.session.value.id, q.session.value.parent,
                                            q.requestId, q.sessionPrefix, rt.kv[i], step.now, step.snapshot);
        CacheSwapOk(m, rt, cache);
        if done.Some? { NoteCommitOk(m, rt.(cache := cache), i, done.value.generation); }
      } else if q.session.None? && s.physical > 0 {
        C.StoreKeeps(rt.cache, s.identity.value, q.job.prompt[..s.physical], rt.kv[i], step.now, step.snapshot);
        CacheSwapOk(m, rt, C.Store(rt.cache, s.identity.value, q.job.prompt[..s.physical], rt.kv[i], step.now, step.snapshot).0);
      }
    }
  }

  lemma CheckpointElsewhere(rt: Runtime, step: Step, k: nat)
    requires Shape(rt) && step.slot < |rt.seqs| && rt.seqs[step.slot].Some?
    requires rt.seqs[step.slot].value.physical <= |rt.seqs[step.slot].value.request.job.prompt|
    requires k < |rt.seqs| && k != step.slot
    ensures var rt1 := Checkpoint(rt, step).0;
            Shape(rt1) && |rt1.seqs| == |rt.seqs| && LaneAt(rt1, k) == LaneAt(rt, k) && rt1.kv == rt.kv
  {
  }

  /** The state after slot and memory have advanced, before the cache is offered anything. */
  function Advanced(rt: Runtime, step: Step): Runtime
    requires Shape(rt) && StepOk(rt, step)
  {
    var i := step.slot;
    var s := rt.seqs[i].value;
    Runtime(E.AdvancePrefill(rt.engine, s.handle, LogicalStep(s, step.budget)).0,
            rt.seqs[i := Some(Advance(s, step.budget))],
            rt.kv[i := rt.kv[i] + PromptCells(s, PhysicalStep(s, step.budget))], rt.cache)
  }

  lemma AdvancedOk(m: Model, rt: Runtime, step: Step)
    requires RuntimeOk(m, rt) && StepOk(rt, step) && step.budget > 0
    ensures RuntimeOk(m, Advanced(rt, step)) && Shape(Advanced(rt, step))
    ensures E.AdvancePrefill(rt.engine, rt.seqs[step.slot].value.handle, LogicalStep(rt.seqs[step.slot].value, step.budget)).1 == E.Applied
    ensures var s1 := Advance(rt.seqs[step.slot].value, step.budget);
            && s1.physical < |s1.request.job.prompt|
            && Advanced(rt, step).kv[step.slot] == Cells(s1.request.job.prompt[..s1.physical])
    ensures forall k :: 0 <= k < |rt.seqs| && k != step.slot ==> LaneAt(Advanced(rt, step), k) == LaneAt(rt, k)
  {
    var i := step.slot;
    var lane := LaneAt(rt, i);
    var s := lane.owner.value;
    assert LaneOk(m, i, lane);
    StepSizes(m, lane, s, step.budget);
    AdvanceOk(m, i, lane, step.budget);
    assert E.Finds(rt.engine, s.handle);
    var n := LogicalStep(s, step.budget);
    E.PerformKeepsLedger(rt.engine, E.DoAdvancePrefill(s.handle, n));
    var rt1 := Advanced(rt, step);
    assert rt1 == PutLane(rt, i, LaneAt(rt1, i));
    PutLaneOk(m, rt, i, LaneAt(rt1, i));
  }

  /** One prefill step keeps the invariant, advances only its own lane, and fails only when
      the session commit it makes is refused: the engine never refuses it. */
  lemma PrefillOneOk(m: Model, rt: Runtime, step: Step)
    requires RuntimeOk(m, rt) && StepOk(rt, step) && step.budget > 0
    ensures var rt1 := PrefillOne(rt, step).0;
            && RuntimeOk(m, rt1) && |rt1.seqs| == |rt.seqs|
            && rt1.kv == Advanced(rt, step).kv
            && forall k :: 0 <= k < |rt.seqs| && k != step.slot ==> LaneAt(rt1, k) == LaneAt(rt, k)
  {
    AdvancedOk(m, rt, step);
    var rt1 := Advanced(rt, step);
    CheckpointOk(m, rt1, step);
    forall k | 0 <= k < |rt.seqs| && k != step.slot
      ensures LaneAt(PrefillOne(rt, step).0, k) == LaneAt(rt, k)
    {
      CheckpointElsewhere(rt1, step, k);
    }
  }

  // ----- open keeps it -----

  /** Whatever a lookup returns is a proper, non-empty prefix of the prompt with the memory
      of exactly those tokens. */
  lemma LookUpOk(c: C.Cache, identity: string, q: Request, now: int, copies: bool)
    requires C.WellKept(c)
    ensures C.WellKept(LookUp(c, identity, q, now, copies).0)
    ensures var found := LookUp(c, identity, q, now, copies).1;
            found.Some? ==> && found.value.tokens != [] && |found.value.tokens| < |q.job.prompt|
                            && found.value.tokens <= q.job.prompt && found.value.kv == Cells(found.value.tokens)
  {
    C.PruneKeeps(c, now, 0);
    if q.session.Some? && q.session.value.parent.Some? {
      C.RestoreSessionKeeps(c, identity, q.session.value.id, q.session.value.parent.value, q.job.prompt, now, copies);
    } else {
      C.RestoreKeeps(c, identity, q.job.prompt, now, copies);
    }
  }

  lemma NewLaneOk(m: Model, i: nat, q: Request, identity: Option<string>, g: nat)
    requires RequestOk(m, q)
    ensures var slot := E.Slot(g, q.requestId, q.attemptId, E.Prefill, E.NoReason, |q.job.prompt|, q.job.totalTokens, 0, 0);
            LaneOk(m, i, Lane(slot, Some(NewSequence(m, q, identity, E.HandleOf(i, slot))), []))
  {
    assert q.job.prompt[..0] == [];
  }

  lemma FreeLaneIsEmpty(m: Model, i: nat, lane: Lane)
    requires LaneOk(m, i, lane) && !E.IsLive(lane.slot)
    ensures lane.kv == []
  {
  }

  /** What admission and the start of prefill do to the engine together. */
  lemma AdmitAndStart(e: E.Engine, rid: string, aid: string, prompt: nat, budget: nat)
    requires E.LedgerHolds(e)
    ensures var (e1, a) := E.Admit(e, rid, aid, prompt, budget);
            a.AdmittedTo? ==>
              var i, (e2, status) := a.handle.slot, E.StartPrefill(e1, a.handle);
              && status == E.Applied && E.LedgerHolds(e2) && 0 <= i < |e.slots| && e2.cursor == e.cursor
              && !E.IsLive(e.slots[i]) && e2.slots == e.slots[i := e2.slots[i]]
              && e2.slots[i] == E.Slot(e2.slots[i].generation, rid, aid, E.Prefill, E.NoReason, prompt, budget, 0, 0)
              && a.handle == E.HandleOf(i, e2.slots[i])
  {
    var (e1, a) := E.Admit(e, rid, aid, prompt, budget);
    if a.AdmittedTo? {
      E.AdmitKeepsLedger(e, rid, aid, prompt, budget);
      E.PerformKeepsLedger(e1, E.DoStartPrefill(a.handle));
    }
  }

  lemma OpenAdmitOk(m: Model, rt: Runtime, q: Request, identity: Option<string>)
    requires RuntimeOk(m, rt) && RequestOk(m, q)
    ensures var (rt1, r) := OpenAdmit(m, rt, q, identity);
            && RuntimeOk(m, rt1) && |rt1.seqs| == |rt.seqs|
            && (r.Opened? ==> && 0 <= r.handle.slot < |rt.seqs|
                              && rt1.seqs[r.handle.slot] == Some(NewSequence(m, q, identity, r.handle))
                              && rt1.engine.slots[r.handle.slot].lifecycle == E.Prefill
                              && rt1.engine.slots[r.handle.slot].processed == 0)
  {
    hide LaneOk;
    hide E.LedgerHolds;
    hide E.Admit;
    hide E.StartPrefill;
    hide NewSequence;
    var (e1, a) := E.Admit(rt.engine, q.requestId, q.attemptId, |q.job.prompt|, q.job.totalTokens);
    AdmitAndStart(rt.engine, q.requestId, q.attemptId, |q.job.prompt|, q.job.totalTokens);
    if a.AdmittedTo? {
      var i: nat := a.handle.slot;
      assert LaneOk(m, i, LaneAt(rt, i));
      var rt1 := OpenAdmit(m, rt, q, identity).0;
      NewLaneOk(m, i, q, identity, rt1.engine.slots[i].generation);
      FreeLaneIsEmpty(m, i, LaneAt(rt, i));
      AdmittedOthers(m, rt, rt1, i);
    }
  }

  lemma AdmittedOthers(m: Model, rt: Runtime, rt1: Runtime, i: nat)
    requires RuntimeOk(m, rt) && Shape(rt1) && |rt1.seqs| == |rt.seqs| && i < |rt.seqs|
    requires E.LedgerHolds(rt1.engine) && C.WellKept(rt1.cache)
    requires LaneOk(m, i, LaneAt(rt1, i))
    requires forall k :: 0 <= k < |rt.seqs| && k != i ==> LaneAt(rt1, k) == LaneAt(rt, k)
    ensures RuntimeOk(m, rt1)
  {
    forall k | 0 <= k < |rt1.seqs|
      ensures LaneOk(m, k, LaneAt(rt1, k))
    {
      assert k != i ==> LaneAt(rt1, k) == LaneAt(rt, k) && LaneOk(m, k, LaneAt(rt, k));
    }
  }

  /** A lane filled from the cache is a prefilling lane: restoring n tokens is prefilling them. */
  lemma RestoredLaneOk(m: Model, i: nat, lane: Lane, e: C.Entry)
    requires LaneOk(m, i, lane) && lane.owner.Some? && lane.slot.lifecycle == E.Prefill && lane.slot.processed == 0
    requires e.tokens != [] && |e.tokens| < |lane.owner.value.request.job.prompt|
    requires e.tokens <= lane.owner.value.request.job.prompt && e.kv == Cells(e.tokens)
    ensures var n := |e.tokens|;
            LaneOk(m, i, Lane(lane.slot.(processed := n), Some(lane.owner.value.(logical := n, physical := n, nPast := n)), e.kv))
  {
    assert lane.owner.value.request.job.prompt[..|e.tokens|] == e.tokens;
  }

  lemma OpenRestoreOk(m: Model, rt: Runtime, i: nat, now: int, copies: bool)
    requires RuntimeOk(m, rt) && i < |rt.seqs| && rt.seqs[i].Some?
    requires rt.engine.slots[i].lifecycle == E.Prefill && rt.engine.slots[i].processed == 0
    ensures RuntimeOk(m, OpenRestore(rt, i, now, copies).0)
    ensures OpenRestore(rt, i, now, copies).1.Opened? || OpenRestore(rt, i, now, copies).1 == Refused("session_snapshot_missing")
  {
    hide LookUp;
    hide C.WellKept;
    hide E.LedgerHolds;
    var s := rt.seqs[i].value;
    var lane := LaneAt(rt, i);
    assert LaneOk(m, i, lane) && E.Finds(rt.engine, s.handle);
    if s.identity.Some? {
      var (cache, found) := LookUp(rt.cache, s.identity.value, s.request, now, copies);
      LookUpOk(rt.cache, s.identity.value, s.request, now, copies);
      var rt1 := OpenRestore(rt, i, now, copies).0;
      if found.Some? {
        RestoredLaneOk(m, i, lane, found.value);
        E.PerformKeepsLedger(rt.engine, E.DoAdvancePrefill(s.handle, |found.value.tokens|));
        AdmittedOthers(m, rt, rt1, i);
      } else if s.request.session.Some? && s.request.session.value.parent.Some? {
        CancelRelease(rt.engine, s.handle);
        assert |Cells(s.request.job.prompt[..0])| == 0;
        assert lane.kv == [];
        AdmittedOthers(m, rt, rt1, i);
      } else {
        CacheSwapOk(m, rt, cache);
      }
    }
  }

  /** Cancelling and releasing a live slot always frees it and touches no other slot. */
  lemma CancelRelease(e: E.Engine, h: E.Handle)
    requires E.LedgerHolds(e) && E.Finds(e, h)
    ensures var e1 := if e.slots[h.slot].lifecycle == E.Terminal then e else E.Cancel(e, h).0;
            var (e2, r) := E.ReleaseSlot(e1, h);
            && r.ReleasedTokens? && E.LedgerHolds(e2) && |e2.slots| == |e.slots|
            && !E.IsLive(e2.slots[h.slot]) && e2.slots[h.slot].generation == e.slots[h.slot].generation && e2.capacity == e.capacity
            && forall k :: 0 <= k < |e.slots| && k != h.slot ==> e2.slots[k] == e.slots[k]
  {
    E.PerformKeepsLedger(e, E.DoCancel(h));
    var e1 := if e.slots[h.slot].lifecycle == E.Terminal then e else E.Cancel(e, h).0;
    assert E.Finds(e1, h);
    E.ReleaseKeepsLedger(e1, h);
  }

  /** Opening keeps the invariant, whether it succeeds or is refused. */
  lemma OpenOk(m: Model, st: Settings, rt: Runtime, q: Request, now: int, copies: bool)
    requires RuntimeOk(m, rt)
    ensures RuntimeOk(m, Open(m, st, rt, q, now, copies).0)
    ensures |Open(m, st, rt, q, now, copies).0.seqs| == |rt.seqs|
  {
    hide LaneOk;
    hide OpenAdmit;
    hide OpenRestore;
    if Refusal(m, st, rt.cache.enabled, q).None? {
      var identity := Identity(rt, q);
      C.PruneKeeps(rt.cache, now, 0);
      CacheSwapOk(m, rt, C.Prune(rt.cache, now));
      var root := q.session.Some? && q.session.value.parent.None?;
      var rt1 := if root && identity.Some? then rt.(cache := C.Prune(rt.cache, now)) else rt;
      assert RuntimeOk(m, rt1);
      OpenAdmitOk(m, rt1, q, identity);
      var (rt2, r) := OpenAdmit(m, rt1, q, identity);
      if r.Opened? { OpenRestoreOk(m, rt2, r.handle.slot, now, copies); }
    }
  }
}
