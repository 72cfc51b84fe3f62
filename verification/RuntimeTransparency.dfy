module RuntimeTransparency {
  // What every command of the native runtime keeps, and what follows for whole runs: the prompt
  // cache, prefill chunking, decode quanta and batching never change what a sequence generates.

  import opened Basics
  import opened KvMemory
  import opened Generation
  import opened NativeRuntime
  import opened RuntimeSteps
  import E = SlotEngine
  import C = PromptCache
  import U = Utf8

  // ----- release -----

  /** The public handle names the slot's present owner, or nobody owns the slot. */
  predicate ReleaseNamesOwner(rt: Runtime, i: nat, generation: nat)
    requires i < |rt.seqs|
  {
    rt.seqs[i].Some? ==> rt.seqs[i].value.handle.generation == generation
  }

  lemma ReleaseOk(m: Model, rt: Runtime, i: nat, generation: nat)
    requires RuntimeOk(m, rt) && i < |rt.seqs| && ReleaseNamesOwner(rt, i, generation)
    ensures RuntimeOk(m, Release(rt, i, generation).0)
    ensures Release(rt, i, generation).0.seqs[i].None?
  {
    var lane := LaneAt(rt, i);
    assert LaneOk(m, i, lane);
    var rt1 := Release(rt, i, generation).0;
    if rt.seqs[i].Some? {
      CancelRelease(rt.engine, lane.owner.value.handle);
      AdmittedOthers(m, rt, rt1, i);
    } else {
      assert !E.Finds(rt.engine, E.Handle(i, generation, "", ""));
      assert rt1 == rt;
    }
  }

  /** A release with a stale generation wipes the memory of the slot's present owner, so it
      breaks the invariant exactly when that owner is still running and has any memory. */
  lemma StaleReleaseExact(m: Model, rt: Runtime, i: nat, generation: nat)
    requires RuntimeOk(m, rt) && i < |rt.seqs| && !ReleaseNamesOwner(rt, i, generation)
    ensures LaneOk(m, i, LaneAt(Release(rt, i, generation).0, i)) <==>
              rt.kv[i] == [] || rt.engine.slots[i].lifecycle == E.Terminal
  {
    var lane := LaneAt(rt, i);
    assert LaneOk(m, i, lane);
    var s := lane.owner.value;
    assert !E.Finds(rt.engine, E.Handle(i, generation, "", ""));
    var lane1 := LaneAt(Release(rt, i, generation).0, i);
    assert lane1 == lane.(kv := []);
    if lane.slot.lifecycle == E.Prefill {
      assert |Cells(s.request.job.prompt[..s.physical])| == s.physical;
    } else if lane.slot.lifecycle == E.Decode {
      assert |lane.kv| + 1 == |s.request.job.prompt + s.gen.generated|;
    }
  }

  // ----- whole commands and whole runs -----

  /** After some steps, the lanes they did not name are as before, so the next step still
      stands as it was accepted. */
  lemma {:induction false} PrefillAllOk(m: Model, rt: Runtime, steps: seq<Step>)
    requires RuntimeOk(m, rt) && DistinctSlots(steps)
    requires forall k :: 0 <= k < |steps| ==> StepOk(rt, steps[k]) && steps[k].budget > 0
    ensures var (rt1, ok) := PrefillAll(rt, steps);
            && RuntimeOk(m, rt1)
            && (forall i :: 0 <= i < |rt.seqs| && (forall k :: 0 <= k < |steps| ==> steps[k].slot != i) ==> LaneAt(rt1, i) == LaneAt(rt, i))
            && (ok ==> rt1.kv == BatchMemory(rt, steps))
    decreases |steps|
  {
    hide LaneOk;
    hide E.LedgerHolds;
    hide C.WellKept;
    hide PrefillOne;
    if steps != [] {
      var init, last := steps[..|steps| - 1], steps[|steps| - 1];
      PrefillAllOk(m, rt, init);
      var (rt1, ok) := PrefillAll(rt, init);
      if ok {
        assert LaneAt(rt1, last.slot) == LaneAt(rt, last.slot);
        PrefillOneOk(m, rt1, last);
      }
    }
  }

  /** The budget a decode command gives slot `i`; 0 if it does not name it. */
  function BudgetOf(quanta: seq<Quantum>, i: nat): nat
    decreases |quanta|
  {
    if quanta == [] then 0
    else if quanta[|quanta| - 1].slot == i then quanta[|quanta| - 1].budget
    else BudgetOf(quanta[..|quanta| - 1], i)
  }

  /** A lane after up to `n` rounds of its own, whoever else is in the batch. */
  function LaneAfter(m: Model, lane: Lane, n: nat): Lane { if lane.owner.Some? then DecodeRounds(m, lane, n) else lane }

  lemma {:induction false} UnnamedHasNoBudget(quanta: seq<Quantum>, i: nat)
    requires forall k :: 0 <= k < |quanta| ==> quanta[k].slot != i
    ensures BudgetOf(quanta, i) == 0
    decreases |quanta|
  {
    if quanta != [] { UnnamedHasNoBudget(quanta[..|quanta| - 1], i); }
  }

  /** Batching is invisible: a decode command takes every lane to where it would get alone. */
  lemma {:induction false} DecodeAllOk(m: Model, rt: Runtime, quanta: seq<Quantum>)
    requires RuntimeOk(m, rt) && DistinctQuanta(quanta)
    requires forall k :: 0 <= k < |quanta| ==> QuantumOk(rt, quanta[k])
    ensures RuntimeOk(m, DecodeAll(m, rt, quanta))
    ensures forall i :: 0 <= i < |rt.seqs| ==>
              LaneAt(DecodeAll(m, rt, quanta), i) == LaneAfter(m, LaneAt(rt, i), BudgetOf(quanta, i))
    decreases |quanta|
  {
    if quanta != [] {
      var init, last := quanta[..|quanta| - 1], quanta[|quanta| - 1];
      assert QuantumOk(rt, last);
      DecodeAllOk(m, rt, init);
      UnnamedHasNoBudget(init, last.slot);
      var rt1 := DecodeAll(m, rt, init);
      assert LaneAt(rt1, last.slot) == LaneAt(rt, last.slot);
      DecodeSlotOk(m, rt1, last.slot, last.budget);
    }
  }

  /** A command that did not fail halfway and, if it is a release, names the slot's owner. */
  predicate Clean(m: Model, st: Settings, rt: Runtime, cmd: Command)
    requires Shape(rt)
  {
    && Execute(m, st, rt, cmd).1 != Failed
    && (cmd.ReleaseSequence? && cmd.slot < |rt.seqs| ==> ReleaseNamesOwner(rt, cmd.slot, cmd.generation))
  }

  lemma ExecuteOk(m: Model, st: Settings, rt: Runtime, cmd: Command)
    requires RuntimeOk(m, rt) && Clean(m, st, rt, cmd)
    ensures RuntimeOk(m, Execute(m, st, rt, cmd).0)
  {
    match cmd
    case OpenSequence(q, now, copies) => OpenOk(m, st, rt, q, now, copies);
    case PrefillBatch(steps) => if PrefillAccepted(st, rt, steps) { PrefillAllOk(m, rt, steps); }
    case DecodeBatch(quanta) => if DecodeAccepted(st, rt, quanta) { DecodeAllOk(m, rt, quanta); }
    case ReleaseSequence(i, g) => if i < |rt.seqs| { ReleaseOk(m, rt, i, g); }
    case ClearCache => CacheSwapOk(m, rt, C.Clear(rt.cache));
    case CacheStats(now) =>
      C.PruneKeeps(rt.cache, now, 0);
      CacheSwapOk(m, rt, C.Prune(rt.cache, now));
  }

  /** `rt` is reached from a fresh runtime by clean commands. */
  ghost predicate Reaches(m: Model, st: Settings, start: Runtime, cmds: seq<Command>, rt: Runtime)
    decreases |cmds|
  {
    if cmds == [] then rt == start
    else exists mid ::
      && Reaches(m, st, start, cmds[..|cmds| - 1], mid) && Shape(mid)
      && Clean(m, st, mid, cmds[|cmds| - 1]) && rt == Execute(m, st, mid, cmds[|cmds| - 1]).0
  }

  function NewRuntime(slots: nat, capacity: nat, cache: C.Cache): Runtime {
    Runtime(E.NewEngine(slots, capacity), seq(slots, _ => None), seq(slots, _ => []), cache)
  }

  predicate FreshStart(rt: Runtime, slots: nat, capacity: nat, cache: C.Cache) {
    && rt == NewRuntime(slots, capacity, cache) && 0 < slots <= E.SIZE_MAX && 0 < capacity <= E.SIZE_MAX
    && cache.entries == [] && cache.bytesUsed == 0
  }

  /** In every state reached by clean commands each snapshot in the cache is the memory of its
      own tokens, each prefilling lane holds the processed part of its prompt, and each
      decoding lane holds prompt and output up to the pending token. */
  lemma {:induction false} ReachedOk(m: Model, st: Settings, start: Runtime, cmds: seq<Command>, rt: Runtime,
                                     slots: nat, capacity: nat, cache: C.Cache)
    requires FreshStart(start, slots, capacity, cache) && Reaches(m, st, start, cmds, rt)
    ensures RuntimeOk(m, rt)
    decreases |cmds|
  {
    if cmds == [] {
      E.NewEngineLedger(slots, capacity);
    } else {
      var mid :| && Reaches(m, st, start, cmds[..|cmds| - 1], mid) && Shape(mid)
                 && Clean(m, st, mid, cmds[|cmds| - 1]) && rt == Execute(m, st, mid, cmds[|cmds| - 1]).0;
      ReachedOk(m, st, start, cmds[..|cmds| - 1], mid, slots, capacity, cache);
      ExecuteOk(m, st, mid, cmds[|cmds| - 1]);
    }
  }

  /** Transparency. Take two runtimes with the same model, started with any sizes and any
      caches (on, off, small, large) and driven by any clean commands: any chunk budgets, any
      decode quanta, any other sequences beside. Two sequences that run the same job agree:
      one has generated a prefix of what the other has, with the text handed out, and if both
      have ended they ended alike, within the job's budget. */
  lemma CacheTransparency(
    m: Model,
    st: Settings, start: Runtime, cmds: seq<Command>, rt: Runtime, slots: nat, capacity: nat, cache: C.Cache, i: nat,
    st': Settings, start': Runtime, cmds': seq<Command>, rt': Runtime, slots': nat, capacity': nat, cache': C.Cache, i': nat)
    requires FreshStart(start, slots, capacity, cache) && Reaches(m, st, start, cmds, rt)
    requires FreshStart(start', slots', capacity', cache') && Reaches(m, st', start', cmds', rt')
    requires i < |rt.seqs| && rt.seqs[i].Some? && i' < |rt'.seqs| && rt'.seqs[i'].Some?
    requires rt.seqs[i].value.request.job == rt'.seqs[i'].value.request.job
    ensures var g, g' := rt.seqs[i].value.gen, rt'.seqs[i'].value.gen;
            && (|g.generated| <= |g'.generated| ==> Extends(g', g))
            && (|g'.generated| <= |g.generated| ==> Extends(g, g'))
            && (g.terminal && g'.terminal ==> g == g')
  {
    ReachedOk(m, st, start, cmds, rt, slots, capacity, cache);
    ReachedOk(m, st', start', cmds', rt', slots', capacity', cache');
    assert LaneOk(m, i, LaneAt(rt, i)) && LaneOk(m, i', LaneAt(rt', i'));
    var g, g' := rt.seqs[i].value.gen, rt'.seqs[i'].value.gen;
    var job := rt.seqs[i].value.request.job;
    OwnerOnReference(m, i, LaneAt(rt, i));
    OwnerOnReference(m, i', LaneAt(rt', i'));
    if |g.generated| <= |g'.generated| { ReferenceGrows(m, job, |g.generated|, |g'.generated|); }
    if |g'.generated| <= |g.generated| { ReferenceGrows(m, job, |g'.generated|, |g.generated|); }
  }

  /** None of this is about nothing: on a fresh runtime without a cache, every request that
      passes the checks and fits the token capacity opens. */
  lemma SequencesOpen(m: Model, st: Settings, start: Runtime, q: Request, now: int, copies: bool,
                      slots: nat, capacity: nat, cache: C.Cache)
    requires FreshStart(start, slots, capacity, cache) && !cache.enabled
    requires Refusal(m, st, false, q).None? && |q.job.prompt| + q.job.totalTokens <= capacity
    ensures exists rt :: Reaches(m, st, start, [OpenSequence(q, now, copies)], rt)
                         && 0 < |rt.seqs| && rt.seqs[0].Some? && rt.seqs[0].value.request == q
  {
    hide LaneOk;
    var cmds := [OpenSequence(q, now, copies)];
    var rt := Execute(m, st, start, cmds[0]).0;
    E.NewEngineLedger(slots, capacity);
    assert cmds[..0] == [];
    FreshAdmits(start.engine, q, capacity);
    assert Reaches(m, st, start, cmds[..0], start);
    assert Clean(m, st, start, cmds[0]);
    assert Reaches(m, st, start, cmds, rt);
  }

  lemma FreshAdmits(e: E.Engine, q: Request, capacity: nat)
    requires E.LedgerHolds(e) && e.capacity == capacity && e.reserved == 0 && e.active == 0
    requires forall k :: 0 <= k < |e.slots| ==> !E.IsLive(e.slots[k])
    requires q.requestId != "" && q.attemptId != "" && q.job.prompt != [] && q.job.totalTokens > 0
    requires |q.job.prompt| + q.job.totalTokens <= capacity
    ensures var (e1, a) := E.Admit(e, q.requestId, q.attemptId, |q.job.prompt|, q.job.totalTokens);
            a.AdmittedTo? && a.handle.slot == 0 && E.StartPrefill(e1, a.handle).1 == E.Applied
  {
    E.AdmitIsExact(e, q.requestId, q.attemptId, |q.job.prompt|, q.job.totalTokens);
    AdmitAndStart(e, q.requestId, q.attemptId, |q.job.prompt|, q.job.totalTokens);
    E.FreshTotals(e.slots);
    assert !E.IsLive(e.slots[0]);
    assert E.FirstFree(e.slots, 0) == 0;
  }

  /** And what decodes ends: a quantum as large as what is left of the budget finishes it. */
  lemma DecodeEnds(m: Model, i: nat, lane: Lane, n: nat)
    requires LaneOk(m, i, lane) && lane.owner.Some? && lane.slot.lifecycle == E.Decode
    requires lane.slot.decoded + n >= lane.slot.outputBudget
    ensures DecodeRounds(m, lane, n).owner.value.gen.terminal
  {
    hide DecodeRounds;
    var r := DecodeRounds(m, lane, n);
    DecodeRoundsOk(m, i, lane, n);
    if !r.owner.value.gen.terminal {
      LockStep(m, i, lane);
      LockStep(m, i, r);
      assert false;
    }
  }

  lemma OwnerOnReference(m: Model, i: nat, lane: Lane)
    requires LaneOk(m, i, lane) && lane.owner.Some?
    ensures var s := lane.owner.value; s.gen == Reference(m, s.request.job, |s.gen.generated|)
  {
  }

  // ----- what a client sees -----

  /** One outcome of a decode command: between one token and the budget, exactly the budget
      if the sequence goes on, and its text continues the text handed out before. */
  lemma OutcomeInBounds(m: Model, i: nat, lane: Lane, budget: nat)
    requires LaneOk(m, i, lane) && lane.owner.Some? && lane.slot.lifecycle == E.Decode && budget > 0
    ensures var g, g1 := lane.owner.value.gen, DecodeRounds(m, lane, budget).owner.value.gen;
            && g.generated <= g1.generated && g.deltas <= g1.deltas
            && 1 <= |g1.generated| - |g.generated| <= budget
            && (!g1.terminal ==> |g1.generated| - |g.generated| == budget)
  {
    DecodeRoundsOk(m, i, lane, budget);
  }

  /** A lane that has ended well has handed out its whole final text. */
  lemma FinishedLane(m: Model, i: nat, lane: Lane)
    requires LaneOk(m, i, lane) && lane.owner.Some? && lane.slot.lifecycle in {E.Decode, E.Terminal}
    requires lane.owner.value.gen.terminal && !lane.owner.value.gen.failed
    ensures var g := lane.owner.value.gen; g.deltas == g.finalBytes && U.WellFormed(g.finalBytes)
  {
    var s := lane.owner.value;
    ReferenceOk(m, s.request.job, |s.gen.generated|);
    FinishedTextIsDelivered(PhaseConfig(m, s.request.job), s.gen);
  }

  // ----- a prefill command that fails -----

  lemma {:induction false} FailureSticks(rt: Runtime, steps: seq<Step>, k: nat)
    requires Shape(rt) && k <= |steps| && !PrefillAll(rt, steps[..k]).1
    ensures PrefillAll(rt, steps) == PrefillAll(rt, steps[..k])
    decreases |steps|
  {
    if k == |steps| {
      assert steps[..k] == steps;
    } else {
      var init := steps[..|steps| - 1];
      assert init[..k] == steps[..k];
      FailureSticks(rt, init, k);
    }
  }

  /** The batch's memory at one step's slot: what was there and the step's own cells. */
  lemma {:induction false} BatchMemoryAt(rt: Runtime, steps: seq<Step>, i: nat)
    requires Shape(rt) && DistinctSlots(steps) && i < |rt.seqs|
    requires forall k :: 0 <= k < |steps| ==> StepOk(rt, steps[k])
    ensures (forall k :: 0 <= k < |steps| ==> steps[k].slot != i) ==> BatchMemory(rt, steps)[i] == rt.kv[i]
    ensures forall k :: 0 <= k < |steps| && steps[k].slot == i ==>
              StepOk(rt, steps[k]) &&
              BatchMemory(rt, steps)[i] == rt.kv[i] + PromptCells(rt.seqs[i].value, PhysicalStep(rt.seqs[i].value, steps[k].budget))
    decreases |steps|
  {
    if steps != [] {
      var init, last := steps[..|steps| - 1], steps[|steps| - 1];
      assert StepOk(rt, last);
      BatchMemoryAt(rt, init, i);
    }
  }

  lemma OverrunLane(m: Model, i: nat, lane: Lane, cells: seq<Cell>)
    requires LaneOk(m, i, lane) && lane.owner.Some? && lane.slot.lifecycle == E.Prefill
    ensures LaneOk(m, i, lane.(kv := lane.kv + cells)) <==> cells == []
  {
    if cells == [] { assert lane.kv + cells == lane.kv; }
    assert |lane.kv| == lane.owner.value.physical;
  }

  lemma AbandonedLane(m: Model, st: Settings, rt: Runtime, steps: seq<Step>, k: nat)
    requires RuntimeOk(m, rt) && PrefillAccepted(st, rt, steps) && k < |steps|
    requires !PrefillAll(rt, steps[..k]).1
    ensures var i := steps[k].slot;
            && StepOk(rt, steps[k])
            && LaneAt(Prefill(st, rt, steps).0, i) ==
               LaneAt(rt, i).(kv := rt.kv[i] + PromptCells(rt.seqs[i].value, PhysicalStep(rt.seqs[i].value, steps[k].budget)))
  {
    hide LaneOk;
    hide PrefillOne;
    hide PrefillAll;
    hide E.LedgerHolds;
    hide BatchMemory;
    assert StepOk(rt, steps[k]);
    FailureSticks(rt, steps, k);
    PrefillAllOk(m, rt, steps[..k]);
    BatchMemoryAt(rt, steps, steps[k].slot);
    assert LaneAt(PrefillAll(rt, steps[..k]).0, steps[k].slot) == LaneAt(rt, steps[k].slot);
  }

  /** When a session commit is refused in the middle of a batch, a later step of the batch has
      its tokens in memory but not in its counters: its lane is out of step exactly when that
      step decoded anything. */
  lemma AbandonedStepExact(m: Model, st: Settings, rt: Runtime, steps: seq<Step>, k: nat)
    requires RuntimeOk(m, rt) && PrefillAccepted(st, rt, steps) && k < |steps|
    requires !PrefillAll(rt, steps[..k]).1
    ensures var i := steps[k].slot;
            && StepOk(rt, steps[k])
            && (LaneOk(m, i, LaneAt(Prefill(st, rt, steps).0, i)) <==> PhysicalStep(rt.seqs[i].value, steps[k].budget) == 0)
  {
    var i := steps[k].slot;
    AbandonedLane(m, st, rt, steps, k);
    var s := rt.seqs[i].value;
    OverrunLane(m, i, LaneAt(rt, i), PromptCells(s, PhysicalStep(s, steps[k].budget)));
  }
}
