/** A sequence from its opening on, over whole runs of the native runtime: what each command
    does to its owner record, the text its decode commands handed out, and whether its session
    was committed. */
module SequenceHistory {
  import opened Basics
  import opened KvMemory
  import opened Generation
  import opened NativeRuntime
  import opened RuntimeSteps
  import opened RuntimeTransparency
  import E = SlotEngine
  import C = PromptCache
  import P = PhaseController
  import U = Utf8

  // ----- what prefilling does to an owner -----

  /** The condition under which a checkpoint commits the session. */
  predicate CommitsNow(s: Sequence) {
    && s.identity.Some? && s.request.session.Some? && s.request.session.value.commit && s.committed.None?
    && s.physical == |s.request.sessionPrefix|
  }

  /** `s1` is `s` after a prefill step that succeeded. */
  predicate SteppedTo(s: Sequence, s1: Sequence, budget: nat)
    requires s.logical <= |s.request.job.prompt|
  {
    var a := Advance(s, budget);
    && s1 == a.(committed := s1.committed)
    && (if CommitsNow(a) then s1.committed.Some? else s1.committed == s.committed)
  }

  lemma CheckpointOwner(rt: Runtime, step: Step)
    requires Shape(rt) && step.slot < |rt.seqs| && rt.seqs[step.slot].Some?
    requires rt.seqs[step.slot].value.physical <= |rt.seqs[step.slot].value.request.job.prompt|
    ensures var (rt1, ok) := Checkpoint(rt, step); var s := rt.seqs[step.slot].value;
            && rt1.engine == rt.engine && (forall k :: 0 <= k < |rt.seqs| && k != step.slot ==> rt1.seqs[k] == rt.seqs[k])
            && (ok ==> && rt1.seqs[step.slot].Some?
                       && var s1 := rt1.seqs[step.slot].value;
                          s1 == s.(committed := s1.committed) && (if CommitsNow(s) then s1.committed.Some? else s1 == s))
  {
    hide C.StoreSession;
    hide C.Store;
  }

  lemma PrefillOneOwner(m: Model, rt: Runtime, step: Step)
    requires RuntimeOk(m, rt) && StepOk(rt, step) && step.budget > 0 && PrefillOne(rt, step).1
    ensures var (s, rt1) := (rt.seqs[step.slot].value, PrefillOne(rt, step).0);
            && rt1.seqs[step.slot].Some? && SteppedTo(s, rt1.seqs[step.slot].value, step.budget)
            && rt1.engine.slots[step.slot].lifecycle ==
                 (if s.logical + LogicalStep(s, step.budget) == |s.request.job.prompt| then E.Decode else E.Prefill)
  {
    hide Checkpoint;
    hide LogicalStep;
    hide C.WellKept;
    var i := step.slot;
    assert LaneOk(m, i, LaneAt(rt, i));
    AdvancedOk(m, rt, step);
    CheckpointOwner(Advanced(rt, step), step);
    hide LaneOk;
  }

  /** A prefill command takes each sequence it names one step on. */
  lemma {:induction false} PrefillOwner(m: Model, rt: Runtime, steps: seq<Step>, k: nat)
    requires RuntimeOk(m, rt) && DistinctSlots(steps) && k < |steps| && PrefillAll(rt, steps).1
    requires forall j :: 0 <= j < |steps| ==> StepOk(rt, steps[j]) && steps[j].budget > 0
    ensures var (i, rt1) := (steps[k].slot, PrefillAll(rt, steps).0);
            && StepOk(rt, steps[k]) && rt1.seqs[i].Some? && SteppedTo(rt.seqs[i].value, rt1.seqs[i].value, steps[k].budget)
            && var s := rt.seqs[i].value;
               rt1.engine.slots[i].lifecycle ==
                 (if s.logical + LogicalStep(s, steps[k].budget) == |s.request.job.prompt| then E.Decode else E.Prefill)
    decreases |steps|
  {
    hide LaneOk;
    hide E.LedgerHolds;
    hide C.WellKept;
    hide PrefillOne;
    hide SteppedTo;
    hide LogicalStep;
    var init, last := steps[..|steps| - 1], steps[|steps| - 1];
    assert StepOk(rt, last) && StepOk(rt, steps[k]);
    PrefillAllOk(m, rt, init);
    var mid := PrefillAll(rt, init).0;
    assert LaneAt(mid, last.slot) == LaneAt(rt, last.slot);
    PrefillOneOk(m, mid, last);
    if k == |steps| - 1 {
      PrefillOneOwner(m, mid, last);
    } else {
      PrefillOwner(m, rt, init, k);
      assert LaneAt(PrefillOne(mid, last).0, steps[k].slot) == LaneAt(mid, steps[k].slot);
    }
  }

  // ----- what the other commands do to an owner -----

  /** The slot's owner and its engine record are as before. */
  predicate SameOwner(rt1: Runtime, rt: Runtime, i: nat)
    requires Shape(rt) && i < |rt.seqs| && |rt1.seqs| == |rt1.engine.slots| == |rt.seqs|
  {
    rt1.seqs[i] == rt.seqs[i] && rt1.engine.slots[i] == rt.engine.slots[i]
  }

  /** A sequence just opened for `q`. */
  predicate JustOpened(m: Model, rt: Runtime, i: nat, q: Request, identity: Option<string>)
    requires i < |rt.seqs| == |rt.engine.slots|
  {
    && rt.seqs[i].Some? && rt.engine.slots[i].lifecycle == E.Prefill
    && var s := rt.seqs[i].value;
       s.request == q && s.identity == identity && s.committed.None? && s.gen == NewGen(m, q.job)
  }

  lemma OpenRestoreOwner(m: Model, rt: Runtime, i: nat, now: int, copies: bool, k: nat)
    requires RuntimeOk(m, rt) && i < |rt.seqs| && rt.seqs[i].Some? && k < |rt.seqs|
    requires rt.engine.slots[i].lifecycle == E.Prefill && rt.engine.slots[i].processed == 0
    ensures var rt1 := OpenRestore(rt, i, now, copies).0;
            && |rt1.engine.slots| == |rt1.seqs| == |rt.seqs|
            && (k != i ==> SameOwner(rt1, rt, k))
            && (k == i ==> || rt1.seqs[i].None?
                           || (&& rt1.seqs[i].Some? && rt1.engine.slots[i].lifecycle == E.Prefill
                               && var (s, s1) := (rt.seqs[i].value, rt1.seqs[i].value);
                                  s1 == s.(logical := s1.logical, physical := s1.physical, nPast := s1.nPast)))
  {
    hide E.LedgerHolds;
    hide C.WellKept;
    hide LookUp;
    var s := rt.seqs[i].value;
    var lane := LaneAt(rt, i);
    assert LaneOk(m, i, lane) && E.Finds(rt.engine, s.handle);
    if s.identity.Some? {
      LookUpOk(rt.cache, s.identity.value, s.request, now, copies);
      CancelRelease(rt.engine, s.handle);
    }
  }

  lemma LiveOwner(m: Model, i: nat, lane: Lane)
    requires LaneOk(m, i, lane)
    ensures lane.owner.Some? <==> E.IsLive(lane.slot)
  {
  }

  lemma OpenAdmitOwner(m: Model, rt: Runtime, q: Request, identity: Option<string>, k: nat)
    requires RuntimeOk(m, rt) && RequestOk(m, q) && k < |rt.seqs|
    ensures var (rt1, r) := OpenAdmit(m, rt, q, identity);
            && Shape(rt1) && |rt1.seqs| == |rt.seqs|
            && (if r.Opened? then 0 <= r.handle.slot < |rt.seqs| && rt.seqs[r.handle.slot].None?
                                  && (k != r.handle.slot ==> SameOwner(rt1, rt, k)) && JustOpened(m, rt1, r.handle.slot, q, identity)
                else SameOwner(rt1, rt, k))
  {
    hide LaneOk;
    hide E.LedgerHolds;
    hide E.Admit;
    hide E.StartPrefill;
    hide C.WellKept;
    AdmitAndStart(rt.engine, q.requestId, q.attemptId, |q.job.prompt|, q.job.totalTokens);
    var a := E.Admit(rt.engine, q.requestId, q.attemptId, |q.job.prompt|, q.job.totalTokens).1;
    if a.AdmittedTo? {
      assert LaneOk(m, a.handle.slot, LaneAt(rt, a.handle.slot));
      LiveOwner(m, a.handle.slot, LaneAt(rt, a.handle.slot));
    }
  }

  /** Opening touches no owner; the one it makes is new. */
  lemma OpenOwner(m: Model, st: Settings, rt: Runtime, q: Request, now: int, copies: bool, k: nat)
    requires RuntimeOk(m, rt) && k < |rt.seqs|
    ensures var rt1 := Open(m, st, rt, q, now, copies).0;
            && |rt1.engine.slots| == |rt1.seqs| == |rt.seqs|
            && (rt.seqs[k].Some? ==> SameOwner(rt1, rt, k))
            && (rt.seqs[k].None? && rt1.seqs[k].Some? ==>
                  Refusal(m, st, rt.cache.enabled, q).None? && JustOpened(m, rt1, k, q, Identity(rt, q)))
  {
    hide LaneOk;
    hide OpenAdmit;
    hide OpenRestore;
    hide E.LedgerHolds;
    if Refusal(m, st, rt.cache.enabled, q).None? {
      var identity := Identity(rt, q);
      C.PruneKeeps(rt.cache, now, 0);
      CacheSwapOk(m, rt, C.Prune(rt.cache, now));
      var root := q.session.Some? && q.session.value.parent.None?;
      var rt1 := if root && identity.Some? then rt.(cache := C.Prune(rt.cache, now)) else rt;
      OpenAdmitOk(m, rt1, q, identity);
      OpenAdmitOwner(m, rt1, q, identity, k);
      var (rt2, r) := OpenAdmit(m, rt1, q, identity);
      if r.Opened? { OpenRestoreOwner(m, rt2, r.handle.slot, now, copies, k); }
    }
  }

  lemma ReleaseOwner(m: Model, rt: Runtime, i: nat, generation: nat, k: nat)
    requires RuntimeOk(m, rt) && i < |rt.seqs| && k < |rt.seqs| && ReleaseNamesOwner(rt, i, generation)
    ensures var rt1 := Release(rt, i, generation).0;
            && |rt1.engine.slots| == |rt1.seqs| == |rt.seqs|
            && (if k == i then rt1.seqs[k].None? else SameOwner(rt1, rt, k))
  {
    hide E.LedgerHolds;
    ReleaseOk(m, rt, i, generation);
    assert LaneOk(m, i, LaneAt(rt, i));
    if rt.seqs[i].Some? {
      CancelRelease(rt.engine, rt.seqs[i].value.handle);
    } else {
      assert !E.Finds(rt.engine, E.Handle(i, generation, "", ""));
    }
  }

  // ----- text -----

  /** What a token of a decode round adds to the outcome's text delta. */
  function TokenText(m: Model, lane: Lane): seq<U.Byte>
    requires lane.owner.Some?
  {
    var s := lane.owner.value;
    Decoded(m, s.gen, m.sample(lane.kv + [Cell(s.nPast, s.pending)], s.gen.finalPhase, s.gen.accepted, s.request.job.grammar)).completed
  }

  /** The text delta of a decode command for one lane: what its tokens completed, one after
      another. */
  function TextDelta(m: Model, lane: Lane, n: nat): seq<U.Byte>
    requires lane.owner.Some?
    decreases n
  {
    if n == 0 then []
    else
      var before := DecodeRounds(m, lane, n - 1);
      TextDelta(m, lane, n - 1) + if before.owner.value.gen.terminal then [] else TokenText(m, before)
  }

  lemma {:induction false} TextDeltaGrows(m: Model, lane: Lane, n: nat)
    requires lane.owner.Some?
    ensures DecodeRounds(m, lane, n).owner.value.gen.deltas == lane.owner.value.gen.deltas + TextDelta(m, lane, n)
    decreases n
  {
    hide P.Consume;
    hide Decoded;
    if n == 0 {
      assert lane.owner.value.gen.deltas + [] == lane.owner.value.gen.deltas;
    } else {
      TextDeltaGrows(m, lane, n - 1);
      var d, more := TextDelta(m, lane, n - 1), TokenText(m, DecodeRounds(m, lane, n - 1));
      assert (lane.owner.value.gen.deltas + d) + more == lane.owner.value.gen.deltas + (d + more);
      assert d + [] == d;
    }
  }

  lemma DecodeOwner(m: Model, st: Settings, rt: Runtime, quanta: seq<Quantum>, i: nat)
    requires RuntimeOk(m, rt) && DecodeAccepted(st, rt, quanta) && i < |rt.seqs|
    ensures var rt1 := DecodeAll(m, rt, quanta);
            if rt.seqs[i].None? then rt1.seqs[i].None?
            else
              && rt1.seqs[i].Some?
              && (rt1.engine.slots[i].lifecycle == E.Prefill <==> rt.engine.slots[i].lifecycle == E.Prefill)
              && var (s, s1) := (rt.seqs[i].value, rt1.seqs[i].value);
                 && s1 == s.(nPast := s1.nPast, gen := s1.gen, pending := s1.pending)
                 && s1.gen.deltas == s.gen.deltas + TextDelta(m, LaneAt(rt, i), BudgetOf(quanta, i))
  {
    hide LaneOk;
    hide DecodeRounds;
    hide DecodeAll;
    hide TextDelta;
    DecodeAllOk(m, rt, quanta);
    var lane, n := LaneAt(rt, i), BudgetOf(quanta, i);
    assert LaneAt(DecodeAll(m, rt, quanta), i) == LaneAfter(m, lane, n);
    if lane.owner.Some? {
      TextDeltaGrows(m, lane, n);
      NamedDecodes(rt, quanta, i);
      if n > 0 {
        assert LaneOk(m, i, lane);
        DecodeRoundsOk(m, i, lane, n);
      } else {
        NoRounds(m, lane);
      }
    }
  }

  lemma NoRounds(m: Model, lane: Lane)
    requires lane.owner.Some?
    ensures DecodeRounds(m, lane, 0) == lane
  {
  }

  lemma {:induction false} NamedDecodes(rt: Runtime, quanta: seq<Quantum>, i: nat)
    requires Shape(rt) && i < |rt.seqs| && forall k :: 0 <= k < |quanta| ==> QuantumOk(rt, quanta[k])
    ensures BudgetOf(quanta, i) > 0 ==> rt.engine.slots[i].lifecycle == E.Decode
    decreases |quanta|
  {
    if quanta != [] && quanta[|quanta| - 1].slot != i { NamedDecodes(rt, quanta[..|quanta| - 1], i); }
  }

  // ----- whole runs -----

  /** The state after commands; commands and answers determine it. */
  function StateAfter(m: Model, st: Settings, start: Runtime, cmds: seq<Command>): Runtime
    decreases |cmds|
  {
    if cmds == [] then start
    else
      var mid := StateAfter(m, st, start, cmds[..|cmds| - 1]);
      if Shape(mid) then Execute(m, st, mid, cmds[|cmds| - 1]).0 else mid
  }

  lemma {:induction false} ReachedState(m: Model, st: Settings, start: Runtime, cmds: seq<Command>, rt: Runtime)
    requires Reaches(m, st, start, cmds, rt)
    ensures rt == StateAfter(m, st, start, cmds)
    ensures cmds != [] ==>
              && var mid := StateAfter(m, st, start, cmds[..|cmds| - 1]);
              && Reaches(m, st, start, cmds[..|cmds| - 1], mid) && Shape(mid) && Clean(m, st, mid, cmds[|cmds| - 1])
              && rt == Execute(m, st, mid, cmds[|cmds| - 1]).0
    decreases |cmds|
  {
    hide Execute;
    hide Clean;
    if cmds != [] {
      var mid :| && Reaches(m, st, start, cmds[..|cmds| - 1], mid) && Shape(mid)
                 && Clean(m, st, mid, cmds[|cmds| - 1]) && rt == Execute(m, st, mid, cmds[|cmds| - 1]).0;
      ReachedState(m, st, start, cmds[..|cmds| - 1], mid);
    }
  }

  /** The text delta a command hands out for slot `i`; empty unless it is a decode command that
      names the slot. */
  function CommandText(m: Model, st: Settings, rt: Runtime, cmd: Command, i: nat): seq<U.Byte>
    requires Shape(rt) && i < |rt.seqs| && rt.seqs[i].Some?
  {
    if cmd.DecodeBatch? && DecodeAccepted(st, rt, cmd.quanta) then TextDelta(m, LaneAt(rt, i), BudgetOf(cmd.quanta, i)) else []
  }

  /** Did slot `i` have an owner before the last command? */
  predicate WasOwned(m: Model, st: Settings, start: Runtime, cmds: seq<Command>, i: nat)
    requires cmds != []
  {
    var mid := StateAfter(m, st, start, cmds[..|cmds| - 1]);
    Shape(mid) && i < |mid.seqs| && mid.seqs[i].Some?
  }

  /** All text deltas handed out for slot `i` since its present owner was opened. */
  function TextSent(m: Model, st: Settings, start: Runtime, cmds: seq<Command>, i: nat): seq<U.Byte>
    decreases |cmds|
  {
    if cmds == [] || !WasOwned(m, st, start, cmds, i) then []
    else
      var init := cmds[..|cmds| - 1];
      TextSent(m, st, start, init, i) + CommandText(m, st, StateAfter(m, st, start, init), cmds[|cmds| - 1], i)
  }

  /** Tokens the present owner of slot `i` had in memory when it was opened: what was restored
      from the cache. */
  function Restored(m: Model, st: Settings, start: Runtime, cmds: seq<Command>, i: nat): nat
    decreases |cmds|
  {
    if cmds == [] then 0
    else if WasOwned(m, st, start, cmds, i) then Restored(m, st, start, cmds[..|cmds| - 1], i)
    else
      var rt := StateAfter(m, st, start, cmds);
      if i < |rt.seqs| && rt.seqs[i].Some? then rt.seqs[i].value.physical else 0
  }

  /** What a clean command does to the owner of slot `i`. */
  ghost predicate OwnerMoves(m: Model, st: Settings, rt: Runtime, cmd: Command, rt1: Runtime, i: nat)
    requires Shape(rt) && i < |rt.seqs| == |rt1.seqs| == |rt1.engine.slots| && rt1.seqs[i].Some?
  {
    if rt.seqs[i].None? then
      exists q :: Refusal(m, st, rt.cache.enabled, q).None? && JustOpened(m, rt1, i, q, Identity(rt, q))
    else
      var (s, s1) := (rt.seqs[i].value, rt1.seqs[i].value);
      && s1.gen.deltas == s.gen.deltas + CommandText(m, st, rt, cmd, i)
      && (|| (exists budget: nat :: budget > 0 && PrefillMoves(rt, rt1, i, budget))
          || (&& s1 == s.(nPast := s1.nPast, gen := s1.gen, pending := s1.pending)
              && (rt1.engine.slots[i].lifecycle == E.Prefill <==> rt.engine.slots[i].lifecycle == E.Prefill)))
  }

  /** A prefill step of slot `i`. */
  predicate PrefillMoves(rt: Runtime, rt1: Runtime, i: nat, budget: nat)
    requires Shape(rt) && i < |rt.seqs| == |rt1.seqs| == |rt1.engine.slots| && rt1.seqs[i].Some? && rt.seqs[i].Some?
  {
    var (s, s1) := (rt.seqs[i].value, rt1.seqs[i].value);
    && s.logical <= |s.request.job.prompt| && rt.engine.slots[i].lifecycle == E.Prefill && SteppedTo(s, s1, budget)
    && rt1.engine.slots[i].lifecycle == (if s.logical + LogicalStep(s, budget) == |s.request.job.prompt| then E.Decode else E.Prefill)
  }

  lemma PrefillCommand(m: Model, st: Settings, rt: Runtime, steps: seq<Step>, i: nat)
    requires RuntimeOk(m, rt) && Clean(m, st, rt, PrefillBatch(steps)) && i < |rt.seqs|
    ensures var rt1 := Execute(m, st, rt, PrefillBatch(steps)).0;
            && |rt1.seqs| == |rt1.engine.slots| == |rt.seqs|
            && (rt.seqs[i].None? ==> rt1.seqs[i].None?)
            && (rt1.seqs[i].Some? ==> OwnerMoves(m, st, rt, PrefillBatch(steps), rt1, i))
  {
    hide LaneOk;
    hide E.LedgerHolds;
    hide C.WellKept;
    hide SteppedTo;
    hide LogicalStep;
    var rt1 := Execute(m, st, rt, PrefillBatch(steps)).0;
    if rt.seqs[i].Some? { assert rt.seqs[i].value.gen.deltas + [] == rt.seqs[i].value.gen.deltas; }
    if PrefillAccepted(st, rt, steps) {
      PrefillAllOk(m, rt, steps);
      if k :| 0 <= k < |steps| && steps[k].slot == i {
        PrefillOwner(m, rt, steps, k);
        KeepsText(rt.seqs[i].value, rt1.seqs[i].value, steps[k].budget);
        assert PrefillMoves(rt, rt1, i, steps[k].budget);
      } else {
        assert LaneAt(PrefillAll(rt, steps).0, i) == LaneAt(rt, i);
      }
    }
  }

  lemma KeepsText(s: Sequence, s1: Sequence, budget: nat)
    requires s.logical <= |s.request.job.prompt| && SteppedTo(s, s1, budget)
    ensures s1.gen == s.gen
  {
  }

  lemma OwnerStep(m: Model, st: Settings, rt: Runtime, cmd: Command, i: nat)
    requires RuntimeOk(m, rt) && Clean(m, st, rt, cmd) && i < |rt.seqs|
    ensures var rt1 := Execute(m, st, rt, cmd).0;
            && |rt1.seqs| == |rt1.engine.slots| == |rt.seqs|
            && (rt1.seqs[i].Some? ==> OwnerMoves(m, st, rt, cmd, rt1, i))
  {
    hide RuntimeOk;
    hide Open;
    hide DecodeAll;
    hide Release;
    hide Prefill;
    hide PrefillMoves;
    ShapeOfOk(m, rt);
    if rt.seqs[i].Some? { assert rt.seqs[i].value.gen.deltas + [] == rt.seqs[i].value.gen.deltas; }
    match cmd
    case OpenSequence(q, now, copies) => OpenOwner(m, st, rt, q, now, copies, i);
    case PrefillBatch(steps) => PrefillCommand(m, st, rt, steps, i);
    case DecodeBatch(quanta) => if DecodeAccepted(st, rt, quanta) { DecodeOwner(m, st, rt, quanta, i); }
    case ReleaseSequence(j, g) => if j < |rt.seqs| { ReleaseOwner(m, rt, j, g, i); }
    case _ =>
  }

  lemma ShapeOfOk(m: Model, rt: Runtime)
    requires RuntimeOk(m, rt)
    ensures Shape(rt)
  {
  }

  // ----- the text a client has been sent -----

  lemma {:induction false} TextSentIsDelivered(
    m: Model, st: Settings, start: Runtime, cmds: seq<Command>, rt: Runtime, slots: nat, capacity: nat, cache: C.Cache, i: nat)
    requires FreshStart(start, slots, capacity, cache) && Reaches(m, st, start, cmds, rt) && i < |rt.seqs| && rt.seqs[i].Some?
    ensures TextSent(m, st, start, cmds, i) == rt.seqs[i].value.gen.deltas
    decreases |cmds|
  {
    hide RuntimeOk;
    hide Execute;
    hide Clean;
    hide CommandText;
    ReachedState(m, st, start, cmds, rt);
    if cmds != [] {
      var init := cmds[..|cmds| - 1];
      var mid := StateAfter(m, st, start, init);
      ReachedOk(m, st, start, init, mid, slots, capacity, cache);
      SameSlots(m, st, mid, cmds[|cmds| - 1]);
      OwnerStep(m, st, mid, cmds[|cmds| - 1], i);
      if mid.seqs[i].Some? { TextSentIsDelivered(m, st, start, init, mid, slots, capacity, cache, i); }
    }
  }

  lemma SameSlots(m: Model, st: Settings, rt: Runtime, cmd: Command)
    requires RuntimeOk(m, rt) && Clean(m, st, rt, cmd)
    ensures |Execute(m, st, rt, cmd).0.seqs| == |rt.seqs|
  {
    hide RuntimeOk;
    hide Execute;
    ShapeOfOk(m, rt);
    NonEmpty(m, rt);
    OwnerStep(m, st, rt, cmd, 0);
  }

  lemma NonEmpty(m: Model, rt: Runtime)
    requires RuntimeOk(m, rt)
    ensures |rt.seqs| > 0
  {
  }

  /** The client's check never fires. In every run, whatever other commands come in between and
      whatever budgets the decode commands give, the text deltas handed out for a sequence that
      has finished concatenate to its final text, which is UTF-8. */
  lemma DeltasMatchFinalText(
    m: Model, st: Settings, start: Runtime, cmds: seq<Command>, rt: Runtime, slots: nat, capacity: nat, cache: C.Cache, i: nat)
    requires FreshStart(start, slots, capacity, cache) && Reaches(m, st, start, cmds, rt) && i < |rt.seqs| && rt.seqs[i].Some?
    requires rt.seqs[i].value.gen.terminal && !rt.seqs[i].value.gen.failed
    ensures var text := rt.seqs[i].value.gen.finalBytes;
            TextSent(m, st, start, cmds, i) == text && U.WellFormed(text)
  {
    hide TextSent;
    hide Reaches;
    TextSentIsDelivered(m, st, start, cmds, rt, slots, capacity, cache, i);
    ReachedOk(m, st, start, cmds, rt, slots, capacity, cache);
    assert LaneOk(m, i, LaneAt(rt, i));
    FinishedLane(m, i, LaneAt(rt, i));
  }

  // ----- session commits -----

  predicate AsksToCommit(s: Sequence) { s.request.session.Some? && s.request.session.value.commit }

  /** Will a session be committed before decoding, given how much was restored? Either the prefix
      was still to be prefilled, or it was restored whole and only the last prompt token, which
      prefilling leaves out, is missing. */
  predicate WillCommit(s: Sequence, restored: nat) {
    var (n, p) := (|s.request.sessionPrefix|, |s.request.job.prompt|);
    restored < n || (restored == n && n + 1 == p)
  }

  /** Where a sequence that asks to commit stands. */
  predicate CommitOk(slot: E.Slot, s: Sequence, restored: nat) {
    && (s.request.session.Some? ==> s.identity.Some?) && s.physical >= restored
    && (AsksToCommit(s) ==>
          var n := |s.request.sessionPrefix|;
          if s.committed.Some? then WillCommit(s, restored)
          else if restored < n then slot.lifecycle == E.Prefill && s.physical < n
          else if WillCommit(s, restored) then slot.lifecycle == E.Prefill && s.physical == n
          else s.physical > n || (s.physical == n && slot.lifecycle == E.Prefill))
  }

  lemma OpensCommitOk(m: Model, st: Settings, rt: Runtime, rt1: Runtime, i: nat, q: Request)
    requires RuntimeOk(m, rt1) && i < |rt1.seqs| && Refusal(m, st, rt.cache.enabled, q).None? && JustOpened(m, rt1, i, q, Identity(rt, q))
    ensures CommitOk(rt1.engine.slots[i], rt1.seqs[i].value, rt1.seqs[i].value.physical)
  {
    assert LaneOk(m, i, LaneAt(rt1, i));
  }

  /** A step of a sequence whose commit is pending stops at the end of its session prefix. */
  lemma PendingStep(s: Sequence, budget: nat)
    requires s.logical == s.physical < |s.request.job.prompt| && budget > 0 && s.identity.Some? && AsksToCommit(s) && s.committed.None?
    requires SessionPrefixOk(s.request)
    ensures var (n, p, a) := (|s.request.sessionPrefix|, |s.request.job.prompt|, Advance(s, budget));
            && (s.physical < n ==> a.physical <= n && a.logical == a.physical < p)
            && (s.physical >= n && s.physical + 1 < p ==> a.physical > s.physical)
            && (s.physical >= n && s.physical + 1 == p ==> a.physical == s.physical && a.logical == p)
  {
  }

  lemma PrefillCommitOk(m: Model, rt: Runtime, rt1: Runtime, i: nat, budget: nat, restored: nat)
    requires RuntimeOk(m, rt) && i < |rt.seqs| == |rt1.seqs| == |rt1.engine.slots| && rt.seqs[i].Some? && rt1.seqs[i].Some?
    requires budget > 0 && PrefillMoves(rt, rt1, i, budget) && CommitOk(rt.engine.slots[i], rt.seqs[i].value, restored)
    ensures CommitOk(rt1.engine.slots[i], rt1.seqs[i].value, restored)
  {
    hide E.LedgerHolds;
    hide LogicalStep;
    hide PhysicalStep;
    assert LaneOk(m, i, LaneAt(rt, i));
    var s := rt.seqs[i].value;
    if AsksToCommit(s) && s.committed.None? { PendingStep(s, budget); }
  }

  lemma OtherCommitOk(rt: Runtime, rt1: Runtime, i: nat, restored: nat)
    requires Shape(rt) && i < |rt.seqs| == |rt1.seqs| == |rt1.engine.slots| && rt.seqs[i].Some? && rt1.seqs[i].Some?
    requires var (s, s1) := (rt.seqs[i].value, rt1.seqs[i].value);
             s1 == s.(nPast := s1.nPast, gen := s1.gen, pending := s1.pending)
    requires rt1.engine.slots[i].lifecycle == E.Prefill <==> rt.engine.slots[i].lifecycle == E.Prefill
    requires CommitOk(rt.engine.slots[i], rt.seqs[i].value, restored)
    ensures CommitOk(rt1.engine.slots[i], rt1.seqs[i].value, restored)
  {
  }

  lemma {:induction false} CommitsTracked(
    m: Model, st: Settings, start: Runtime, cmds: seq<Command>, rt: Runtime, slots: nat, capacity: nat, cache: C.Cache, i: nat)
    requires FreshStart(start, slots, capacity, cache) && Reaches(m, st, start, cmds, rt) && Shape(rt) && i < |rt.seqs| && rt.seqs[i].Some?
    ensures CommitOk(rt.engine.slots[i], rt.seqs[i].value, Restored(m, st, start, cmds, i))
    decreases |cmds|
  {
    hide RuntimeOk;
    hide Execute;
    hide Clean;
    hide CommitOk;
    hide CommandText;
    hide JustOpened;
    hide PrefillMoves;
    ReachedState(m, st, start, cmds, rt);
    if cmds != [] {
      var init, cmd := cmds[..|cmds| - 1], cmds[|cmds| - 1];
      var mid := StateAfter(m, st, start, init);
      ReachedOk(m, st, start, init, mid, slots, capacity, cache);
      ReachedOk(m, st, start, cmds, rt, slots, capacity, cache);
      SameSlots(m, st, mid, cmd);
      OwnerStep(m, st, mid, cmd, i);
      if mid.seqs[i].None? {
        var q :| Refusal(m, st, mid.cache.enabled, q).None? && JustOpened(m, rt, i, q, Identity(mid, q));
        OpensCommitOk(m, st, mid, rt, i, q);
      } else {
        CommitsTracked(m, st, start, init, mid, slots, capacity, cache, i);
        var restored := Restored(m, st, start, init, i);
        if budget: nat :| budget > 0 && PrefillMoves(mid, rt, i, budget) {
          PrefillCommitOk(m, mid, rt, i, budget, restored);
        } else {
          OtherCommitOk(mid, rt, i, restored);
        }
      }
    }
  }

  /** When sessions commit. In every reached state in which a sequence that asked for a commit is
      past prefilling, it has committed if and only if it opened with fewer restored tokens than
      its session prefix, or with exactly the prefix and only the last prompt token to go. */
  lemma CommitsExactly(
    m: Model, st: Settings, start: Runtime, cmds: seq<Command>, rt: Runtime, slots: nat, capacity: nat, cache: C.Cache, i: nat)
    requires FreshStart(start, slots, capacity, cache) && Reaches(m, st, start, cmds, rt) && Shape(rt) && i < |rt.seqs| && rt.seqs[i].Some?
    requires AsksToCommit(rt.seqs[i].value) && rt.engine.slots[i].lifecycle != E.Prefill
    ensures var (s, restored) := (rt.seqs[i].value, Restored(m, st, start, cmds, i));
            s.committed.Some? <==>
              || restored < |s.request.sessionPrefix|
              || restored == |s.request.sessionPrefix| == |s.request.job.prompt| - 1
  {
    hide Restored;
    hide Reaches;
    CommitsTracked(m, st, start, cmds, rt, slots, capacity, cache, i);
  }
}
