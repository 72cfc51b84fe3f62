/** Runs of the native runtime, from a fresh start, in which the two exceptional cases do occur: a
    release with a handle of an earlier owner of the slot, and a prefill batch abandoned by a
    refused session commit. Every command before the incident is clean. */
module RuntimeIncidents {
  import opened Basics
  import opened KvMemory
  import opened Generation
  import opened NativeRuntime
  import opened RuntimeSteps
  import opened RuntimeTransparency
  import E = SlotEngine
  import C = PromptCache

  // ----- opening at a known slot -----

  function OpenedSlot(e: E.Engine, i: nat, q: Request): E.Slot
    requires i < |e.slots|
  {
    E.Slot(E.NextGeneration(e.slots[i].generation), q.requestId, q.attemptId, E.Prefill, E.NoReason,
           |q.job.prompt|, q.job.totalTokens, 0, 0)
  }

  /** Slot `i` is the first free one, and the request is new and fits. */
  predicate Admissible(e: E.Engine, i: nat, q: Request) {
    && i < |e.slots| && !E.IsLive(e.slots[i]) && (forall k :: 0 <= k < i ==> E.IsLive(e.slots[k]))
    && !E.HasPair(e.slots, q.requestId, q.attemptId) && e.reserved + |q.job.prompt| + q.job.totalTokens <= e.capacity
  }

  lemma {:induction false} FirstFreeIs(slots: seq<E.Slot>, from: nat, i: nat)
    requires from <= i < |slots| && !E.IsLive(slots[i]) && forall k :: from <= k < i ==> E.IsLive(slots[k])
    ensures E.FirstFree(slots, from) == i
    decreases i - from
  {
    if from < i { FirstFreeIs(slots, from + 1, i); }
  }

  lemma AdmitsAt(e: E.Engine, i: nat, q: Request)
    requires E.LedgerHolds(e) && Admissible(e, i, q)
    requires q.requestId != "" && q.attemptId != "" && q.job.prompt != [] && q.job.totalTokens > 0
    ensures var (e1, a) := E.Admit(e, q.requestId, q.attemptId, |q.job.prompt|, q.job.totalTokens);
            && a.AdmittedTo? && a.handle == E.HandleOf(i, OpenedSlot(e, i, q))
            && E.StartPrefill(e1, a.handle) ==
                 (e.(slots := e.slots[i := OpenedSlot(e, i, q)], reserved := e.reserved + |q.job.prompt| + q.job.totalTokens, active := e.active + 1),
                  E.Applied)
  {
    E.AdmitIsExact(e, q.requestId, q.attemptId, |q.job.prompt|, q.job.totalTokens);
    FirstFreeIs(e.slots, 0, i);
    var slot := OpenedSlot(e, i, q);
    assert e.slots[i := slot.(lifecycle := E.Admitted)][i := slot] == e.slots[i := slot];
  }

  /** The runtime once `q` is open in slot `i`. */
  function WithOpen(m: Model, rt: Runtime, i: nat, q: Request): Runtime
    requires Shape(rt) && i < |rt.seqs| && q.job.prompt != []
  {
    var slot := OpenedSlot(rt.engine, i, q);
    Runtime(rt.engine.(slots := rt.engine.slots[i := slot], reserved := rt.engine.reserved + |q.job.prompt| + q.job.totalTokens,
                       active := rt.engine.active + 1),
            rt.seqs[i := Some(NewSequence(m, q, Identity(rt, q), E.HandleOf(i, slot)))], rt.kv, rt.cache)
  }

  predicate StartsSession(q: Request) { q.session.Some? ==> q.session.value.parent.None? }

  /** With an empty cache, opening a request that continues no session does just that. */
  lemma OpensAt(m: Model, st: Settings, rt: Runtime, i: nat, q: Request, now: int, copies: bool)
    requires RuntimeOk(m, rt) && Refusal(m, st, rt.cache.enabled, q).None? && Admissible(rt.engine, i, q)
    requires rt.cache.entries == [] && StartsSession(q)
    ensures Execute(m, st, rt, OpenSequence(q, now, copies)) == (WithOpen(m, rt, i, q), Answered)
    ensures RuntimeOk(m, WithOpen(m, rt, i, q))
  {
    hide E.LedgerHolds;
    hide E.Admit;
    hide E.StartPrefill;
    hide LaneOk;
    AdmitsAt(rt.engine, i, q);
    NothingCached(rt.cache, now);
    OpenOk(m, st, rt, q, now, copies);
    assert rt.cache.(entries := rt.cache.entries) == rt.cache;
  }

  lemma NothingCached(c: C.Cache, now: int)
    requires c.entries == []
    ensures C.Prune(c, now) == c && forall identity, tokens, copies :: C.Restore(c, identity, tokens, now, copies) == (c, None)
  {
  }

  lemma {:induction false} StepReaches(m: Model, st: Settings, start: Runtime, cmds: seq<Command>, mid: Runtime, cmd: Command, rt: Runtime)
    requires Reaches(m, st, start, cmds, mid) && Shape(mid) && Clean(m, st, mid, cmd) && rt == Execute(m, st, mid, cmd).0
    ensures Reaches(m, st, start, cmds + [cmd], rt)
  {
    hide Execute;
    hide Clean;
    assert (cmds + [cmd])[..|cmds|] == cmds && (cmds + [cmd])[|cmds|] == cmd;
  }

  lemma NothingLive(e: E.Engine, q: Request)
    requires E.LedgerHolds(e) && (forall k :: 0 <= k < |e.slots| ==> !E.IsLive(e.slots[k]))
    requires |q.job.prompt| + q.job.totalTokens <= e.capacity
    ensures Admissible(e, 0, q)
  {
    E.FreshTotals(e.slots);
  }

  // ----- a stale release -----

  lemma ReleasedFree(m: Model, rt: Runtime, generation: nat)
    requires RuntimeOk(m, rt) && 0 < |rt.seqs| && rt.seqs[0].Some? && rt.seqs[0].value.handle.generation == generation
    requires forall k :: 0 < k < |rt.seqs| ==> !E.IsLive(rt.engine.slots[k])
    ensures var rt1 := Release(rt, 0, generation).0;
            && RuntimeOk(m, rt1) && |rt1.seqs| == |rt.seqs| && rt1.engine.capacity == rt.engine.capacity && rt1.cache == rt.cache
            && (forall k :: 0 <= k < |rt1.engine.slots| ==> !E.IsLive(rt1.engine.slots[k]))
            && rt1.engine.slots[0].generation == generation
  {
    hide E.LedgerHolds;
    ReleaseOk(m, rt, 0, generation);
    assert LaneOk(m, 0, LaneAt(rt, 0));
    CancelRelease(rt.engine, rt.seqs[0].value.handle);
  }

  /** A sequence without a cache identity, one prompt token in. */
  predicate OneTokenIn(rt: Runtime, rt1: Runtime, i: nat)
    requires Shape(rt) && Shape(rt1) && i < |rt.seqs| == |rt1.seqs|
  {
    && rt.seqs[i].Some? && rt1.seqs[i].Some? && rt1.seqs[i].value.handle == rt.seqs[i].value.handle
    && rt1.seqs[i].value.request == rt.seqs[i].value.request
    && rt1.engine.slots[i].lifecycle == E.Prefill && rt1.kv[i] != []
  }

  predicate Roomy(st: Settings) { st.prefillChunk >= 1 && st.tickBudget >= 1 && st.nBatch >= 1 }

  lemma FirstToken(m: Model, st: Settings, rt: Runtime, i: nat, step: Step)
    requires RuntimeOk(m, rt) && i < |rt.seqs| && rt.seqs[i].Some? && rt.engine.slots[i].lifecycle == E.Prefill && Roomy(st)
    requires var s := rt.seqs[i].value; s.identity.None? && s.logical == 0 && |s.request.job.prompt| >= 2
    requires step.slot == i && step.generation == rt.seqs[i].value.handle.generation && step.budget == 1
    ensures Clean(m, st, rt, PrefillBatch([step]))
    ensures var rt1 := Execute(m, st, rt, PrefillBatch([step])).0; Shape(rt1) && |rt1.seqs| == |rt.seqs| && OneTokenIn(rt, rt1, i)
  {
    hide E.LedgerHolds;
    hide C.WellKept;
    var s := rt.seqs[i].value;
    assert LaneOk(m, i, LaneAt(rt, i));
    assert LogicalStep(s, 1) == 1 && PhysicalStep(s, 1) == 1;
    var steps := [step];
    assert steps[..0] == [];
    assert StepOk(rt, step) && BatchTokens(rt, steps[..0]) == 0 && BatchTokens(rt, steps) == 1;
    AdvancedOk(m, rt, step);
    hide LaneOk;
    assert Checkpoint(Advanced(rt, step), step) == (Advanced(rt, step), true);
    assert PrefillAll(rt, []) == (rt, true);
    assert PrefillAll(rt, steps) == (Advanced(rt, step), true);
    PrefillAllOk(m, rt, steps);
    assert |PromptCells(s, 1)| == 1;
  }

  /** A runtime whose only sequence is `q`, just opened in slot 0 under a generation. */
  predicate OnlyOpen(m: Model, rt: Runtime, q: Request, generation: nat, capacity: nat) {
    && RuntimeOk(m, rt) && 0 < |rt.seqs| && rt.seqs[0].Some? && rt.engine.capacity == capacity && rt.cache.entries == []
    && (forall k :: 0 < k < |rt.seqs| ==> !E.IsLive(rt.engine.slots[k])) && rt.engine.slots[0].lifecycle == E.Prefill
    && var s := rt.seqs[0].value;
       s.request == q && s.handle.generation == generation && s.identity.None? && s.logical == 0
  }

  predicate AllFree(m: Model, rt: Runtime, generation: nat, capacity: nat) {
    && RuntimeOk(m, rt) && 0 < |rt.seqs| && rt.engine.capacity == capacity && rt.cache.entries == []
    && (forall k :: 0 <= k < |rt.seqs| ==> !E.IsLive(rt.engine.slots[k])) && rt.engine.slots[0].generation == generation
  }

  lemma OpensAlone(m: Model, st: Settings, rt: Runtime, q: Request, now: int, copies: bool, generation: nat, capacity: nat)
    requires AllFree(m, rt, generation, capacity) && generation < E.SIZE_MAX && Refusal(m, st, rt.cache.enabled, q).None? && q.scope.None?
    requires |q.job.prompt| + q.job.totalTokens <= capacity
    ensures var open := OpenSequence(q, now, copies);
            Clean(m, st, rt, open) && OnlyOpen(m, Execute(m, st, rt, open).0, q, generation + 1, capacity)
            && Execute(m, st, rt, open).0.cache == rt.cache
  {
    hide LaneOk;
    hide E.LedgerHolds;
    hide Execute;
    NoSession(m, st, rt.cache.enabled, q);
    hide Refusal;
    NothingLive(rt.engine, q);
    OpensAt(m, st, rt, 0, q, now, copies);
  }

  lemma ReleasesAlone(m: Model, st: Settings, rt: Runtime, q: Request, generation: nat, capacity: nat)
    requires OnlyOpen(m, rt, q, generation, capacity)
    ensures var drop := ReleaseSequence(0, generation);
            Clean(m, st, rt, drop) && AllFree(m, Execute(m, st, rt, drop).0, generation, capacity)
            && Execute(m, st, rt, drop).0.cache == rt.cache
  {
    hide LaneOk;
    hide E.LedgerHolds;
    hide Execute;
    hide Release;
    ReleasedFree(m, rt, generation);
    ReleaseClean(m, st, rt, 0, generation);
  }

  /** Open a sequence, release it, open the request again, which reuses the slot, and prefill one
      token. The first handle, of generation 1, is now stale: releasing it again wipes the memory
      of the second sequence, whose lane no longer holds what it should. */
  lemma StaleReleaseHappens(m: Model, st: Settings, start: Runtime, q: Request, now: int, copies: bool,
                            slots: nat, capacity: nat, cache: C.Cache)
    requires FreshStart(start, slots, capacity, cache) && Refusal(m, st, cache.enabled, q).None? && q.scope.None?
    requires |q.job.prompt| + q.job.totalTokens <= capacity && |q.job.prompt| >= 2 && Roomy(st)
    ensures var open := OpenSequence(q, now, copies);
            var cmds := [open, ReleaseSequence(0, 1), open, PrefillBatch([Step(0, 2, 1, now, C.Snapshot(0, 0))])];
            exists rt ::
              && Reaches(m, st, start, cmds, rt) && Shape(rt) && 0 < |rt.seqs| && rt.seqs[0].Some? && rt.seqs[0].value.request == q
              && !ReleaseNamesOwner(rt, 0, 1) && !LaneOk(m, 0, LaneAt(Release(rt, 0, 1).0, 0))
  {
    hide Execute;
    hide Refusal;
    hide RuntimeOk;
    hide Clean;
    hide Release;
    StartIsOk(m, start, slots, capacity, cache);
    var (open, drop) := (OpenSequence(q, now, copies), ReleaseSequence(0, 1));
    OpensAlone(m, st, start, q, now, copies, 0, capacity);
    var rt1 := Execute(m, st, start, open).0;
    ShapeOf(m, rt1);
    ReleasesAlone(m, st, rt1, q, 1, capacity);
    var rt2 := Execute(m, st, rt1, drop).0;
    ShapeOf(m, rt2);
    OpensAlone(m, st, rt2, q, now, copies, 1, capacity);
    var rt3 := Execute(m, st, rt2, open).0;
    var batch := PrefillBatch([Step(0, 2, 1, now, C.Snapshot(0, 0))]);
    ShapeOf(m, rt3);
    FirstToken(m, st, rt3, 0, Step(0, 2, 1, now, C.Snapshot(0, 0)));
    var rt := Execute(m, st, rt3, batch).0;
    FourSteps(m, st, start, open, rt1, drop, rt2, open, rt3, batch, rt);
    ReachedOk(m, st, start, [open, drop, open, batch], rt, slots, capacity, cache);
    StaleReleaseExact(m, rt, 0, 1);
  }

  lemma ShapeOf(m: Model, rt: Runtime)
    requires RuntimeOk(m, rt)
    ensures Shape(rt)
  {
  }

  lemma FourSteps(m: Model, st: Settings, start: Runtime, c1: Command, rt1: Runtime, c2: Command, rt2: Runtime,
                  c3: Command, rt3: Runtime, c4: Command, rt4: Runtime)
    requires Shape(start) && Clean(m, st, start, c1) && rt1 == Execute(m, st, start, c1).0
    requires Shape(rt1) && Clean(m, st, rt1, c2) && rt2 == Execute(m, st, rt1, c2).0
    requires Shape(rt2) && Clean(m, st, rt2, c3) && rt3 == Execute(m, st, rt2, c3).0
    requires Shape(rt3) && Clean(m, st, rt3, c4) && rt4 == Execute(m, st, rt3, c4).0
    ensures Reaches(m, st, start, [c1, c2, c3, c4], rt4)
  {
    hide Execute;
    hide Clean;
    assert Reaches(m, st, start, [], start);
    StepReaches(m, st, start, [], start, c1, rt1);
    assert [] + [c1] == [c1];
    hide Reaches;
    StepReaches(m, st, start, [c1], rt1, c2, rt2);
    assert [c1] + [c2] == [c1, c2];
    StepReaches(m, st, start, [c1, c2], rt2, c3, rt3);
    assert [c1, c2] + [c3] == [c1, c2, c3];
    StepReaches(m, st, start, [c1, c2, c3], rt3, c4, rt4);
    assert [c1, c2, c3] + [c4] == [c1, c2, c3, c4];
  }

  lemma StartIsOk(m: Model, start: Runtime, slots: nat, capacity: nat, cache: C.Cache)
    requires FreshStart(start, slots, capacity, cache)
    ensures AllFree(m, start, 0, capacity) && start.cache == cache && Shape(start)
  {
    E.NewEngineLedger(slots, capacity);
  }

  lemma NoSession(m: Model, st: Settings, enabled: bool, q: Request)
    requires Refusal(m, st, enabled, q).None? && q.scope.None?
    ensures q.session.None? && q.job.prompt != []
  {
  }

  lemma ReleaseClean(m: Model, st: Settings, rt: Runtime, i: nat, generation: nat)
    requires Shape(rt) && i < |rt.seqs| && ReleaseNamesOwner(rt, i, generation)
    ensures Clean(m, st, rt, ReleaseSequence(i, generation))
    ensures Execute(m, st, rt, ReleaseSequence(i, generation)).0 == Release(rt, i, generation).0
  {
  }

  // ----- an abandoned prefill batch -----

  /** A request that starts a session and asks for its commit. */
  predicate StartsCommit(q: Request) { q.session.Some? && q.session.value.parent.None? && q.session.value.commit }

  lemma RefusedCommit(c: C.Cache, identity: string, session: string, key: string, tokens: seq<Token>, kv: seq<Cell>, now: int)
    requires c.entries == []
    ensures C.StoreSession(c, identity, session, None, key, tokens, kv, now, C.Snapshot(0, 0)) == (c, None)
  {
    NothingCached(c, now);
  }

  /** The first step prefills the session prefix, and its commit is refused. */
  lemma CommitRefused(m: Model, rt: Runtime, step: Step)
    requires RuntimeOk(m, rt) && StepOk(rt, step) && step.budget > 0 && step.snapshot == C.Snapshot(0, 0) && rt.cache.entries == []
    requires var s := rt.seqs[step.slot].value;
             && StartsCommit(s.request) && s.identity.Some? && s.committed.None?
             && Advance(s, step.budget).physical == |s.request.sessionPrefix|
    ensures !PrefillOne(rt, step).1
  {
    hide C.StoreSession;
    hide LaneOk;
    hide E.LedgerHolds;
    AdvancedOk(m, rt, step);
    var s := rt.seqs[step.slot].value;
    var rt1 := Advanced(rt, step);
    RefusedCommit(rt1.cache, s.identity.value, s.request.session.value.id, s.request.requestId, s.request.sessionPrefix,
                  rt1.kv[step.slot], step.now);
  }

  predicate Spacious(st: Settings, n: nat) { 1 <= n <= st.prefillChunk && n + 1 <= st.tickBudget && n + 1 <= st.nBatch }

  /** Two sequences just opened, the first to commit its session, the second without a cache. */
  predicate TwoOpen(m: Model, rt: Runtime, q: Request, q': Request) {
    && RuntimeOk(m, rt) && 2 <= |rt.seqs| && rt.seqs[0].Some? && rt.seqs[1].Some? && rt.cache.entries == []
    && rt.engine.slots[0].lifecycle == rt.engine.slots[1].lifecycle == E.Prefill
    && var (s, s') := (rt.seqs[0].value, rt.seqs[1].value);
       && s.request == q && s.handle.generation == 1 && s.identity.Some? && s.committed.None? && s.logical == s.physical == 0
       && s'.request == q' && s'.handle.generation == 1 && s'.identity.None? && s'.logical == s'.physical == 0
  }

  function TwoSteps(q: Request, now: int): seq<Step> {
    [Step(0, 1, |q.sessionPrefix|, now, C.Snapshot(0, 0)), Step(1, 1, 1, now, C.Snapshot(0, 0))]
  }

  lemma TwoStepsAccepted(m: Model, st: Settings, rt: Runtime, q: Request, q': Request, now: int)
    requires TwoOpen(m, rt, q, q') && StartsCommit(q) && |q'.job.prompt| >= 2 && Spacious(st, |q.sessionPrefix|)
    ensures PrefillAccepted(st, rt, TwoSteps(q, now)) && SessionPrefixOk(q)
    ensures Advance(rt.seqs[0].value, |q.sessionPrefix|).physical == |q.sessionPrefix| && PhysicalStep(rt.seqs[1].value, 1) == 1
  {
    hide E.LedgerHolds;
    assert LaneOk(m, 0, LaneAt(rt, 0)) && LaneOk(m, 1, LaneAt(rt, 1));
    hide LaneOk;
    var (steps, s, n) := (TwoSteps(q, now), rt.seqs[0].value, |q.sessionPrefix|);
    assert LogicalStep(s, n) == n && PhysicalStep(s, n) == n;
    assert steps[..1] == [steps[0]] && steps[..1][..0] == [];
    assert StepOk(rt, steps[0]) && StepOk(rt, steps[1]);
    assert BatchTokens(rt, []) == 0 && BatchTokens(rt, steps[..1]) == n && BatchTokens(rt, steps) == n + 1;
  }

  lemma OpensTwo(m: Model, st: Settings, start: Runtime, q: Request, q': Request, now: int, copies: bool,
                 slots: nat, capacity: nat, cache: C.Cache)
    requires FreshStart(start, slots, capacity, cache) && cache.enabled && slots >= 2
    requires Refusal(m, st, true, q).None? && StartsCommit(q) && Refusal(m, st, true, q').None? && q'.scope.None?
    requires q.requestId != q'.requestId && Tokens(q) + Tokens(q') <= capacity
    ensures exists rt :: Reaches(m, st, start, [OpenSequence(q, now, copies), OpenSequence(q', now, copies)], rt) && TwoOpen(m, rt, q, q')
  {
    hide LaneOk;
    hide E.LedgerHolds;
    hide Execute;
    StartIsOk(m, start, slots, capacity, cache);
    ShapeOf(m, start);
    SessionIsScoped(m, st, q);
    NoSession(m, st, true, q');
    hide Refusal;
    NothingLive(start.engine, q);
    OpensAt(m, st, start, 0, q, now, copies);
    var rt1 := WithOpen(m, start, 0, q);
    SecondFits(start, rt1, m, q, q', capacity);
    OpensAt(m, st, rt1, 1, q', now, copies);
    var rt := WithOpen(m, rt1, 1, q');
    var (open, open') := (OpenSequence(q, now, copies), OpenSequence(q', now, copies));
    assert Reaches(m, st, start, [], start);
    StepReaches(m, st, start, [], start, open, rt1);
    assert [] + [open] == [open] && [open] + [open'] == [open, open'];
    StepReaches(m, st, start, [open], rt1, open', rt);
  }

  function Tokens(q: Request): nat { |q.job.prompt| + q.job.totalTokens }

  lemma SecondFits(start: Runtime, rt: Runtime, m: Model, q: Request, q': Request, capacity: nat)
    requires AllFree(m, start, 0, capacity) && |start.seqs| >= 2 && q.job.prompt != [] && rt == WithOpen(m, start, 0, q)
    requires q.requestId != q'.requestId && Tokens(q) + Tokens(q') <= capacity
    ensures Admissible(rt.engine, 1, q')
  {
    E.FreshTotals(start.engine.slots);
  }

  lemma SessionIsScoped(m: Model, st: Settings, q: Request)
    requires Refusal(m, st, true, q).None? && q.session.Some?
    ensures q.scope.Some? && q.job.prompt != []
  {
  }

  /** Open a sequence that is to commit its session and one beside it, and prefill both in one
      batch. The backend has nothing to snapshot, so the commit is refused, the command fails,
      and the second sequence is left with a token in memory that its counters do not know. */
  lemma AbandonedStepHappens(m: Model, st: Settings, start: Runtime, q: Request, q': Request, now: int, copies: bool,
                             slots: nat, capacity: nat, cache: C.Cache)
    requires FreshStart(start, slots, capacity, cache) && cache.enabled && slots >= 2
    requires Refusal(m, st, true, q).None? && StartsCommit(q) && Refusal(m, st, true, q').None? && q'.scope.None?
    requires q.requestId != q'.requestId && Tokens(q) + Tokens(q') <= capacity
    requires |q'.job.prompt| >= 2 && Spacious(st, |q.sessionPrefix|)
    ensures exists rt ::
              && Reaches(m, st, start, [OpenSequence(q, now, copies), OpenSequence(q', now, copies)], rt)
              && Shape(rt) && |rt.seqs| >= 2 && Prefill(st, rt, TwoSteps(q, now)).1 == Failed
              && !LaneOk(m, 1, LaneAt(Prefill(st, rt, TwoSteps(q, now)).0, 1))
  {
    hide LaneOk;
    hide E.LedgerHolds;
    hide Reaches;
    hide Refusal;
    OpensTwo(m, st, start, q, q', now, copies, slots, capacity, cache);
    var rt :| Reaches(m, st, start, [OpenSequence(q, now, copies), OpenSequence(q', now, copies)], rt) && TwoOpen(m, rt, q, q');
    BatchAbandoned(m, st, rt, q, q', now);
  }

  lemma BatchAbandoned(m: Model, st: Settings, rt: Runtime, q: Request, q': Request, now: int)
    requires TwoOpen(m, rt, q, q') && StartsCommit(q) && |q'.job.prompt| >= 2 && Spacious(st, |q.sessionPrefix|)
    ensures Prefill(st, rt, TwoSteps(q, now)).1 == Failed && !LaneOk(m, 1, LaneAt(Prefill(st, rt, TwoSteps(q, now)).0, 1))
  {
    hide LaneOk;
    hide E.LedgerHolds;
    hide PrefillOne;
    hide Spacious;
    hide C.WellKept;
    var steps := TwoSteps(q, now);
    TwoStepsAccepted(m, st, rt, q, q', now);
    assert StepOk(rt, steps[0]);
    CommitRefused(m, rt, steps[0]);
    assert steps[..1] == [steps[0]] && steps[..1][..0] == [];
    assert PrefillAll(rt, []) == (rt, true);
    assert !PrefillAll(rt, steps[..1]).1;
    FailureSticks(rt, steps, 1);
    AbandonedStepExact(m, st, rt, steps, 1);
  }
}
