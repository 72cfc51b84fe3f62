module NativeRuntime {
  // The command loop of native/inference_runtime_main.cpp over the slot engine, the prompt
  // cache, the phase controller and the UTF-8 accumulator: open, prefill, decode, release. A
  // lane is one slot seen whole: the engine's record, the sequence that owns it and its KV
  // memory.

  import opened Basics
  import opened KvMemory
  import opened Generation
  import E = SlotEngine
  import C = PromptCache
  import P = PhaseController

  const CHECKPOINT_TOKENS: nat := 64

  datatype Settings = Settings(
    prefillChunk: nat, maxDecodeBatch: nat, decodeQuantum: nat, tickBudget: nat, nBatch: nat, sequenceContext: nat)

  datatype SessionControl = SessionControl(id: string, parent: Option<nat>, commit: bool)

  datatype Request = Request(
    requestId: string, attemptId: string, job: Job,
    scope: Option<string>, privateScope: bool, session: Option<SessionControl>, sessionPrefix: seq<Token>)

  datatype Sequence = Sequence(
    handle: E.Handle, request: Request, identity: Option<string>,
    logical: nat, physical: nat, pending: Token, nPast: int, committed: Option<nat>, gen: Gen)

  datatype Lane = Lane(slot: E.Slot, owner: Option<Sequence>, kv: seq<Cell>)

  datatype Runtime = Runtime(engine: E.Engine, seqs: seq<Option<Sequence>>, kv: seq<seq<Cell>>, cache: C.Cache)

  predicate Shape(rt: Runtime) { |rt.seqs| == |rt.kv| == |rt.engine.slots| && rt.engine.cursor < |rt.engine.slots| }

  function LaneAt(rt: Runtime, i: nat): Lane
    requires Shape(rt) && i < |rt.seqs|
  {
    Lane(rt.engine.slots[i], rt.seqs[i], rt.kv[i])
  }

  function PutLane(rt: Runtime, i: nat, lane: Lane): Runtime
    requires Shape(rt) && i < |rt.seqs|
  {
    Runtime(rt.engine.(slots := rt.engine.slots[i := lane.slot]), rt.seqs[i := lane.owner], rt.kv[i := lane.kv], rt.cache)
  }

  // ----- open_sequence -----

  datatype OpenResult = Opened(handle: E.Handle) | Refused(code: string)

  predicate SessionPrefixOk(q: Request) {
    q.sessionPrefix != [] && |q.sessionPrefix| <= |q.job.prompt| - 1 && q.sessionPrefix <= q.job.prompt
  }

  /** The checks made before anything is touched. */
  function Refusal(m: Model, st: Settings, cacheEnabled: bool, q: Request): Option<string> {
    if q.requestId == "" || q.attemptId == "" then Some("request_identity_invalid")
    else if q.job.totalTokens == 0 || q.job.reasoningTokens == 0 || q.job.finalTokens == 0 then Some("limits_invalid")
    else if q.session.Some? && (!cacheEnabled || q.scope.None?) then Some("session_cache_unavailable")
    else if q.session.Some? && !q.privateScope then Some("session_cache_scope_invalid")
    else if q.session.Some? && !SessionPrefixOk(q) then Some("session_prefix_invalid")
    else if q.job.prompt == [] || |q.job.prompt| + q.job.totalTokens + 8 > st.sequenceContext then Some("context_overflow")
    else if !P.ValidConfig(PhaseConfig(m, q.job)) then Some("invalid_command")
    else None
  }

  function NewSequence(m: Model, q: Request, identity: Option<string>, h: E.Handle): Sequence
    requires q.job.prompt != []
  {
    Sequence(h, q, identity, 0, 0, q.job.prompt[|q.job.prompt| - 1], 0, None, NewGen(m, q.job))
  }

  /** Which cache lookup a new sequence makes, and what it finds. */
  function LookUp(c: C.Cache, identity: string, q: Request, now: int, copies: bool): (C.Cache, Option<C.Entry>) {
    if q.session.Some? && q.session.value.parent.Some?
    then C.RestoreSession(c, identity, q.session.value.id, q.session.value.parent.value, q.job.prompt, now, copies)
    else C.Restore(c, identity, q.job.prompt, now, copies)
  }

  /** The end of `open_sequence`: restore from the cache into slot `i` if something fits. */
  function OpenRestore(rt: Runtime, i: nat, now: int, copies: bool): (r: (Runtime, OpenResult))
    requires Shape(rt) && i < |rt.seqs| && rt.seqs[i].Some?
    ensures |r.0.seqs| == |rt.seqs|
  {
    var s := rt.seqs[i].value;
    if s.identity.None? then (rt, Opened(s.handle))
    else
      var (cache, found) := LookUp(rt.cache, s.identity.value, s.request, now, copies);
      if found.Some? then
        var n := |found.value.tokens|;
        var (engine, status) := E.AdvancePrefill(rt.engine, s.handle, n);
        var s1 := s.(logical := n, physical := n, nPast := n);
        (Runtime(engine, rt.seqs[i := Some(s1)], rt.kv[i := found.value.kv], cache),
         if status == E.Applied then Opened(s.handle) else Refused("sequence_state_invalid"))
      else if s.request.session.Some? && s.request.session.value.parent.Some? then
        var cancelled := E.Cancel(rt.engine, s.handle).0;
        (Runtime(E.ReleaseSlot(cancelled, s.handle).0, rt.seqs[i := None], rt.kv, cache), Refused("session_snapshot_missing"))
      else (rt.(cache := cache), Opened(s.handle))
  }

  function AdmissionCode(a: E.Admission): string {
    match a
    case Duplicate => "duplicate_sequence" case SequenceCapacity => "sequence_capacity"
    case TokenCapacity => "token_capacity" case _ => "invalid_sequence_request"
  }

  /** Admission into a slot, up to the point where the cache is asked. */
  function OpenAdmit(m: Model, rt: Runtime, q: Request, identity: Option<string>): (Runtime, OpenResult)
    requires Shape(rt) && q.job.prompt != []
  {
    var (e1, a) := E.Admit(rt.engine, q.requestId, q.attemptId, |q.job.prompt|, q.job.totalTokens);
    if !a.AdmittedTo? then (rt, Refused(AdmissionCode(a)))
    else
      var (e2, status) := E.StartPrefill(e1, a.handle);
      if status != E.Applied then (rt.(engine := e2), Refused("sequence_state_invalid"))
      else (Runtime(e2, rt.seqs[a.handle.slot := Some(NewSequence(m, q, identity, a.handle))], rt.kv, rt.cache), Opened(a.handle))
  }

  function Identity(rt: Runtime, q: Request): Option<string> { if rt.cache.enabled then q.scope else None }

  function Open(m: Model, st: Settings, rt: Runtime, q: Request, now: int, copies: bool): (Runtime, OpenResult)
    requires Shape(rt)
  {
    var refusal := Refusal(m, st, rt.cache.enabled, q);
    if refusal.Some? then (rt, Refused(refusal.value))
    else
      var identity := Identity(rt, q);
      var root := q.session.Some? && q.session.value.parent.None?;
      var (cache, allowed) :=
        if root && identity.Some?
        then C.SessionRootAllowed(rt.cache, identity.value, q.session.value.id, q.requestId, now) else (rt.cache, true);
      var rt1 := rt.(cache := cache);
      if !allowed then (rt1, Refused("session_conflict"))
      else
        var (rt2, r) := OpenAdmit(m, rt1, q, identity);
        if r.Refused? then (rt2, r) else OpenRestore(rt2, r.handle.slot, now, copies)
  }

  // ----- prefill_batch -----

  /** One step of a prefill command with what the backend and the clock will answer. */
  datatype Step = Step(slot: nat, generation: nat, budget: nat, now: int, snapshot: C.Snapshot)

  /** Prompt tokens to account for in one step: the budget, cut at the prompt's end, at the
      end of a session prefix still to be committed, or at the next cache checkpoint. */
  function LogicalStep(s: Sequence, budget: nat): nat
    requires s.logical <= |s.request.job.prompt|
  {
    var fits := Min(budget, |s.request.job.prompt| - s.logical);
    if s.identity.None? then fits
    else if s.request.session.Some? && s.request.session.value.commit && s.committed.None?
            && s.physical < |s.request.sessionPrefix| then Min(fits, |s.request.sessionPrefix| - s.physical)
    else if s.request.session.None? then Min(fits, CHECKPOINT_TOKENS - s.physical % CHECKPOINT_TOKENS)
    else fits
  }

  function Min(a: nat, b: nat): nat { if a < b then a else b }

  /** Tokens actually decoded: the last prompt token is left for the first decode. */
  function PhysicalStep(s: Sequence, budget: nat): nat
    requires s.logical <= |s.request.job.prompt|
  {
    var logical := LogicalStep(s, budget);
    if logical == |s.request.job.prompt| - s.logical && logical > 0 then logical - 1 else logical
  }

  predicate StepOk(rt: Runtime, step: Step)
    requires Shape(rt)
  {
    && step.slot < |rt.seqs| && rt.seqs[step.slot].Some?
    && var s := rt.seqs[step.slot].value;
    && s.handle.generation == step.generation
    && rt.engine.slots[step.slot].lifecycle == E.Prefill
    && s.logical <= |s.request.job.prompt|
    && s.physical + PhysicalStep(s, step.budget) <= |s.request.job.prompt|
  }

  predicate DistinctSlots(steps: seq<Step>) {
    forall i, j :: 0 <= i < j < |steps| ==> steps[i].slot != steps[j].slot
  }

  /** Memory cells decoded for `n` prompt tokens from the sequence's position on. */
  function PromptCells(s: Sequence, n: nat): seq<Cell>
    requires s.physical + n <= |s.request.job.prompt|
  {
    seq(n, k requires 0 <= k < n => Cell(s.physical + k, s.request.job.prompt[s.physical + k]))
  }

  /** What the cache is offered after slot `i` has advanced; false: a session commit failed. */
  function Checkpoint(rt: Runtime, step: Step): (r: (Runtime, bool))
    requires Shape(rt) && step.slot < |rt.seqs| && rt.seqs[step.slot].Some?
    requires rt.seqs[step.slot].value.physical <= |rt.seqs[step.slot].value.request.job.prompt|
    ensures Shape(r.0) && |r.0.seqs| == |rt.seqs|
  {
    var i := step.slot;
    var s := rt.seqs[i].value;
    var q := s.request;
    if s.identity.None? then (rt, true)
    else if q.session.Some? && q.session.value.commit && s.committed.None? && s.physical == |q.sessionPrefix| then
      var (cache, done) := C.StoreSession(rt.cache, s.identity.value, q.session.value.id, q.session.value.parent,
                                          q.requestId, q.sessionPrefix, rt.kv[i], step.now, step.snapshot);
      if done.None? then (rt.(cache := cache), false)
      else (rt.(cache := cache, seqs := rt.seqs[i := Some(s.(committed := Some(done.value.generation)))]), true)
    else if q.session.None? && s.physical > 0 then
      (rt.(cache := C.Store(rt.cache, s.identity.value, q.job.prompt[..s.physical], rt.kv[i], step.now, step.snapshot).0), true)
    else (rt, true)
  }

  function Advance(s: Sequence, budget: nat): Sequence
    requires s.logical <= |s.request.job.prompt|
  {
    var physical := s.physical + PhysicalStep(s, budget);
    s.(physical := physical, logical := s.logical + LogicalStep(s, budget), nPast := physical)
  }

  function PrefillOne(rt: Runtime, step: Step): (r: (Runtime, bool))
    requires Shape(rt) && StepOk(rt, step)
    ensures Shape(r.0) && |r.0.seqs| == |rt.seqs|
  {
    var i := step.slot;
    var s := rt.seqs[i].value;
    var (engine, status) := E.AdvancePrefill(rt.engine, s.handle, LogicalStep(s, step.budget));
    var kv := rt.kv[i] + PromptCells(s, PhysicalStep(s, step.budget));
    var rt1 := Runtime(engine, rt.seqs[i := Some(Advance(s, step.budget))], rt.kv[i := kv], rt.cache);
    if status != E.Applied then (rt1, false) else Checkpoint(rt1, step)
  }

  // ----- decode_batch -----

  /** One round of the decode loop for one lane: decode the pending token, sample the next,
      run it through the controller and the UTF-8 accumulator, move the engine along. */
  function DecodeLane(m: Model, lane: Lane): (r: Lane)
    requires lane.owner.Some?
    ensures r.owner.Some?
  {
    var s := lane.owner.value;
    var kv := lane.kv + [Cell(s.nPast, s.pending)];
    var token := m.sample(kv, s.gen.finalPhase, s.gen.accepted, s.request.job.grammar);
    var slot := lane.slot.(decoded := lane.slot.decoded + 1);
    var g := Absorb(m, PhaseConfig(m, s.request.job), s.gen, token, slot.decoded == slot.outputBudget);
    var s1 := s.(nPast := s.nPast + 1, gen := g, pending := if g.terminal then s.pending else token);
    Lane(if g.terminal then slot.(lifecycle := E.Terminal, reason := if g.failed then E.Failure else E.Stop) else slot,
         Some(s1), kv)
  }

  /** Up to `n` rounds, stopping when the sequence ends. */
  function DecodeRounds(m: Model, lane: Lane, n: nat): (r: Lane)
    requires lane.owner.Some?
    ensures r.owner.Some?
    decreases n
  {
    if n == 0 then lane
    else
      var before := DecodeRounds(m, lane, n - 1);
      if before.owner.value.gen.terminal then before else DecodeLane(m, before)
  }

  /** The same round through the engine's own operations; false: the engine refused. */
  function DecodeOne(m: Model, rt: Runtime, i: nat): (Runtime, bool)
    requires Shape(rt) && i < |rt.seqs| && rt.seqs[i].Some?
  {
    var s := rt.seqs[i].value;
    var (e1, status) := E.AdvanceDecode(rt.engine, s.handle, 1);
    if status != E.Applied then (rt, false)
    else
      var kv := rt.kv[i] + [Cell(s.nPast, s.pending)];
      var token := m.sample(kv, s.gen.finalPhase, s.gen.accepted, s.request.job.grammar);
      var g := Absorb(m, PhaseConfig(m, s.request.job), s.gen, token, e1.slots[i].decoded == e1.slots[i].outputBudget);
      var s1 := s.(nPast := s.nPast + 1, gen := g, pending := if g.terminal then s.pending else token);
      var e2 := if g.terminal then E.Finish(e1, s.handle, if g.failed then E.Failure else E.Stop).0 else e1;
      (Runtime(e2, rt.seqs[i := Some(s1)], rt.kv[i := kv], rt.cache), true)
  }

  // ----- release_sequence -----

  /** Releases the slot named by a public handle. The memory is wiped whenever the slot has
      an owner, even one of another generation. */
  function Release(rt: Runtime, i: nat, generation: nat): (Runtime, E.Release)
    requires Shape(rt) && i < |rt.seqs|
  {
    var named := rt.seqs[i].Some? && rt.seqs[i].value.handle.generation == generation;
    var internal := if named then rt.seqs[i].value.handle else E.Handle(i, generation, "", "");
    var e1 := if named && E.Finds(rt.engine, internal) && rt.engine.slots[i].lifecycle != E.Terminal
              then E.Cancel(rt.engine, internal).0 else rt.engine;
    var kv := if rt.seqs[i].Some? then rt.kv[i := []] else rt.kv;
    var (e2, r) := E.ReleaseSlot(e1, internal);
    (Runtime(e2, if r.ReleasedTokens? then rt.seqs[i := None] else rt.seqs, kv, rt.cache), r)
  }

  // ----- commands -----

  datatype Quantum = Quantum(slot: nat, generation: nat, budget: nat)

  datatype Command =
    | OpenSequence(request: Request, now: int, copies: bool)
    | PrefillBatch(steps: seq<Step>)
    | DecodeBatch(quanta: seq<Quantum>)
    | ReleaseSequence(slot: nat, generation: nat)
    | ClearCache
    | CacheStats(now: int)

  datatype Outcome = Answered | Rejected | Failed

  /** Tokens the whole prefill batch decodes. */
  function BatchTokens(rt: Runtime, steps: seq<Step>): nat
    requires Shape(rt) && forall k :: 0 <= k < |steps| ==> StepOk(rt, steps[k])
    decreases |steps|
  {
    if steps == [] then 0
    else
      var last := steps[|steps| - 1];
      assert StepOk(rt, last);
      BatchTokens(rt, steps[..|steps| - 1]) + PhysicalStep(rt.seqs[last.slot].value, last.budget)
  }

  predicate PrefillAccepted(st: Settings, rt: Runtime, steps: seq<Step>)
    requires Shape(rt)
  {
    && 0 < |steps| <= |rt.seqs|
    && (forall k :: 0 <= k < |steps| ==> StepOk(rt, steps[k]) && 0 < steps[k].budget <= st.prefillChunk)
    && DistinctSlots(steps)
    && BatchTokens(rt, steps) <= st.tickBudget && BatchTokens(rt, steps) <= st.nBatch
  }

  /** Runs the steps in order, up to the first that fails. */
  function PrefillAll(rt: Runtime, steps: seq<Step>): (r: (Runtime, bool))
    requires Shape(rt)
    ensures Shape(r.0) && |r.0.seqs| == |rt.seqs|
    decreases |steps|
  {
    if steps == [] then (rt, true)
    else
      var (rt1, ok) := PrefillAll(rt, steps[..|steps| - 1]);
      var last := steps[|steps| - 1];
      if !ok || !StepOk(rt1, last) then (rt1, false) else PrefillOne(rt1, last)
  }

  /** The memory after the one backend call that decodes the whole batch. */
  function BatchMemory(rt: Runtime, steps: seq<Step>): (kv: seq<seq<Cell>>)
    requires Shape(rt) && forall k :: 0 <= k < |steps| ==> StepOk(rt, steps[k])
    ensures |kv| == |rt.kv|
    decreases |steps|
  {
    if steps == [] then rt.kv
    else
      var last := steps[|steps| - 1];
      assert StepOk(rt, last);
      var kv := BatchMemory(rt, steps[..|steps| - 1]);
      var s := rt.seqs[last.slot].value;
      kv[last.slot := kv[last.slot] + PromptCells(s, PhysicalStep(s, last.budget))]
  }

  /** The backend decodes the batch first; then the steps are booked one by one, and a
      refused session commit abandons the steps after it. */
  function Prefill(st: Settings, rt: Runtime, steps: seq<Step>): (r: (Runtime, Outcome))
    requires Shape(rt)
    ensures Shape(r.0) && |r.0.seqs| == |rt.seqs|
  {
    if !PrefillAccepted(st, rt, steps) then (rt, Rejected)
    else
      var (rt1, ok) := PrefillAll(rt, steps);
      (rt1.(kv := BatchMemory(rt, steps)), if ok then Answered else Failed)
  }

  predicate QuantumOk(rt: Runtime, q: Quantum)
    requires Shape(rt)
  {
    && q.slot < |rt.seqs| && rt.seqs[q.slot].Some?
    && rt.seqs[q.slot].value.handle.generation == q.generation && !rt.seqs[q.slot].value.gen.terminal
    && rt.engine.slots[q.slot].lifecycle == E.Decode
  }

  predicate DistinctQuanta(quanta: seq<Quantum>) {
    forall i, j :: 0 <= i < j < |quanta| ==> quanta[i].slot != quanta[j].slot
  }

  function TotalBudget(quanta: seq<Quantum>): nat
    decreases |quanta|
  {
    if quanta == [] then 0 else TotalBudget(quanta[..|quanta| - 1]) + quanta[|quanta| - 1].budget
  }

  predicate DecodeAccepted(st: Settings, rt: Runtime, quanta: seq<Quantum>)
    requires Shape(rt)
  {
    && 0 < |quanta| <= st.maxDecodeBatch
    && (forall k :: 0 <= k < |quanta| ==> QuantumOk(rt, quanta[k]) && 0 < quanta[k].budget <= st.decodeQuantum)
    && DistinctQuanta(quanta)
    && TotalBudget(quanta) <= st.tickBudget
  }

  /** Each named lane runs its own quantum; the others are untouched. */
  function DecodeAll(m: Model, rt: Runtime, quanta: seq<Quantum>): (r: Runtime)
    requires Shape(rt)
    ensures Shape(r) && |r.seqs| == |rt.seqs|
    decreases |quanta|
  {
    if quanta == [] then rt
    else
      var rt1 := DecodeAll(m, rt, quanta[..|quanta| - 1]);
      var last := quanta[|quanta| - 1];
      if !QuantumOk(rt1, last) then rt1
      else PutLane(rt1, last.slot, DecodeRounds(m, LaneAt(rt1, last.slot), last.budget))
  }

  function Execute(m: Model, st: Settings, rt: Runtime, cmd: Command): (Runtime, Outcome)
    requires Shape(rt)
  {
    match cmd
    case OpenSequence(q, now, copies) =>
      var (rt1, r) := Open(m, st, rt, q, now, copies);
      (rt1, if r.Opened? then Answered else Rejected)
    case PrefillBatch(steps) => Prefill(st, rt, steps)
    case DecodeBatch(quanta) =>
      if DecodeAccepted(st, rt, quanta) then (DecodeAll(m, rt, quanta), Answered) else (rt, Rejected)
    case ReleaseSequence(i, g) => if i < |rt.seqs| then (Release(rt, i, g).0, Answered) else (rt, Rejected)
    case ClearCache => (rt.(cache := C.Clear(rt.cache)), Answered)
    case CacheStats(now) => (rt.(cache := C.Prune(rt.cache, now)), Answered)
  }

  // ----- the invariant -----

  predicate RequestOk(m: Model, q: Request) {
    && q.job.prompt != [] && q.job.totalTokens > 0
    && P.ValidConfig(PhaseConfig(m, q.job))
    && (q.session.Some? ==> SessionPrefixOk(q))
  }

  /** Prefilling: the memory is exactly the part of the prompt processed so far. */
  predicate Prefilling(m: Model, lane: Lane, s: Sequence) {
    var prompt := s.request.job.prompt;
    && s.logical == s.physical == lane.slot.processed < |prompt|
    && lane.kv == Cells(prompt[..s.physical]) && s.nPast == s.physical
    && s.pending == prompt[|prompt| - 1]
    && s.gen == NewGen(m, s.request.job) && lane.slot.decoded == 0
  }

  /** The generation so far is the reference generation of the same job. */
  predicate OnReference(m: Model, lane: Lane, s: Sequence) {
    && s.gen == Reference(m, s.request.job, |s.gen.generated|)
    && lane.slot.decoded == |s.gen.generated|
  }

  /** Decoding: memory and pending token together are the prompt and everything generated. */
  predicate Decoding(m: Model, lane: Lane, s: Sequence) {
    && OnReference(m, lane, s) && !s.gen.terminal
    && lane.kv + [Cell(s.nPast, s.pending)] == Cells(s.request.job.prompt + s.gen.generated)
  }

  predicate LaneOk(m: Model, i: nat, lane: Lane) {
    match lane.owner
    case None => !E.IsLive(lane.slot) && lane.kv == []
    case Some(s) =>
      && E.MatchesSlot(lane.slot, s.handle) && s.handle.slot == i && RequestOk(m, s.request)
      && lane.slot.promptTokens == |s.request.job.prompt| && lane.slot.outputBudget == s.request.job.totalTokens
      && match lane.slot.lifecycle
         case Prefill => Prefilling(m, lane, s)
         case Decode => Decoding(m, lane, s)
         case Terminal => OnReference(m, lane, s) && s.gen.terminal && lane.slot.reason == (if s.gen.failed then E.Failure else E.Stop)
         case _ => false
  }

  predicate RuntimeOk(m: Model, rt: Runtime) {
    && Shape(rt) && E.LedgerHolds(rt.engine) && C.WellKept(rt.cache)
    && forall i :: 0 <= i < |rt.seqs| ==> LaneOk(m, i, LaneAt(rt, i))
  }
}
