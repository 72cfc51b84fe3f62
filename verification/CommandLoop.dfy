/** The prefill and decode commands of native/inference_runtime_main.cpp as the loops the
    runtime executes: validate the steps, hand the backend one batch, then book each
    sequence. The backend decodes the whole prefill batch before anything is booked, and the
    decode loop goes round the sequences, one token each, until none has budget left. Both
    are proved to do what `NativeRuntime` says, which treats the sequences of a batch one by
    one. */
module CommandLoop {
  import opened Basics
  import opened KvMemory
  import opened Generation
  import opened NativeRuntime
  import opened RuntimeSteps
  import opened RuntimeTransparency
  import Spec = NativeRuntime
  import E = SlotEngine
  import C = PromptCache
  import P = PhaseController
  import U = Utf8

  class NativeWorker {
    const settings: Settings
    var engine: E.Engine
    var seqs: seq<Option<Sequence>>
    var kv: seq<seq<Cell>>
    var cache: C.Cache

    function View(): Runtime
      reads this
    {
      Runtime(engine, seqs, kv, cache)
    }

    constructor (settings: Settings, slots: nat, capacity: nat, cache: C.Cache)
      ensures this.settings == settings && View() == NewRuntime(slots, capacity, cache)
    {
      this.settings := settings;
      engine := E.NewEngine(slots, capacity);
      seqs, kv := seq(slots, _ => None), seq(slots, _ => []);
      this.cache := cache;
      new;
      assert seqs == NewRuntime(slots, capacity, cache).seqs && kv == NewRuntime(slots, capacity, cache).kv;
    }

    // ----- prefill_batch -----

    method StepIsValid(ghost m: Model, step: Step) returns (ok: bool)
      requires RuntimeOk(m, View())
      ensures ok == (StepOk(View(), step) && 0 < step.budget <= settings.prefillChunk)
    {
      if step.slot >= |seqs| { return false; }
      if seqs[step.slot].None? || seqs[step.slot].value.handle.generation != step.generation
         || engine.slots[step.slot].lifecycle != E.Prefill { return false; }
      if step.budget == 0 || step.budget > settings.prefillChunk { return false; }
      assert LaneOk(m, step.slot, LaneAt(View(), step.slot));
      StepSizes(m, LaneAt(View(), step.slot), seqs[step.slot].value, step.budget);
      return true;
    }

    /** The `seen` flags: no slot is named twice. */
    static method NamesSlotsOnce(steps: seq<Step>) returns (ok: bool)
      ensures ok == DistinctSlots(steps)
    {
      var seen := {};
      ghost var at: map<nat, nat> := map[];
      for k := 0 to |steps|
        invariant seen == at.Keys && forall x :: x in at ==> 0 <= at[x] < k && steps[at[x]].slot == x
        invariant forall j :: 0 <= j < k ==> steps[j].slot in seen
        invariant DistinctSlots(steps[..k])
      {
        if steps[k].slot in seen { return false; }
        seen := seen + {steps[k].slot};
        at := at[steps[k].slot := k];
      }
      assert steps[..|steps|] == steps;
      return true;
    }

    /** The checks on the steps of a prefill command. */
    method PrefillIsValid(ghost m: Model, steps: seq<Step>) returns (ok: bool)
      requires RuntimeOk(m, View())
      ensures ok == PrefillAccepted(settings, View(), steps)
    {
      if |steps| == 0 || |steps| > |seqs| { return false; }
      ok := NamesSlotsOnce(steps);
      if !ok { return false; }
      var batchTokens := 0;
      ghost var rt := View();
      for k := 0 to |steps|
        invariant forall j :: 0 <= j < k ==> StepOk(rt, steps[j]) && 0 < steps[j].budget <= settings.prefillChunk
        invariant batchTokens == BatchTokens(rt, steps[..k])
      {
        ok := StepIsValid(m, steps[k]);
        if !ok { return false; }
        batchTokens := batchTokens + PhysicalStep(seqs[steps[k].slot].value, steps[k].budget);
        assert steps[..k + 1][..k] == steps[..k];
      }
      assert steps[..|steps|] == steps;
      return batchTokens <= settings.tickBudget && batchTokens <= settings.nBatch;
    }

    /** The backend call: every step's prompt tokens go into its slot's memory. */
    method DecodePrompts(steps: seq<Step>)
      requires Shape(View()) && forall k :: 0 <= k < |steps| ==> StepOk(View(), steps[k])
      modifies this`kv
      ensures View() == old(View()).(kv := BatchMemory(old(View()), steps))
    {
      ghost var start := View();
      for k := 0 to |steps|
        invariant kv == BatchMemory(start, steps[..k])
      {
        assert StepOk(start, steps[k]);
        var slot := steps[k].slot;
        var s := seqs[slot].value;
        var n := PhysicalStep(s, steps[k].budget);
        ghost var before := kv;
        for offset := 0 to n
          invariant |kv| == |before| && kv[slot] == before[slot] + PromptCells(s, n)[..offset]
          invariant forall j :: 0 <= j < |kv| && j != slot ==> kv[j] == before[j]
        {
          var index := s.physical + offset;
          kv := kv[slot := kv[slot] + [Cell(index, s.request.job.prompt[index])]];
        }
        assert PromptCells(s, n)[..n] == PromptCells(s, n);
        assert kv == before[slot := before[slot] + PromptCells(s, n)];
        assert steps[..k + 1][..k] == steps[..k];
      }
      assert steps[..|steps|] == steps;
    }

    static predicate Bookable(rt: Runtime, step: Step) {
      && Shape(rt) && step.slot < |rt.seqs| && rt.seqs[step.slot].Some?
      && var s := rt.seqs[step.slot].value;
      && s.logical <= |s.request.job.prompt| && s.physical + PhysicalStep(s, step.budget) <= |s.request.job.prompt|
    }

    /** `PrefillOne` without the memory, which the batch has already filled. */
    static function Booked(rt: Runtime, step: Step): (Runtime, bool)
      requires Bookable(rt, step)
    {
      var s := rt.seqs[step.slot].value;
      var (e1, status) := E.AdvancePrefill(rt.engine, s.handle, LogicalStep(s, step.budget));
      var rt1 := Runtime(e1, rt.seqs[step.slot := Some(Advance(s, step.budget))], rt.kv, rt.cache);
      if status != E.Applied then (rt1, false) else Checkpoint(rt1, step)
    }

    /** Books one step: counters, engine, then the checkpoint or session commit. */
    method Book(step: Step) returns (ok: bool)
      requires Bookable(View(), step)
      modifies this`engine, this`seqs, this`cache
      ensures (View(), ok) == Booked(old(View()), step)
    {
      var i := step.slot;
      var s := seqs[i].value;
      var logical, physical := LogicalStep(s, step.budget), PhysicalStep(s, step.budget);
      s := s.(physical := s.physical + physical);
      s := s.(logical := s.logical + logical, nPast := s.physical);
      seqs := seqs[i := Some(s)];
      var status;
      engine, status := E.AdvancePrefill(engine, s.handle, logical).0, E.AdvancePrefill(engine, s.handle, logical).1;
      if status != E.Applied { return false; }
      if s.identity.Some? {
        var q := s.request;
        if q.session.Some? && q.session.value.commit && s.committed.None? && s.physical == |q.sessionPrefix| {
          var (stored, done) := C.StoreSession(cache, s.identity.value, q.session.value.id, q.session.value.parent,
                                               q.requestId, q.sessionPrefix, kv[i], step.now, step.snapshot);
          cache := stored;
          if done.None? { return false; }
          seqs := seqs[i := Some(s.(committed := Some(done.value.generation)))];
        } else if q.session.None? && s.physical > 0 {
          cache := C.Store(cache, s.identity.value, q.job.prompt[..s.physical], kv[i], step.now, step.snapshot).0;
        }
      }
      return true;
    }

    /** Booking after the whole batch is in memory is booking step by step: a checkpoint reads
        only its own slot's memory. */
    static lemma BookedLikeOne(m: Model, rt: Runtime, start: Runtime, steps: seq<Step>, k: nat)
      requires RuntimeOk(m, start) && DistinctSlots(steps) && k < |steps|
      requires forall j :: 0 <= j < |steps| ==> StepOk(start, steps[j]) && steps[j].budget > 0
      requires PrefillAll(start, steps[..k]).1
      requires rt == PrefillAll(start, steps[..k]).0.(kv := BatchMemory(start, steps))
      ensures StepOk(PrefillAll(start, steps[..k]).0, steps[k])
      ensures Shape(rt) && LaneAt(PrefillAll(start, steps[..k]).0, steps[k].slot) == LaneAt(start, steps[k].slot)
      ensures rt.seqs == PrefillAll(start, steps[..k]).0.seqs
      ensures rt.kv[steps[k].slot] == Advanced(PrefillAll(start, steps[..k]).0, steps[k]).kv[steps[k].slot]
    {
      assert StepOk(start, steps[k]);
      PrefillAllOk(m, start, steps[..k]);
      BatchMemoryAt(start, steps, steps[k].slot);
      assert LaneAt(PrefillAll(start, steps[..k]).0, steps[k].slot) == LaneAt(start, steps[k].slot);
    }

    static lemma CheckpointReadsOwnMemory(rt: Runtime, step: Step, kv: seq<seq<Cell>>)
      requires Shape(rt) && step.slot < |rt.seqs| && rt.seqs[step.slot].Some? && |kv| == |rt.kv|
      requires rt.seqs[step.slot].value.physical <= |rt.seqs[step.slot].value.request.job.prompt|
      requires kv[step.slot] == rt.kv[step.slot]
      ensures Checkpoint(rt.(kv := kv), step) == (Checkpoint(rt, step).0.(kv := kv), Checkpoint(rt, step).1)
    {
    }

    static lemma BookedIsOne(rt: Runtime, step: Step, kv: seq<seq<Cell>>)
      requires Shape(rt) && StepOk(rt, step) && |kv| == |rt.kv|
      requires kv[step.slot] == Advanced(rt, step).kv[step.slot]
      ensures var (rt1, ok) := PrefillOne(rt, step); Booked(rt.(kv := kv), step) == (rt1.(kv := kv), ok)
    {
      hide Checkpoint;
      CheckpointReadsOwnMemory(Advanced(rt, step), step, kv);
    }

    /** So one more booking is one more step of the specification. */
    static lemma BookingAdvances(m: Model, rt: Runtime, start: Runtime, steps: seq<Step>, k: nat)
      requires RuntimeOk(m, start) && DistinctSlots(steps) && k < |steps|
      requires forall j :: 0 <= j < |steps| ==> StepOk(start, steps[j]) && steps[j].budget > 0
      requires PrefillAll(start, steps[..k]).1
      requires rt == PrefillAll(start, steps[..k]).0.(kv := BatchMemory(start, steps))
      ensures Bookable(rt, steps[k])
      ensures var (rt1, ok) := PrefillAll(start, steps[..k + 1]);
              Booked(rt, steps[k]) == (rt1.(kv := BatchMemory(start, steps)), ok)
    {
      hide LaneOk;
      hide E.LedgerHolds;
      hide Booked;
      hide PrefillOne;
      hide BatchMemory;
      BookedLikeOne(m, rt, start, steps, k);
      BookedIsOne(PrefillAll(start, steps[..k]).0, steps[k], BatchMemory(start, steps));
      assert steps[..k + 1][..k] == steps[..k];
    }

    method Prefill(ghost m: Model, steps: seq<Step>) returns (outcome: Outcome)
      requires RuntimeOk(m, View())
      modifies this
      ensures (View(), outcome) == Spec.Prefill(settings, old(View()), steps)
    {
      hide LaneOk;
      hide E.LedgerHolds;
      hide Booked;
      hide PrefillOne;
      hide BatchMemory;
      hide StepOk;
      ghost var start := View();
      var valid := PrefillIsValid(m, steps);
      if !valid { return Rejected; }
      DecodePrompts(steps);
      for k := 0 to |steps|
        invariant PrefillAll(start, steps[..k]).1
        invariant View() == PrefillAll(start, steps[..k]).0.(kv := BatchMemory(start, steps))
      {
        BookingAdvances(m, View(), start, steps, k);
        var ok := Book(steps[k]);
        if !ok {
          FailureSticks(start, steps, k + 1);
          return Failed;
        }
      }
      assert steps[..|steps|] == steps;
      return Answered;
    }

    // ----- decode_batch -----

    /** The text of a final-phase token: collected, fed to the decoder, and what is complete
        handed out. */
    static method Speak(m: Model, g: Gen, token: Token, spoken: bool) returns (acc: U.Acc, bytes: seq<U.Byte>, deltas: seq<U.Byte>)
      requires g.utf8.valid && spoken == (g.phase.phase == P.Final && !m.isEog(token))
      ensures acc == Decoded(m, g, token).acc
      ensures bytes == g.finalBytes + Piece(m, g, token) && deltas == g.deltas + Decoded(m, g, token).completed
    {
      hide U.Scan;
      acc, bytes, deltas := g.utf8, g.finalBytes, g.deltas;
      if spoken {
        var piece := m.piece(token);
        bytes := bytes + piece;
        var appended := U.Feed(acc, piece);
        acc := appended.acc;
        if acc.valid { deltas := deltas + appended.completed; }
      }
    }

    /** What the loop does with a sampled token, statement by statement. */
    static method Digest(m: Model, c: P.Config, g: Gen, token: Token, exhausted: bool) returns (r: Gen)
      requires g.utf8.valid && !g.failed && !g.terminal && g.error == ""
      ensures r == Absorb(m, c, g, token, exhausted)
    {
      hide P.Consume;
      hide Decoded;
      hide Piece;
      var eog := m.isEog(token);
      var before := g.phase.phase;
      var (phase, transition) := P.Consume(c, g.phase, P.Input(token, eog, eog && g.finalPhase));
      r := g.(phase := phase, generated := g.generated + [token],
              accepted := if g.finalPhase then g.accepted + [token] else g.accepted);
      var acc, bytes, deltas := Speak(m, g, token, before == P.Final && !eog);
      r := r.(utf8 := acc, finalBytes := bytes, deltas := deltas);
      if !acc.valid { r := r.(failed := true, error := "invalid_utf8"); }
      if transition.action == P.ActivateFinalGrammar { r := r.(finalPhase := true); }
      if transition.action == P.Failed { r := r.(failed := true, error := transition.error); }
      if !r.failed && transition.action != P.Completed && exhausted {
        r := r.(failed := true, error := "total_budget_exhausted");
      }
      if r.failed {
        r := r.(terminal := true);
      } else if transition.action == P.Completed {
        r := r.(terminal := true);
        if !U.Finished(r.utf8) { r := r.(failed := true, error := "incomplete_utf8"); }
      }
    }

    /** One sequence's share of a decode round. */
    method Round(m: Model, i: nat)
      requires Shape(View()) && i < |seqs| && seqs[i].Some? && engine.slots[i].lifecycle == E.Decode
      requires var g := seqs[i].value.gen; g.utf8.valid && !g.failed && !g.terminal && g.error == ""
      requires seqs[i].value.handle.slot == i && E.Finds(engine, seqs[i].value.handle)
      requires engine.slots[i].decoded < engine.slots[i].outputBudget
      modifies this`engine, this`seqs, this`kv
      ensures (View(), true) == DecodeOne(m, old(View()), i)
    {
      hide Absorb;
      var s := seqs[i].value;
      kv := kv[i := kv[i] + [Cell(s.nPast, s.pending)]];
      var token := m.sample(kv[i], s.gen.finalPhase, s.gen.accepted, s.request.job.grammar);
      engine := E.AdvanceDecode(engine, s.handle, 1).0;
      var exhausted := engine.slots[i].decoded == engine.slots[i].outputBudget;
      var g := Digest(m, PhaseConfig(m, s.request.job), s.gen, token, exhausted);
      if g.terminal {
        engine := E.Finish(engine, s.handle, if g.failed then E.Failure else E.Stop).0;
      } else {
        s := s.(pending := token);
      }
      seqs := seqs[i := Some(s.(nPast := s.nPast + 1, gen := g))];
    }

    static lemma Ready(m: Model, rt: Runtime, i: nat)
      requires RuntimeOk(m, rt) && i < |rt.seqs| && rt.seqs[i].Some? && rt.engine.slots[i].lifecycle == E.Decode
      ensures var s := rt.seqs[i].value;
              && s.gen.utf8.valid && !s.gen.failed && !s.gen.terminal && s.gen.error == ""
              && s.handle.slot == i && E.Finds(rt.engine, s.handle)
              && rt.engine.slots[i].decoded < rt.engine.slots[i].outputBudget
      ensures DecodeOne(m, rt, i) == (PutLane(rt, i, DecodeLane(m, LaneAt(rt, i))), true)
      ensures RuntimeOk(m, PutLane(rt, i, DecodeLane(m, LaneAt(rt, i))))
    {
      var lane := LaneAt(rt, i);
      assert LaneOk(m, i, lane);
      var s := lane.owner.value;
      ReferenceOk(m, s.request.job, |s.gen.generated|);
      ReferenceError(m, s.request.job, |s.gen.generated|);
      LockStep(m, i, lane);
      DecodeOneIsLane(m, rt, i);
      DecodeSlotOk(m, rt, i, 1);
      assert DecodeRounds(m, lane, 1) == DecodeLane(m, lane);
    }

    static lemma {:induction false} ReferenceError(m: Model, job: Job, n: nat)
      ensures !Reference(m, job, n).failed ==> Reference(m, job, n).error == ""
      decreases n
    {
      if n > 0 { ReferenceError(m, job, n - 1); }
    }

    method QuantumIsValid(q: Quantum) returns (ok: bool)
      requires Shape(View())
      ensures ok == (QuantumOk(View(), q) && 0 < q.budget <= settings.decodeQuantum)
    {
      if q.budget == 0 || q.budget > settings.decodeQuantum { return false; }
      if q.slot >= |seqs| { return false; }
      if seqs[q.slot].None? || seqs[q.slot].value.handle.generation != q.generation { return false; }
      return !seqs[q.slot].value.gen.terminal && engine.slots[q.slot].lifecycle == E.Decode;
    }

    static method NamesQuantaOnce(quanta: seq<Quantum>) returns (ok: bool)
      ensures ok == DistinctQuanta(quanta)
    {
      var seen := {};
      ghost var at: map<nat, nat> := map[];
      for k := 0 to |quanta|
        invariant seen == at.Keys && forall x :: x in at ==> 0 <= at[x] < k && quanta[at[x]].slot == x
        invariant forall j :: 0 <= j < k ==> quanta[j].slot in seen
        invariant DistinctQuanta(quanta[..k])
      {
        if quanta[k].slot in seen { return false; }
        seen := seen + {quanta[k].slot};
        at := at[quanta[k].slot := k];
      }
      assert quanta[..|quanta|] == quanta;
      return true;
    }

    method DecodeIsValid(quanta: seq<Quantum>) returns (ok: bool)
      requires Shape(View())
      ensures ok == DecodeAccepted(settings, View(), quanta)
    {
      if |quanta| == 0 || |quanta| > settings.maxDecodeBatch { return false; }
      ok := NamesQuantaOnce(quanta);
      if !ok { return false; }
      var requested := 0;
      for k := 0 to |quanta|
        invariant forall j :: 0 <= j < k ==> QuantumOk(View(), quanta[j]) && 0 < quanta[j].budget <= settings.decodeQuantum
        invariant requested == TotalBudget(quanta[..k])
      {
        ok := QuantumIsValid(quanta[k]);
        if !ok { return false; }
        requested := requested + quanta[k].budget;
        assert quanta[..k + 1][..k] == quanta[..k];
      }
      assert quanta[..|quanta|] == quanta;
      return requested <= settings.tickBudget;
    }

    /** `produced[k]` rounds into the batch: every named lane is where that many rounds of its
        own take it, every other lane where it started. */
    static ghost predicate InProgress(m: Model, start: Runtime, rt: Runtime, quanta: seq<Quantum>, produced: seq<nat>) {
      && Shape(start) && Shape(rt) && |rt.seqs| == |start.seqs| && rt.cache == start.cache
      && rt.engine == start.engine.(slots := rt.engine.slots)
      && DistinctQuanta(quanta) && |produced| == |quanta|
      && (forall k :: 0 <= k < |quanta| ==>
            && QuantumOk(start, quanta[k]) && produced[k] <= quanta[k].budget
            && LaneAt(rt, quanta[k].slot) == DecodeRounds(m, LaneAt(start, quanta[k].slot), produced[k]))
      && (forall i :: 0 <= i < |rt.seqs| && (forall k :: 0 <= k < |quanta| ==> quanta[k].slot != i) ==> LaneAt(rt, i) == LaneAt(start, i))
    }

    /** The loop passes over a sequence that has ended or used its budget. */
    static predicate IsDone(rt: Runtime, q: Quantum, produced: nat)
      requires q.slot < |rt.seqs| && rt.seqs[q.slot].Some?
    {
      rt.seqs[q.slot].value.gen.terminal || produced >= q.budget
    }

    static lemma StillDecoding(m: Model, start: Runtime, rt: Runtime, quanta: seq<Quantum>, produced: seq<nat>, k: nat)
      requires RuntimeOk(m, start) && InProgress(m, start, rt, quanta, produced) && k < |quanta|
      ensures quanta[k].slot < |rt.seqs| && rt.seqs[quanta[k].slot].Some?
      ensures !rt.seqs[quanta[k].slot].value.gen.terminal ==> rt.engine.slots[quanta[k].slot].lifecycle == E.Decode
    {
      assert QuantumOk(start, quanta[k]);
      var lane := LaneAt(start, quanta[k].slot);
      assert LaneOk(m, quanta[k].slot, lane);
      DecodeRoundsOk(m, quanta[k].slot, lane, produced[k]);
    }

    static lemma RoundProgress(m: Model, start: Runtime, rt: Runtime, quanta: seq<Quantum>, produced: seq<nat>, k: nat)
      requires InProgress(m, start, rt, quanta, produced) && k < |quanta|
      requires quanta[k].slot < |rt.seqs| && rt.seqs[quanta[k].slot].Some? && !IsDone(rt, quanta[k], produced[k])
      ensures InProgress(m, start, PutLane(rt, quanta[k].slot, DecodeLane(m, LaneAt(rt, quanta[k].slot))), quanta,
                         produced[k := produced[k] + 1])
    {
      hide DecodeLane;
      var i := quanta[k].slot;
      var rt1 := PutLane(rt, i, DecodeLane(m, LaneAt(rt, i)));
      var more := produced[k := produced[k] + 1];
      forall j | 0 <= j < |quanta|
        ensures QuantumOk(start, quanta[j]) && more[j] <= quanta[j].budget
        ensures LaneAt(rt1, quanta[j].slot) == DecodeRounds(m, LaneAt(start, quanta[j].slot), more[j])
      {
        assert QuantumOk(start, quanta[j]);
        assert j != k ==> LaneAt(rt1, quanta[j].slot) == LaneAt(rt, quanta[j].slot);
      }
    }

    static lemma RoundsStop(m: Model, lane: Lane, n: nat)
      requires lane.owner.Some? && n > 0 && DecodeRounds(m, lane, n - 1).owner.value.gen.terminal
      ensures DecodeRounds(m, lane, n) == DecodeRounds(m, lane, n - 1)
    {
    }

    static lemma {:induction false} RoundsSaturate(m: Model, lane: Lane, p: nat, n: nat, end: Lane)
      requires lane.owner.Some? && p <= n && end == DecodeRounds(m, lane, p) && end.owner.value.gen.terminal
      ensures DecodeRounds(m, lane, n) == end
      decreases n
    {
      hide DecodeLane;
      if p < n {
        RoundsSaturate(m, lane, p, n - 1, end);
        RoundsStop(m, lane, n);
      }
    }

    static lemma {:induction false} BudgetOfNamed(quanta: seq<Quantum>, k: nat)
      requires DistinctQuanta(quanta) && k < |quanta|
      ensures BudgetOf(quanta, quanta[k].slot) == quanta[k].budget
      decreases |quanta|
    {
      if k < |quanta| - 1 { BudgetOfNamed(quanta[..|quanta| - 1], k); }
    }

    static lemma {:induction false} DecodeAllFrame(m: Model, rt: Runtime, quanta: seq<Quantum>)
      requires Shape(rt)
      ensures var r := DecodeAll(m, rt, quanta);
              r.cache == rt.cache && r.engine == rt.engine.(slots := r.engine.slots)
      decreases |quanta|
    {
      if quanta != [] { DecodeAllFrame(m, rt, quanta[..|quanta| - 1]); }
    }

    static lemma LaneDone(m: Model, start: Runtime, rt: Runtime, quanta: seq<Quantum>, produced: seq<nat>, k: nat)
      requires InProgress(m, start, rt, quanta, produced) && k < |quanta|
      requires quanta[k].slot < |rt.seqs| && rt.seqs[quanta[k].slot].Some? && IsDone(rt, quanta[k], produced[k])
      ensures LaneAt(rt, quanta[k].slot) == LaneAfter(m, LaneAt(start, quanta[k].slot), BudgetOf(quanta, quanta[k].slot))
    {
      assert QuantumOk(start, quanta[k]);
      var i := quanta[k].slot;
      BudgetOfNamed(quanta, k);
      if rt.seqs[i].value.gen.terminal {
        RoundsSaturate(m, LaneAt(start, i), produced[k], quanta[k].budget, LaneAt(rt, i));
      }
    }

    /** When no sequence has anything left to do, the state is the one the command is to reach. */
    static lemma AllDone(m: Model, start: Runtime, rt: Runtime, quanta: seq<Quantum>, produced: seq<nat>)
      requires RuntimeOk(m, start) && InProgress(m, start, rt, quanta, produced)
      requires forall k :: 0 <= k < |quanta| ==>
                 quanta[k].slot < |rt.seqs| && rt.seqs[quanta[k].slot].Some? && IsDone(rt, quanta[k], produced[k])
      ensures rt == DecodeAll(m, start, quanta)
    {
      hide LaneOk;
      hide DecodeAll;
      DecodeAllOk(m, start, quanta);
      DecodeAllFrame(m, start, quanta);
      var goal := DecodeAll(m, start, quanta);
      forall i | 0 <= i < |rt.seqs|
        ensures LaneAt(rt, i) == LaneAt(goal, i)
      {
        if k :| 0 <= k < |quanta| && quanta[k].slot == i {
          LaneDone(m, start, rt, quanta, produced, k);
        } else {
          UnnamedHasNoBudget(quanta, i);
        }
      }
      SameLanes(rt, goal);
    }

    static lemma SameLanes(a: Runtime, b: Runtime)
      requires Shape(a) && Shape(b) && |a.seqs| == |b.seqs| && a.cache == b.cache
      requires a.engine == b.engine.(slots := a.engine.slots)
      requires forall i :: 0 <= i < |a.seqs| ==> LaneAt(a, i) == LaneAt(b, i)
      ensures a == b
    {
      forall i | 0 <= i < |a.seqs|
        ensures a.engine.slots[i] == b.engine.slots[i] && a.seqs[i] == b.seqs[i] && a.kv[i] == b.kv[i]
      {
        assert LaneAt(a, i) == LaneAt(b, i);
      }
    }

    /** One sequence's turn in a pass: a round if it has work left. */
    method Turn(m: Model, ghost start: Runtime, quanta: seq<Quantum>, produced: seq<nat>, k: nat)
      returns (now: seq<nat>, did: bool)
      requires RuntimeOk(m, start) && RuntimeOk(m, View()) && InProgress(m, start, View(), quanta, produced) && k < |quanta|
      modifies this`engine, this`seqs, this`kv
      ensures RuntimeOk(m, View()) && InProgress(m, start, View(), quanta, now)
      ensures quanta[k].slot < |old(seqs)| && old(seqs)[quanta[k].slot].Some? && did == !IsDone(old(View()), quanta[k], produced[k])
      ensures if did then now == produced[k := produced[k] + 1] else now == produced && View() == old(View())
      ensures |seqs| == |old(seqs)| && seqs[quanta[k].slot].Some?
      ensures forall i :: 0 <= i < |seqs| && i != quanta[k].slot ==> seqs[i] == old(seqs)[i]
    {
      StillDecoding(m, start, View(), quanta, produced, k);
      var i := quanta[k].slot;
      now, did := produced, false;
      if !seqs[i].value.gen.terminal && produced[k] < quanta[k].budget {
        Ready(m, View(), i);
        RoundProgress(m, start, View(), quanta, produced, k);
        Round(m, i);
        now, did := produced[k := produced[k] + 1], true;
      }
    }

    /** Where a pass stands: the sequences before index `k` have had their turn in round `r`. */
    static ghost predicate Tally(seqs: seq<Option<Sequence>>, quanta: seq<Quantum>, produced: seq<nat>, r: nat, k: nat) {
      && |produced| == |quanta|
      && forall j :: 0 <= j < |quanta| ==>
           && quanta[j].slot < |seqs| && seqs[quanta[j].slot].Some?
           && (seqs[quanta[j].slot].value.gen.terminal || produced[j] >= quanta[j].budget || produced[j] == if j < k then r + 1 else r)
    }

    static ghost predicate DoneUpto(seqs: seq<Option<Sequence>>, quanta: seq<Quantum>, produced: seq<nat>, k: nat) {
      && |produced| == |quanta|
      && forall j :: 0 <= j < k && j < |quanta| ==>
           && quanta[j].slot < |seqs| && seqs[quanta[j].slot].Some?
           && (seqs[quanta[j].slot].value.gen.terminal || produced[j] >= quanta[j].budget)
    }

    static lemma TallyTurn(before: seq<Option<Sequence>>, after: seq<Option<Sequence>>, quanta: seq<Quantum>,
                           produced: seq<nat>, now: seq<nat>, r: nat, k: nat)
      requires Tally(before, quanta, produced, r, k) && k < |quanta| && DistinctQuanta(quanta) && |after| == |before|
      requires after[quanta[k].slot].Some? && forall i :: 0 <= i < |after| && i != quanta[k].slot ==> after[i] == before[i]
      requires now == produced[k := produced[k] + 1]
      requires !before[quanta[k].slot].value.gen.terminal && produced[k] < quanta[k].budget
      ensures Tally(after, quanta, now, r, k + 1)
    {
    }

    /** One pass of the outer loop: every sequence with work left does one round. */
    method Pass(m: Model, ghost start: Runtime, quanta: seq<Quantum>, produced: seq<nat>, ghost r: nat)
      returns (now: seq<nat>, active: bool)
      requires RuntimeOk(m, start) && RuntimeOk(m, View()) && InProgress(m, start, View(), quanta, produced)
      requires Tally(seqs, quanta, produced, r, 0) && DistinctQuanta(quanta)
      modifies this`engine, this`seqs, this`kv
      ensures RuntimeOk(m, View()) && InProgress(m, start, View(), quanta, now)
      ensures Tally(seqs, quanta, now, r + 1, 0)
      ensures !active ==> DoneUpto(seqs, quanta, now, |quanta|)
      ensures active ==> exists j :: 0 <= j < |quanta| && r < quanta[j].budget
    {
      hide RuntimeOk;
      hide InProgress;
      now, active := produced, false;
      var k := 0;
      while k < |quanta|
        invariant k <= |quanta|
        invariant RuntimeOk(m, View()) && InProgress(m, start, View(), quanta, now)
        invariant Tally(seqs, quanta, now, r, k)
        invariant !active ==> DoneUpto(seqs, quanta, now, k)
        invariant active ==> exists j :: 0 <= j < |quanta| && r < quanta[j].budget
      {
        ghost var seqsBefore, producedBefore := seqs, now;
        var did;
        now, did := Turn(m, start, quanta, now, k);
        if did {
          TallyTurn(seqsBefore, seqs, quanta, producedBefore, now, r, k);
          active := true;
        }
        k := k + 1;
      }
    }

    method Decode(m: Model, quanta: seq<Quantum>) returns (outcome: Outcome)
      requires RuntimeOk(m, View())
      modifies this
      ensures (View(), outcome) == Execute(m, settings, old(View()), DecodeBatch(quanta))
    {
      ghost var start := View();
      var valid := DecodeIsValid(quanta);
      if !valid { return Rejected; }
      var produced := seq(|quanta|, _ => 0);
      var r, active := 0, true;
      Begin(m, start, quanta, produced);
      while active
        invariant RuntimeOk(m, View()) && InProgress(m, start, View(), quanta, produced)
        invariant Tally(seqs, quanta, produced, r, 0)
        invariant !active ==> DoneUpto(seqs, quanta, produced, |quanta|)
        invariant active ==> r <= settings.decodeQuantum
        decreases settings.decodeQuantum + 1 - r
      {
        produced, active := Pass(m, start, quanta, produced, r);
        r := r + 1;
      }
      AllDone(m, start, View(), quanta, produced);
      return Answered;
    }

    static lemma Begin(m: Model, rt: Runtime, quanta: seq<Quantum>, produced: seq<nat>)
      requires RuntimeOk(m, rt) && DistinctQuanta(quanta) && |produced| == |quanta|
      requires forall k :: 0 <= k < |quanta| ==> QuantumOk(rt, quanta[k]) && produced[k] == 0
      ensures InProgress(m, rt, rt, quanta, produced)
    {
    }
  }
}
