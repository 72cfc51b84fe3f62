module SlotEngine {
  // The slot allocator of the native runtime (native/sequence_engine.cpp): a fixed vector of
  // slots with generations, a token-reservation ledger and a round-robin cursor. `Engine` is
  // the allocator's state as a value; the class works on it in place.

  const SIZE_MAX: nat := 0xFFFF_FFFF_FFFF_FFFF

  datatype Lifecycle = Admitted | Prefill | Decode | Terminal | Released
  datatype FinishReason = NoReason | Stop | Length | Cancelled | Failure

  datatype Slot = Slot(
    generation: nat, requestId: string, attemptId: string,
    lifecycle: Lifecycle, reason: FinishReason,
    promptTokens: nat, outputBudget: nat, processed: nat, decoded: nat)

  datatype Handle = Handle(slot: int, generation: nat, requestId: string, attemptId: string)

  datatype Engine = Engine(slots: seq<Slot>, capacity: nat, reserved: nat, active: nat, cursor: nat)

  datatype Admission = AdmittedTo(handle: Handle) | InvalidRequest | Duplicate | SequenceCapacity | TokenCapacity
  datatype Status = Applied | StaleHandle | InvalidState | InvalidAmount
  datatype Release = ReleasedTokens(tokens: nat) | AlreadyReleased | StaleRelease | NotTerminal

  function FreeSlot(generation: nat): Slot { Slot(generation, "", "", Released, NoReason, 0, 0, 0, 0) }

  /** Generations are 64-bit and skip zero when they wrap. */
  function NextGeneration(g: nat): nat { if g >= SIZE_MAX then 1 else g + 1 }

  /** Unsigned subtraction, which wraps; the ledger invariant rules the wrap out. */
  function SizeMinus(a: nat, b: nat): (d: nat)
    ensures b <= a <= SIZE_MAX ==> d == a - b
  {
    (a - b) % (SIZE_MAX + 1)
  }

  predicate IsLive(s: Slot) { s.lifecycle != Released }
  predicate Runnable(s: Slot) { s.lifecycle == Prefill || s.lifecycle == Decode }
  function Reservation(s: Slot): nat { s.promptTokens + s.outputBudget }
  function HandleOf(index: nat, s: Slot): Handle { Handle(index, s.generation, s.requestId, s.attemptId) }

  predicate MatchesSlot(s: Slot, h: Handle) {
    IsLive(s) && s.generation == h.generation && s.requestId == h.requestId && s.attemptId == h.attemptId
  }

  predicate Finds(e: Engine, h: Handle) {
    0 <= h.slot < |e.slots| && MatchesSlot(e.slots[h.slot], h)
  }

  predicate HasPair(slots: seq<Slot>, rid: string, aid: string) {
    exists i :: 0 <= i < |slots| && IsLive(slots[i]) && slots[i].requestId == rid && slots[i].attemptId == aid
  }

  /** First released slot at or after `from`, or the number of slots. */
  function FirstFree(slots: seq<Slot>, from: nat): (i: nat)
    requires from <= |slots|
    ensures from <= i <= |slots|
    ensures i < |slots| ==> !IsLive(slots[i])
    ensures forall k :: from <= k < i ==> IsLive(slots[k])
    decreases |slots| - from
  {
    if from == |slots| || !IsLive(slots[from]) then from else FirstFree(slots, from + 1)
  }

  // ----- the operations -----

  function Admit(e: Engine, rid: string, aid: string, prompt: nat, budget: nat): (Engine, Admission) {
    if rid == "" || aid == "" || prompt == 0 || budget == 0 then (e, InvalidRequest)
    else if prompt > SIZE_MAX - budget then (e, InvalidRequest)
    else if HasPair(e.slots, rid, aid) then (e, Duplicate)
    else if e.active == |e.slots| then (e, SequenceCapacity)
    else if prompt + budget > e.capacity - e.reserved then (e, TokenCapacity)
    else
      var i := FirstFree(e.slots, 0);
      if i == |e.slots| then (e, SequenceCapacity)
      else
        var s := Slot(NextGeneration(e.slots[i].generation), rid, aid, Admitted, NoReason, prompt, budget, 0, 0);
        (e.(slots := e.slots[i := s], reserved := e.reserved + (prompt + budget), active := e.active + 1),
         AdmittedTo(HandleOf(i, s)))
  }

  function Put(e: Engine, h: Handle, s: Slot): Engine
    requires Finds(e, h)
  {
    e.(slots := e.slots[h.slot := s])
  }

  function StartPrefill(e: Engine, h: Handle): (Engine, Status) {
    if !Finds(e, h) then (e, StaleHandle)
    else if e.slots[h.slot].lifecycle != Admitted then (e, InvalidState)
    else (Put(e, h, e.slots[h.slot].(lifecycle := Prefill)), Applied)
  }

  function AdvancePrefill(e: Engine, h: Handle, tokens: nat): (Engine, Status) {
    if !Finds(e, h) then (e, StaleHandle)
    else
      var s := e.slots[h.slot];
      if s.lifecycle != Prefill then (e, InvalidState)
      else if tokens == 0 || tokens > s.promptTokens - s.processed then (e, InvalidAmount)
      else
        var done := s.processed + tokens == s.promptTokens;
        (Put(e, h, s.(processed := s.processed + tokens, lifecycle := if done then Decode else Prefill)), Applied)
  }

  function AdvanceDecode(e: Engine, h: Handle, tokens: nat): (Engine, Status) {
    if !Finds(e, h) then (e, StaleHandle)
    else
      var s := e.slots[h.slot];
      if s.lifecycle != Decode then (e, InvalidState)
      else if tokens == 0 || tokens > s.outputBudget - s.decoded then (e, InvalidAmount)
      else (Put(e, h, s.(decoded := s.decoded + tokens)), Applied)
  }

  function Finish(e: Engine, h: Handle, reason: FinishReason): (Engine, Status) {
    if !Finds(e, h) then (e, StaleHandle)
    else if e.slots[h.slot].lifecycle != Decode then (e, InvalidState)
    else if reason != Stop && reason != Length && reason != Failure then (e, InvalidAmount)
    else (Put(e, h, e.slots[h.slot].(lifecycle := Terminal, reason := reason)), Applied)
  }

  function Cancel(e: Engine, h: Handle): (Engine, Status) {
    if !Finds(e, h) then (e, StaleHandle)
    else
      var s := e.slots[h.slot];
      if s.lifecycle != Admitted && s.lifecycle != Prefill && s.lifecycle != Decode then (e, InvalidState)
      else (Put(e, h, s.(lifecycle := Terminal, reason := Cancelled)), Applied)
  }

  function ReleaseSlot(e: Engine, h: Handle): (Engine, Release) {
    if !Finds(e, h) then
      if 0 <= h.slot < |e.slots| && e.slots[h.slot].generation == h.generation && !IsLive(e.slots[h.slot])
      then (e, AlreadyReleased) else (e, StaleRelease)
    else
      var s := e.slots[h.slot];
      if s.lifecycle != Terminal then (e, NotTerminal)
      else
        var freed := Put(e, h, FreeSlot(s.generation));
        (freed.(reserved := SizeMinus(e.reserved, Reservation(s)), active := SizeMinus(e.active, 1)),
         ReleasedTokens(Reservation(s)))
  }

  /** The slot `offset` places after the cursor, cyclically. */
  function At(cursor: nat, offset: nat, n: nat): nat
    requires cursor < n && offset < n
  {
    if cursor + offset < n then cursor + offset else cursor + offset - n
  }

  function FirstRunnable(slots: seq<Slot>, cursor: nat, offset: nat): (k: nat)
    requires cursor < |slots| && offset <= |slots|
    ensures offset <= k <= |slots|
    ensures k < |slots| ==> Runnable(slots[At(cursor, k, |slots|)])
    ensures forall j :: offset <= j < k ==> !Runnable(slots[At(cursor, j, |slots|)])
    decreases |slots| - offset
  {
    if offset == |slots| || Runnable(slots[At(cursor, offset, |slots|)]) then offset
    else FirstRunnable(slots, cursor, offset + 1)
  }

  datatype Turn = NoTurn | Turn(handle: Handle)

  function NextRunnable(e: Engine): (Engine, Turn)
    requires e.cursor < |e.slots|
  {
    var n := |e.slots|;
    var k := FirstRunnable(e.slots, e.cursor, 0);
    if k == n then (e, NoTurn)
    else
      var i := At(e.cursor, k, n);
      (e.(cursor := if i + 1 == n then 0 else i + 1), Turn(HandleOf(i, e.slots[i])))
  }

  datatype Op =
    | DoAdmit(rid: string, aid: string, prompt: nat, budget: nat)
    | DoStartPrefill(handle: Handle)
    | DoAdvancePrefill(handle: Handle, tokens: nat)
    | DoAdvanceDecode(handle: Handle, tokens: nat)
    | DoFinish(handle: Handle, reason: FinishReason)
    | DoCancel(handle: Handle)
    | DoRelease(handle: Handle)
    | DoNext

  function Perform(e: Engine, op: Op): Engine
    requires e.cursor < |e.slots|
  {
    match op
    case DoAdmit(rid, aid, p, b) => Admit(e, rid, aid, p, b).0
    case DoStartPrefill(h) => StartPrefill(e, h).0
    case DoAdvancePrefill(h, n) => AdvancePrefill(e, h, n).0
    case DoAdvanceDecode(h, n) => AdvanceDecode(e, h, n).0
    case DoFinish(h, r) => Finish(e, h, r).0
    case DoCancel(h) => Cancel(e, h).0
    case DoRelease(h) => ReleaseSlot(e, h).0
    case DoNext => NextRunnable(e).0
  }

  // ----- the ledger -----

  function Owed(s: Slot): nat { if IsLive(s) then Reservation(s) else 0 }

  function TotalOwed(slots: seq<Slot>): nat
    decreases |slots|
  {
    if slots == [] then 0 else TotalOwed(slots[..|slots| - 1]) + Owed(slots[|slots| - 1])
  }

  function LiveCount(slots: seq<Slot>): nat
    decreases |slots|
  {
    if slots == [] then 0
    else LiveCount(slots[..|slots| - 1]) + (if IsLive(slots[|slots| - 1]) then 1 else 0)
  }

  predicate SlotOk(s: Slot) {
    && (IsLive(s) ==> s.requestId != "" && s.attemptId != "" && s.promptTokens > 0 && s.outputBudget > 0)
    && s.processed <= s.promptTokens && s.decoded <= s.outputBudget
    && (s.lifecycle == Admitted ==> s.processed == 0)
    && (s.lifecycle == Prefill ==> s.processed < s.promptTokens)
    && (s.lifecycle == Decode ==> s.processed == s.promptTokens)
    && (s.lifecycle == Released ==> s == FreeSlot(s.generation))
  }

  predicate DistinctPairs(slots: seq<Slot>) {
    forall i, j :: 0 <= i < j < |slots| && IsLive(slots[i]) && IsLive(slots[j]) ==>
      slots[i].requestId != slots[j].requestId || slots[i].attemptId != slots[j].attemptId
  }

  predicate LedgerHolds(e: Engine) {
    && e.cursor < |e.slots|
    && e.reserved == TotalOwed(e.slots) && e.active == LiveCount(e.slots)
    && e.reserved <= e.capacity <= SIZE_MAX && |e.slots| <= SIZE_MAX
    && (forall i :: 0 <= i < |e.slots| ==> SlotOk(e.slots[i]))
    && DistinctPairs(e.slots)
  }

  lemma {:induction false} TotalsAfterPut(slots: seq<Slot>, i: nat, s: Slot)
    requires i < |slots|
    ensures TotalOwed(slots[i := s]) == TotalOwed(slots) - Owed(slots[i]) + Owed(s)
    ensures LiveCount(slots[i := s]) == LiveCount(slots) - (if IsLive(slots[i]) then 1 else 0) + (if IsLive(s) then 1 else 0)
    ensures Owed(slots[i]) <= TotalOwed(slots)
    ensures IsLive(slots[i]) ==> LiveCount(slots) >= 1
    decreases |slots|
  {
    var n := |slots| - 1;
    if i == n {
      assert slots[i := s][..n] == slots[..n];
    } else {
      TotalsAfterPut(slots[..n], i, s);
      assert slots[i := s][..n] == slots[..n][i := s];
    }
  }

  lemma {:induction false} FullMeansNoneFree(slots: seq<Slot>)
    ensures LiveCount(slots) <= |slots|
    ensures LiveCount(slots) == |slots| <==> forall i :: 0 <= i < |slots| ==> IsLive(slots[i])
    decreases |slots|
  {
    if slots != [] {
      var init := slots[..|slots| - 1];
      FullMeansNoneFree(init);
      assert forall i :: 0 <= i < |init| ==> init[i] == slots[i];
    }
  }

  /** `admit` succeeds exactly when its five checks pass: with the ledger intact the search
      for a free slot never comes back empty. */
  lemma AdmitIsExact(e: Engine, rid: string, aid: string, prompt: nat, budget: nat)
    requires LedgerHolds(e)
    ensures Admit(e, rid, aid, prompt, budget).1.AdmittedTo? <==>
              && rid != "" && aid != "" && prompt > 0 && budget > 0 && prompt + budget <= SIZE_MAX
              && !HasPair(e.slots, rid, aid)
              && (exists i :: 0 <= i < |e.slots| && !IsLive(e.slots[i]))
              && TotalOwed(e.slots) + prompt + budget <= e.capacity
    ensures !Admit(e, rid, aid, prompt, budget).1.AdmittedTo? ==> Admit(e, rid, aid, prompt, budget).0 == e
  {
    FullMeansNoneFree(e.slots);
  }

  lemma AdmitKeepsLedger(e: Engine, rid: string, aid: string, prompt: nat, budget: nat)
    requires LedgerHolds(e)
    ensures LedgerHolds(Admit(e, rid, aid, prompt, budget).0)
  {
    var (e1, r) := Admit(e, rid, aid, prompt, budget);
    if r.AdmittedTo? {
      var i := FirstFree(e.slots, 0);
      TotalsAfterPut(e.slots, i, e1.slots[i]);
      assert forall k :: 0 <= k < |e.slots| && IsLive(e.slots[k]) ==>
        e.slots[k].requestId != rid || e.slots[k].attemptId != aid;
    }
  }

  /** Rewriting a live slot without touching its identity or its reservation. */
  lemma PutKeepsLedger(e: Engine, h: Handle, s: Slot)
    requires LedgerHolds(e) && Finds(e, h) && SlotOk(s) && IsLive(s)
    requires var was := e.slots[h.slot];
             s.requestId == was.requestId && s.attemptId == was.attemptId && Reservation(s) == Reservation(was)
    ensures LedgerHolds(Put(e, h, s))
  {
    TotalsAfterPut(e.slots, h.slot, s);
  }

  lemma ReleaseKeepsLedger(e: Engine, h: Handle)
    requires LedgerHolds(e)
    ensures LedgerHolds(ReleaseSlot(e, h).0)
    ensures ReleaseSlot(e, h).1.ReleasedTokens? ==>
              && ReleaseSlot(e, h).0.reserved + ReleaseSlot(e, h).1.tokens == e.reserved
              && ReleaseSlot(e, h).0.active + 1 == e.active
  {
    if Finds(e, h) && e.slots[h.slot].lifecycle == Terminal {
      TotalsAfterPut(e.slots, h.slot, FreeSlot(e.slots[h.slot].generation));
      FullMeansNoneFree(e.slots);
    }
  }

  lemma PerformKeepsLedger(e: Engine, op: Op)
    requires LedgerHolds(e)
    ensures LedgerHolds(Perform(e, op)) && |Perform(e, op).slots| == |e.slots|
  {
    match op
    case DoAdmit(rid, aid, p, b) => AdmitKeepsLedger(e, rid, aid, p, b);
    case DoRelease(h) => ReleaseKeepsLedger(e, h);
    case DoNext =>
    case _ =>
      var h := op.handle;
      if Perform(e, op) != e { PutKeepsLedger(e, h, Perform(e, op).slots[h.slot]); }
  }

  function PerformAll(e: Engine, ops: seq<Op>): Engine
    requires LedgerHolds(e)
    decreases |ops|
  {
    if ops == [] then e
    else
      PerformKeepsLedger(e, ops[0]);
      PerformAll(Perform(e, ops[0]), ops[1..])
  }

  function NewEngine(maxSequences: nat, capacity: nat): Engine {
    Engine(seq(maxSequences, _ => FreeSlot(0)), capacity, 0, 0, 0)
  }

  lemma {:induction false} FreshTotals(slots: seq<Slot>)
    requires forall i :: 0 <= i < |slots| ==> !IsLive(slots[i])
    ensures TotalOwed(slots) == 0 && LiveCount(slots) == 0
    decreases |slots|
  {
    if slots != [] { FreshTotals(slots[..|slots| - 1]); }
  }

  lemma NewEngineLedger(maxSequences: nat, capacity: nat)
    requires 0 < maxSequences <= SIZE_MAX && 0 < capacity <= SIZE_MAX
    ensures LedgerHolds(NewEngine(maxSequences, capacity))
  {
    FreshTotals(NewEngine(maxSequences, capacity).slots);
  }

  /** In every reachable state the two counters are the sum and the count over live slots,
      within capacity, and live slots carry distinct request/attempt pairs. */
  lemma {:induction false} RunKeepsLedger(e: Engine, ops: seq<Op>)
    requires LedgerHolds(e)
    ensures LedgerHolds(PerformAll(e, ops)) && |PerformAll(e, ops).slots| == |e.slots|
    decreases |ops|
  {
    if ops != [] {
      PerformKeepsLedger(e, ops[0]);
      RunKeepsLedger(Perform(e, ops[0]), ops[1..]);
    }
  }

  // ----- released handles -----

  /** The handle's slot has moved past it: released at its generation, or reused since. */
  predicate Retired(e: Engine, h: Handle) {
    0 <= h.slot < |e.slots| ==>
      || e.slots[h.slot].generation > h.generation
      || (e.slots[h.slot].generation == h.generation && !IsLive(e.slots[h.slot]))
  }

  lemma ReleaseRetires(e: Engine, h: Handle)
    requires ReleaseSlot(e, h).1.ReleasedTokens?
    ensures Retired(ReleaseSlot(e, h).0, h) && Generation(ReleaseSlot(e, h).0, h) == h.generation
  {
  }

  function Generation(e: Engine, h: Handle): nat {
    if 0 <= h.slot < |e.slots| then e.slots[h.slot].generation else 0
  }

  lemma PerformKeepsRetired(e: Engine, op: Op, h: Handle)
    requires LedgerHolds(e) && Retired(e, h) && Generation(e, h) < SIZE_MAX
    ensures Retired(Perform(e, op), h)
    ensures Generation(Perform(e, op), h) <= Generation(e, h) + 1
  {
  }

  /** A handle its slot has moved past stays so as long as the slot's generation cannot wrap:
      after any further operations it matches nothing, and every operation given it leaves
      the engine unchanged. */
  lemma {:induction false} RetiredForever(e: Engine, ops: seq<Op>, h: Handle, tokens: nat, reason: FinishReason)
    requires LedgerHolds(e) && Retired(e, h) && Generation(e, h) + |ops| <= SIZE_MAX
    ensures var e1 := PerformAll(e, ops);
            && Retired(e1, h) && !Finds(e1, h)
            && StartPrefill(e1, h) == (e1, StaleHandle)
            && AdvancePrefill(e1, h, tokens) == (e1, StaleHandle)
            && AdvanceDecode(e1, h, tokens) == (e1, StaleHandle)
            && Finish(e1, h, reason) == (e1, StaleHandle)
            && Cancel(e1, h) == (e1, StaleHandle)
            && ReleaseSlot(e1, h).0 == e1 && !ReleaseSlot(e1, h).1.ReleasedTokens?
    decreases |ops|
  {
    if ops != [] {
      PerformKeepsLedger(e, ops[0]);
      PerformKeepsRetired(e, ops[0], h);
      RetiredForever(Perform(e, ops[0]), ops[1..], h, tokens, reason);
    }
  }

  /** So a handle is dead from its release on: once `release` has freed it, absent generation
      wrap, no later operation lets it match again, and whatever is done with it changes
      nothing. */
  lemma ReleasedForever(e: Engine, h: Handle, ops: seq<Op>, tokens: nat, reason: FinishReason)
    requires LedgerHolds(e) && ReleaseSlot(e, h).1.ReleasedTokens? && h.generation + |ops| <= SIZE_MAX
    ensures LedgerHolds(ReleaseSlot(e, h).0)
    ensures var e1 := PerformAll(ReleaseSlot(e, h).0, ops);
            && !Finds(e1, h)
            && StartPrefill(e1, h) == (e1, StaleHandle)
            && AdvancePrefill(e1, h, tokens) == (e1, StaleHandle)
            && AdvanceDecode(e1, h, tokens) == (e1, StaleHandle)
            && Finish(e1, h, reason) == (e1, StaleHandle)
            && Cancel(e1, h) == (e1, StaleHandle)
            && ReleaseSlot(e1, h).0 == e1 && !ReleaseSlot(e1, h).1.ReleasedTokens?
  {
    hide LedgerHolds;
    hide PerformAll;
    ReleaseKeepsLedger(e, h);
    ReleaseRetires(e, h);
    RetiredForever(ReleaseSlot(e, h).0, ops, h, tokens, reason);
  }

  // ----- round robin -----

  /** How many places the cursor has to move to reach slot `s`. */
  function Distance(cursor: nat, s: nat, n: nat): nat
    requires cursor < n && s < n
  {
    if s >= cursor then s - cursor else s + n - cursor
  }

  /** The slots handed out by the `next_runnable` calls of a run, in order. */
  function Turns(e: Engine, ops: seq<Op>): seq<nat>
    requires LedgerHolds(e)
    decreases |ops|
  {
    if ops == [] then []
    else
      PerformKeepsLedger(e, ops[0]);
      var rest := Turns(Perform(e, ops[0]), ops[1..]);
      if ops[0].DoNext? && NextRunnable(e).1.Turn? then [NextRunnable(e).1.handle.slot] + rest else rest
  }

  function CallsToNext(ops: seq<Op>): nat
    decreases |ops|
  {
    if ops == [] then 0 else (if ops[0].DoNext? then 1 else 0) + CallsToNext(ops[1..])
  }

  /** Slot `s` can run whenever the run asks for the next runnable slot. */
  predicate RunnableThroughout(e: Engine, ops: seq<Op>, s: nat)
    requires LedgerHolds(e) && s < |e.slots|
    decreases |ops|
  {
    ops == [] ||
    (PerformKeepsLedger(e, ops[0]);
     (ops[0].DoNext? ==> Runnable(e.slots[s])) && RunnableThroughout(Perform(e, ops[0]), ops[1..], s))
  }

  predicate AllDistinct(s: seq<nat>) { forall i, j :: 0 <= i < j < |s| ==> s[i] != s[j] }

  lemma CursorInRange(e: Engine)
    requires LedgerHolds(e)
    ensures e.cursor < |e.slots|
  {
  }

  lemma NextIsPerformed(e: Engine)
    requires LedgerHolds(e)
    ensures Perform(e, DoNext) == NextRunnable(e).0
  {
  }

  lemma NextComesCloser(e: Engine, s: nat)
    requires LedgerHolds(e) && s < |e.slots| && Runnable(e.slots[s])
    ensures var n := |e.slots|; var (e1, t) := NextRunnable(e);
            && t.Turn? && 0 <= t.handle.slot < n && e1.slots == e.slots && e1.cursor < n
            && Distance(e.cursor, t.handle.slot, n) <= Distance(e.cursor, s, n)
            && (t.handle.slot != s ==> Distance(e1.cursor, s, n) + Distance(e.cursor, t.handle.slot, n) + 1 == Distance(e.cursor, s, n))
  {
    var n := |e.slots|;
    assert At(e.cursor, Distance(e.cursor, s, n), n) == s;
  }

  lemma OthersKeepCursor(e: Engine, op: Op)
    requires LedgerHolds(e) && !op.DoNext?
    ensures Perform(e, op).cursor == e.cursor
  {
  }

  /** A slot that stays runnable waits for fewer than `max_sequences` calls, whatever other
      operations come between, and until its turn no other slot is handed out twice. */
  lemma {:induction false} BoundedWait(e: Engine, ops: seq<Op>, s: nat)
    requires LedgerHolds(e) && s < |e.slots| && RunnableThroughout(e, ops, s) && s !in Turns(e, ops)
    ensures CallsToNext(ops) == |Turns(e, ops)| <= Distance(e.cursor, s, |e.slots|) < |e.slots|
    ensures AllDistinct(Turns(e, ops))
    ensures forall t :: t in Turns(e, ops) ==> t < |e.slots| && Distance(e.cursor, t, |e.slots|) < Distance(e.cursor, s, |e.slots|)
    decreases |ops|
  {
    hide LedgerHolds;
    hide Perform;
    if ops != [] {
      var n := |e.slots|;
      PerformKeepsLedger(e, ops[0]);
      CursorInRange(e);
      var e1 := Perform(e, ops[0]);
      var rest := Turns(e1, ops[1..]);
      if ops[0].DoNext? {
        NextComesCloser(e, s);
        assert e1 == NextRunnable(e).0 by { NextIsPerformed(e); }
        var t := NextRunnable(e).1.handle.slot;
        assert Turns(e, ops) == [t] + rest;
        BoundedWait(e1, ops[1..], s);
        forall u | u in rest
          ensures u < n && Distance(e.cursor, t, n) < Distance(e.cursor, u, n) < Distance(e.cursor, s, n)
        {
        }
      } else {
        OthersKeepCursor(e, ops[0]);
        assert Turns(e, ops) == rest;
        BoundedWait(e1, ops[1..], s);
      }
    }
  }
}

/** The allocator as an object: every method does to its fields what the function of the
    same name in `SlotEngine` does to the value. */
module SlotAllocator {
  import opened SlotEngine
  import Spec = SlotEngine

  class SequenceEngine {
    var slots: seq<Slot>
    const tokenCapacity: nat
    var reservedTokens: nat
    var activeSequences: nat
    var roundRobinCursor: nat

    ghost function View(): Engine
      reads this
    {
      Engine(slots, tokenCapacity, reservedTokens, activeSequences, roundRobinCursor)
    }

    ghost predicate Valid()
      reads this
    {
      LedgerHolds(View())
    }

    constructor (maxSequences: nat, capacity: nat)
      requires 0 < maxSequences <= 0x7FFF_FFFF && 0 < capacity <= SIZE_MAX
      ensures Valid() && View() == NewEngine(maxSequences, capacity)
    {
      slots := seq(maxSequences, _ => FreeSlot(0));
      tokenCapacity, reservedTokens, activeSequences, roundRobinCursor := capacity, 0, 0, 0;
      new;
      NewEngineLedger(maxSequences, capacity);
      assert slots == NewEngine(maxSequences, capacity).slots;
    }

    method IsDuplicate(rid: string, aid: string) returns (found: bool)
      ensures found == HasPair(slots, rid, aid)
    {
      for i := 0 to |slots|
        invariant !HasPair(slots[..i], rid, aid)
      {
        if IsLive(slots[i]) && slots[i].requestId == rid && slots[i].attemptId == aid { return true; }
      }
      assert slots[..|slots|] == slots;
      return false;
    }

    method Admit(rid: string, aid: string, prompt: nat, budget: nat) returns (r: Admission)
      requires Valid()
      modifies this
      ensures Valid() && (View(), r) == Spec.Admit(old(View()), rid, aid, prompt, budget)
    {
      AdmitKeepsLedger(View(), rid, aid, prompt, budget);
      if rid == "" || aid == "" || prompt == 0 || budget == 0 { return InvalidRequest; }
      if prompt > SIZE_MAX - budget { return InvalidRequest; }
      var taken := IsDuplicate(rid, aid);
      if taken { return Duplicate; }
      if activeSequences == |slots| { return SequenceCapacity; }
      var reservation := prompt + budget;
      if reservation > tokenCapacity - reservedTokens { return TokenCapacity; }
      var index := 0;
      while index < |slots|
        invariant index <= |slots|
        invariant FirstFree(slots, index) == FirstFree(slots, 0)
      {
        if !IsLive(slots[index]) {
          var slot := slots[index];
          var generation := if slot.generation >= SIZE_MAX then 0 else slot.generation + 1;
          if generation == 0 { generation := generation + 1; }
          slot := Slot(generation, rid, aid, Admitted, NoReason, prompt, budget, 0, 0);
          slots := slots[index := slot];
          reservedTokens := reservedTokens + reservation;
          activeSequences := activeSequences + 1;
          return AdmittedTo(HandleOf(index, slot));
        }
        index := index + 1;
      }
      return SequenceCapacity;
    }

    /** `find`: the index of the live slot a handle names. */
    method Find(h: Handle) returns (found: bool)
      ensures found == Finds(View(), h)
    {
      return 0 <= h.slot < |slots| && MatchesSlot(slots[h.slot], h);
    }

    method StartPrefill(h: Handle) returns (r: Status)
      requires Valid()
      modifies this`slots
      ensures Valid() && (View(), r) == Spec.StartPrefill(old(View()), h)
    {
      PerformKeepsLedger(View(), DoStartPrefill(h));
      var found := Find(h);
      if !found { return StaleHandle; }
      if slots[h.slot].lifecycle != Admitted { return InvalidState; }
      slots := slots[h.slot := slots[h.slot].(lifecycle := Prefill)];
      return Applied;
    }

    method AdvancePrefill(h: Handle, tokens: nat) returns (r: Status)
      requires Valid()
      modifies this`slots
      ensures Valid() && (View(), r) == Spec.AdvancePrefill(old(View()), h, tokens)
    {
      PerformKeepsLedger(View(), DoAdvancePrefill(h, tokens));
      var found := Find(h);
      if !found { return StaleHandle; }
      var slot := slots[h.slot];
      if slot.lifecycle != Prefill { return InvalidState; }
      var remaining := slot.promptTokens - slot.processed;
      if tokens == 0 || tokens > remaining { return InvalidAmount; }
      slot := slot.(processed := slot.processed + tokens);
      if slot.processed == slot.promptTokens { slot := slot.(lifecycle := Decode); }
      slots := slots[h.slot := slot];
      return Applied;
    }

    method AdvanceDecode(h: Handle, tokens: nat) returns (r: Status)
      requires Valid()
      modifies this`slots
      ensures Valid() && (View(), r) == Spec.AdvanceDecode(old(View()), h, tokens)
    {
      PerformKeepsLedger(View(), DoAdvanceDecode(h, tokens));
      var found := Find(h);
      if !found { return StaleHandle; }
      var slot := slots[h.slot];
      if slot.lifecycle != Decode { return InvalidState; }
      var remaining := slot.outputBudget - slot.decoded;
      if tokens == 0 || tokens > remaining { return InvalidAmount; }
      slots := slots[h.slot := slot.(decoded := slot.decoded + tokens)];
      return Applied;
    }

    method Finish(h: Handle, reason: FinishReason) returns (r: Status)
      requires Valid()
      modifies this`slots
      ensures Valid() && (View(), r) == Spec.Finish(old(View()), h, reason)
    {
      PerformKeepsLedger(View(), DoFinish(h, reason));
      var found := Find(h);
      if !found { return StaleHandle; }
      if slots[h.slot].lifecycle != Decode { return InvalidState; }
      if reason != Stop && reason != Length && reason != Failure { return InvalidAmount; }
      slots := slots[h.slot := slots[h.slot].(lifecycle := Terminal, reason := reason)];
      return Applied;
    }

    method Cancel(h: Handle) returns (r: Status)
      requires Valid()
      modifies this`slots
      ensures Valid() && (View(), r) == Spec.Cancel(old(View()), h)
    {
      PerformKeepsLedger(View(), DoCancel(h));
      var found := Find(h);
      if !found { return StaleHandle; }
      var slot := slots[h.slot];
      if slot.lifecycle != Admitted && slot.lifecycle != Prefill && slot.lifecycle != Decode { return InvalidState; }
      slots := slots[h.slot := slot.(lifecycle := Terminal, reason := Cancelled)];
      return Applied;
    }

    method Release(h: Handle) returns (r: Release)
      requires Valid()
      modifies this
      ensures Valid() && (View(), r) == ReleaseSlot(old(View()), h)
    {
      ReleaseKeepsLedger(View(), h);
      var found := Find(h);
      if !found {
        if 0 <= h.slot < |slots| && slots[h.slot].generation == h.generation && !IsLive(slots[h.slot]) {
          return AlreadyReleased;
        }
        return StaleRelease;
      }
      var slot := slots[h.slot];
      if slot.lifecycle != Terminal { return NotTerminal; }
      var released := Reservation(slot);
      reservedTokens := SizeMinus(reservedTokens, released);
      activeSequences := SizeMinus(activeSequences, 1);
      slots := slots[h.slot := FreeSlot(slot.generation)];
      return ReleasedTokens(released);
    }

    /** The scan from the cursor: how far the first runnable slot is, or the number of slots. */
    method Scan() returns (offset: nat)
      requires roundRobinCursor < |slots|
      ensures offset == FirstRunnable(slots, roundRobinCursor, 0)
    {
      var n := |slots|;
      offset := 0;
      while offset < n
        invariant offset <= n
        invariant FirstRunnable(slots, roundRobinCursor, offset) == FirstRunnable(slots, roundRobinCursor, 0)
      {
        var index := (roundRobinCursor + offset) % n;
        ModuloIsAt(roundRobinCursor, offset, n);
        if Runnable(slots[index]) { return; }
        offset := offset + 1;
      }
    }

    method NextRunnable() returns (t: Turn)
      requires Valid()
      modifies this`roundRobinCursor
      ensures Valid() && (View(), t) == Spec.NextRunnable(old(View()))
    {
      CursorInRange(View());
      PerformKeepsLedger(View(), DoNext);
      NextIsPerformed(View());
      hide LedgerHolds;
      hide Perform;
      hide FirstRunnable;
      var n := |slots|;
      var offset := Scan();
      if offset == n { return NoTurn; }
      var index := (roundRobinCursor + offset) % n;
      ModuloIsAt(roundRobinCursor, offset, n);
      ModuloIsAt(index, 1, n);
      roundRobinCursor := (index + 1) % n;
      return Turn(HandleOf(index, slots[index]));
    }

    static lemma ModuloIsAt(cursor: nat, offset: nat, n: nat)
      requires cursor < n && offset <= n
      ensures (cursor + offset) % n == if cursor + offset < n then cursor + offset else cursor + offset - n
    {
      var sum := cursor + offset;
      if sum >= n {
        assert sum % n == (sum - n) % n;
      }
    }
  }
}
