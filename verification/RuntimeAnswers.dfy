/** How far a prefill step of the native runtime goes, what it offers the prompt cache, and from
    where a sequence opens. */
module RuntimeAnswers {
  import opened Basics
  import opened KvMemory
  import opened Generation
  import opened NativeRuntime
  import opened RuntimeSteps
  import opened PromptCacheAnswers
  import E = SlotEngine
  import C = PromptCache
  import P = PhaseController

  // ----- how far a step goes -----

  /** Prompts are offered to the cache at every 64 tokens. */
  predicate OnCheckpoint(p: nat) { p % 64 == 0 }

  predicate StillToCommit(s: Sequence) { s.request.session.Some? && s.request.session.value.commit && s.committed.None? }

  /** May a step account for `n` tokens? Not beyond its budget, the prompt, or what has to be
      offered to the cache first: the session prefix still to commit, or a checkpoint. */
  predicate MayAccount(s: Sequence, budget: nat, n: nat) {
    && n <= budget && s.logical + n <= |s.request.job.prompt|
    && (s.identity.Some? && StillToCommit(s) && s.physical < |s.request.sessionPrefix| ==> s.physical + n <= |s.request.sessionPrefix|)
    && (s.identity.Some? && s.request.session.None? ==> forall p: nat :: s.physical < p < s.physical + n ==> !OnCheckpoint(p))
  }

  /** A step accounts for as many tokens as it may, and decodes all of them but the prompt's
      last. */
  lemma StepIsLargest(s: Sequence, budget: nat)
    requires s.logical == s.physical < |s.request.job.prompt|
    ensures MayAccount(s, budget, LogicalStep(s, budget))
    ensures forall n: nat :: MayAccount(s, budget, n) ==> n <= LogicalStep(s, budget)
    ensures var (prompt, end) := (s.request.job.prompt, s.logical + LogicalStep(s, budget));
            PhysicalStep(s, budget) == if end == |prompt| then |prompt| - 1 - s.physical else LogicalStep(s, budget)
  {
    var c := 64 - s.physical % 64;
    NextCheckpoint(s.physical);
    if s.identity.Some? && s.request.session.None? {
      forall n: nat | MayAccount(s, budget, n)
        ensures n <= c
      {
        var at: nat := s.physical + c;
        assert n <= c || !OnCheckpoint(at);
      }
    }
  }

  lemma NextCheckpoint(at: nat)
    ensures var c := 64 - at % 64; OnCheckpoint(at + c) && forall p: nat :: at < p < at + c ==> !OnCheckpoint(p)
  {
    forall p: nat | at < p < at + (64 - at % 64)
      ensures !OnCheckpoint(p)
    {
      assert p / 64 == at / 64;
    }
  }

  // ----- what it offers -----

  /** After a step the cache is offered the session prefix, once, when the memory is exactly that
      far; without a session, the prompt up to where the memory is. */
  ghost predicate Offers(rt: Runtime, step: Step, s: Sequence, rt1: Runtime, ok: bool)
    requires Shape(rt) && step.slot < |rt.seqs| && s.physical <= |s.request.job.prompt|
  {
    var (i, q) := (step.slot, s.request);
    if s.identity.Some? && StillToCommit(s) && s.physical == |q.sessionPrefix| then
      exists r ::
        && StoreSessionAnswers(rt.cache, s.identity.value, q.session.value.id, q.session.value.parent, q.requestId, q.sessionPrefix,
                               rt.kv[i], step.now, step.snapshot, rt1.cache, r)
        && (ok <==> r.Some?) && rt1.engine == rt.engine && rt1.kv == rt.kv
        && rt1.seqs == if r.Some? then rt.seqs[i := Some(s.(committed := Some(r.value.generation)))] else rt.seqs
    else if s.identity.Some? && q.session.None? && s.physical > 0 then
      && ok && rt1 == rt.(cache := rt1.cache)
      && exists stored :: StoreAnswers(rt.cache, s.identity.value, q.job.prompt[..s.physical], rt.kv[i], step.now, step.snapshot, rt1.cache, stored)
    else ok && rt1 == rt
  }

  lemma OffersExactly(rt: Runtime, step: Step)
    requires Shape(rt) && C.WellKept(rt.cache) && step.slot < |rt.seqs| && rt.seqs[step.slot].Some?
    requires rt.seqs[step.slot].value.physical <= |rt.seqs[step.slot].value.request.job.prompt|
    ensures var (rt1, ok) := Checkpoint(rt, step); Offers(rt, step, rt.seqs[step.slot].value, rt1, ok)
  {
    hide C.WellKept;
    hide StoreAnswers;
    hide StoreSessionAnswers;
    hide C.Store;
    hide C.StoreSession;
    var i := step.slot;
    var s := rt.seqs[i].value;
    var q := s.request;
    if s.identity.Some? {
      if q.session.Some? {
        StoreSessionExactly(rt.cache, s.identity.value, q.session.value.id, q.session.value.parent, q.requestId, q.sessionPrefix,
                            rt.kv[i], step.now, step.snapshot);
        if StillToCommit(s) && s.physical == |q.sessionPrefix| {
          var (cache, r) := C.StoreSession(rt.cache, s.identity.value, q.session.value.id, q.session.value.parent, q.requestId,
                                           q.sessionPrefix, rt.kv[i], step.now, step.snapshot);
          assert Checkpoint(rt, step).0.cache == cache && (Checkpoint(rt, step).1 <==> r.Some?);
          assert StoreSessionAnswers(rt.cache, s.identity.value, q.session.value.id, q.session.value.parent, q.requestId,
                                     q.sessionPrefix, rt.kv[i], step.now, step.snapshot, Checkpoint(rt, step).0.cache, r);
        }
      } else {
        StoreExactly(rt.cache, s.identity.value, q.job.prompt[..s.physical], rt.kv[i], step.now, step.snapshot);
      }
    }
  }

  // ----- from where a sequence opens -----

  /** What the cache answers an opening: the parent generation that was named, and otherwise the
      longest prefix. */
  ghost predicate Finds(c: C.Cache, identity: string, q: Request, now: int, copies: bool, c1: C.Cache, found: Option<C.Entry>) {
    if q.session.Some? && q.session.value.parent.Some?
    then RestoreSessionAnswers(c, identity, q.session.value.id, q.session.value.parent.value, q.job.prompt, now, copies, c1, found)
    else RestoreAnswers(c, identity, q.job.prompt, now, copies, c1, found)
  }

  /** A sequence opens from what the cache finds: with that many tokens of its prompt and their
      memory; from nothing if it finds none, unless a parent was named: then it is refused, and
      its slot is free again. */
  ghost predicate OpensFrom(rt: Runtime, i: nat, now: int, copies: bool, rt1: Runtime, r: OpenResult)
    requires i < |rt.seqs| && rt.seqs[i].Some?
  {
    var s := rt.seqs[i].value;
    if s.identity.None? then rt1 == rt && r == Opened(s.handle)
    else exists found ::
      && Finds(rt.cache, s.identity.value, s.request, now, copies, rt1.cache, found)
      && i < |rt1.seqs| == |rt.seqs| == |rt1.kv| && i < |rt1.engine.slots|
      && if found.Some? then
           var n := |found.value.tokens|;
           && n < |s.request.job.prompt| && r == Opened(s.handle)
           && rt1.seqs == rt.seqs[i := Some(s.(logical := n, physical := n, nPast := n))]
           && rt1.kv[i] == Cells(s.request.job.prompt[..n]) && rt1.engine.slots[i].processed == n
         else if s.request.session.Some? && s.request.session.value.parent.Some? then
           r == Refused("session_snapshot_missing") && rt1.seqs == rt.seqs[i := None] && !E.IsLive(rt1.engine.slots[i])
         else r == Opened(s.handle) && rt1 == rt.(cache := rt1.cache)
  }

  lemma FindsExactly(c: C.Cache, identity: string, q: Request, now: int, copies: bool)
    requires C.WellKept(c)
    ensures var (c1, found) := LookUp(c, identity, q, now, copies); Finds(c, identity, q, now, copies, c1, found)
  {
    hide C.WellKept;
    hide RestoreSessionAnswers;
    hide RestoreAnswers;
    hide C.Restore;
    hide C.RestoreSession;
    if q.session.Some? && q.session.value.parent.Some? {
      RestoreSessionExactly(c, identity, q.session.value.id, q.session.value.parent.value, q.job.prompt, now, copies);
    } else {
      RestoreExactly(c, identity, q.job.prompt, now, copies);
    }
  }

  lemma OpensExactly(m: Model, rt: Runtime, i: nat, now: int, copies: bool)
    requires RuntimeOk(m, rt) && i < |rt.seqs| && rt.seqs[i].Some?
    requires rt.engine.slots[i].lifecycle == E.Prefill && rt.engine.slots[i].processed == 0
    ensures var (rt1, r) := OpenRestore(rt, i, now, copies); OpensFrom(rt, i, now, copies, rt1, r)
  {
    hide LookUp;
    hide Finds;
    hide C.WellKept;
    hide E.LedgerHolds;
    var s := rt.seqs[i].value;
    assert LaneOk(m, i, LaneAt(rt, i)) && E.Finds(rt.engine, s.handle);
    if s.identity.Some? {
      FindsExactly(rt.cache, s.identity.value, s.request, now, copies);
      LookUpOk(rt.cache, s.identity.value, s.request, now, copies);
      CancelRelease(rt.engine, s.handle);
      var (cache, found) := LookUp(rt.cache, s.identity.value, s.request, now, copies);
      if found.Some? { assert found.value.tokens == s.request.job.prompt[..|found.value.tokens|]; }
      hide LaneOk;
    }
  }

  // ----- which requests open -----

  /** What is asked of a request itself. */
  predicate Openable(m: Model, st: Settings, cacheEnabled: bool, q: Request) {
    var (job, n) := (q.job, |q.job.prompt|);
    && q.requestId != "" && q.attemptId != ""
    && job.totalTokens > 0 && job.reasoningTokens > 0 && job.finalTokens > 0
    && job.reasoningTokens <= job.totalTokens && job.finalTokens <= job.totalTokens <= job.reasoningTokens + job.finalTokens
    && m.startMarker != [] && m.endMarker != [] && m.startMarker != m.endMarker
    && n > 0 && n + job.totalTokens + 8 <= st.sequenceContext
    && (q.session.Some? ==>
          && cacheEnabled && q.scope.Some? && q.privateScope
          && 0 < |q.sessionPrefix| < n && job.prompt[..|q.sessionPrefix|] == q.sessionPrefix)
  }

  lemma {:induction false} OpenableExactly(m: Model, st: Settings, cacheEnabled: bool, q: Request)
    ensures Refusal(m, st, cacheEnabled, q).None? <==> Openable(m, st, cacheEnabled, q)
  {
    if q.session.Some? { assert SessionPrefixOk(q) <==> 0 < |q.sessionPrefix| < |q.job.prompt| && q.job.prompt[..|q.sessionPrefix|] == q.sessionPrefix; }
    assert P.ValidConfig(PhaseConfig(m, q.job)) <==>
        && m.startMarker != [] && m.endMarker != [] && m.startMarker != m.endMarker
        && q.job.reasoningTokens <= q.job.totalTokens && q.job.finalTokens <= q.job.totalTokens
        && q.job.totalTokens <= q.job.reasoningTokens + q.job.finalTokens;
    hide P.ValidConfig;
    hide SessionPrefixOk;
  }

  /** A new root has its session to itself, and a child finds its parent. */
  ghost predicate SessionAllows(rt: Runtime, q: Request, now: int, copies: bool) {
    q.session.Some? && q.scope.Some? ==>
      var (session, live) := (q.session.value, Live(rt.cache, now));
      match session.parent
      case None => !exists e :: e in live && InSession(e, q.scope.value, session.id) && e.commitKey != q.requestId
      case Some(g) =>
        copies && exists k :: && 0 <= k < |live| && InSession(live[k], q.scope.value, session.id)
                              && live[k].generation == g && PromptCacheAnswers.Extends(q.job.prompt, live[k].tokens)
  }

  /** The engine has a slot and the tokens to spare, and does not have the request already. */
  ghost predicate EngineHasRoom(e: E.Engine, q: Request) {
    && (exists i :: 0 <= i < |e.slots| && e.slots[i].lifecycle.Released?)
    && E.TotalOwed(e.slots) + |q.job.prompt| + q.job.totalTokens <= e.capacity
    && |q.job.prompt| + q.job.totalTokens <= E.SIZE_MAX
    && !exists i :: 0 <= i < |e.slots| && !e.slots[i].lifecycle.Released? && e.slots[i].requestId == q.requestId && e.slots[i].attemptId == q.attemptId
  }

  /** A request opens exactly if it is openable, its session allows it and the engine has room. */
  lemma {:induction false} OpenTakenExactly(m: Model, st: Settings, rt: Runtime, q: Request, now: int, copies: bool)
    requires RuntimeOk(m, rt)
    ensures Shape(rt)
    ensures Open(m, st, rt, q, now, copies).1.Opened? <==>
              Openable(m, st, rt.cache.enabled, q) && SessionAllows(rt, q, now, copies) && EngineHasRoom(rt.engine, q)
  {
    hide C.WellKept;
    hide LaneOk;
    hide OpenAdmit;
    hide OpenRestore;
    hide Refusal;
    hide Live;
    hide E.LedgerHolds;
    OpenableExactly(m, st, rt.cache.enabled, q);
    if Openable(m, st, rt.cache.enabled, q) {
      RefusalNone(m, st, rt, q);
      var identity := Identity(rt, q);
      var root := q.session.Some? && q.session.value.parent.None?;
      C.PruneKeeps(rt.cache, now, 0);
      var rt1 := if root && identity.Some? then rt.(cache := C.Prune(rt.cache, now)) else rt;
      if root { RootAllowedExactly(rt.cache, identity.value, q.session.value.id, q.requestId, now); }
      CacheSwapOk(m, rt, C.Prune(rt.cache, now));
      hide C.Prune;
      AdmitsExactly(m, rt1, q, identity);
      OpenAdmitOk(m, rt1, q, identity);
      var (rt2, r) := OpenAdmit(m, rt1, q, identity);
      if r.Opened? {
        AdmitKeepsCache(m, rt1, q, identity);
        RestoresExactly(m, rt2, r.handle.slot, q, identity, now, copies);
      }
    }
  }

  lemma {:induction false} RefusalNone(m: Model, st: Settings, rt: Runtime, q: Request)
    requires Openable(m, st, rt.cache.enabled, q)
    ensures RequestOk(m, q) && (q.session.Some? ==> Identity(rt, q) == q.scope && q.scope.Some?)
  {
    if q.session.Some? { assert q.sessionPrefix <= q.job.prompt; }
  }

  lemma {:induction false} AdmitsExactly(m: Model, rt: Runtime, q: Request, identity: Option<string>)
    requires RuntimeOk(m, rt) && RequestOk(m, q) && q.requestId != "" && q.attemptId != ""
    ensures OpenAdmit(m, rt, q, identity).1.Opened? <==> EngineHasRoom(rt.engine, q)
  {
    hide C.WellKept;
    hide LaneOk;
    E.AdmitIsExact(rt.engine, q.requestId, q.attemptId, |q.job.prompt|, q.job.totalTokens);
    AdmitAndStart(rt.engine, q.requestId, q.attemptId, |q.job.prompt|, q.job.totalTokens);
    hide E.Admit;
    hide E.StartPrefill;
    hide E.LedgerHolds;
  }

  lemma {:induction false} AdmitKeepsCache(m: Model, rt: Runtime, q: Request, identity: Option<string>)
    requires Shape(rt) && q.job.prompt != []
    ensures OpenAdmit(m, rt, q, identity).0.cache == rt.cache
  {
    hide E.Admit;
    hide E.StartPrefill;
  }

  lemma {:induction false} RestoresExactly(m: Model, rt: Runtime, i: nat, q: Request, identity: Option<string>, now: int, copies: bool)
    requires RuntimeOk(m, rt) && i < |rt.seqs| && rt.seqs[i].Some? && rt.seqs[i].value.request == q && rt.seqs[i].value.identity == identity
    requires rt.engine.slots[i].lifecycle == E.Prefill && rt.engine.slots[i].processed == 0
    requires q.session.Some? ==> identity == q.scope && q.scope.Some? && rt.cache.enabled && |q.job.prompt| > 1
    ensures OpenRestore(rt, i, now, copies).1.Opened? <==>
              (q.session.Some? && q.session.value.parent.Some? ==> SessionAllows(rt, q, now, copies))
  {
    OpensExactly(m, rt, i, now, copies);
    hide OpenRestore;
    hide RuntimeOk;
    hide Live;
    hide RestoreAnswers;
  }
}
