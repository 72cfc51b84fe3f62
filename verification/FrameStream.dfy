module FrameStream {
  // The frames of one job: the producer (native/model_worker_main.cpp) against the protocol
  // verifier (model_worker/ipc.py). What the model, the vocabulary, the clock and the control
  // channel do at each turn of the loop is an input.

  import opened Basics
  import U = Utf8
  import P = PhaseController

  type Bytes = seq<U.Byte>

  datatype Body =
    | Ready | Started | PhaseIs(name: string) | FinalDelta(delta: Bytes) | Progress(phase: string, tokens: int)
    | Heartbeat(sampled: int) | Completed(text: Bytes) | Failed(error: string, detail: string)

  datatype Frame = Frame(requestId: string, attemptId: string, sequence: nat, body: Body)

  // ----- the verifier -----

  datatype Verifier = Verifier(requestId: string, attemptId: string, nextSequence: nat, started: bool, finalPhase: bool, terminal: bool)

  function NewVerifier(rid: string, aid: string): Verifier { Verifier(rid, aid, 0, false, false, false) }

  predicate PayloadOk(b: Body) {
    match b
    case Ready => false
    case PhaseIs(name) => name == "final"
    case FinalDelta(delta) => delta != []
    case Progress(phase, tokens) => (phase == "prompt_decode" || phase == "reasoning" || phase == "final") && tokens >= 0
    case Heartbeat(sampled) => sampled >= 0
    case _ => true
  }

  predicate IsTerminal(b: Body) { b.Completed? || b.Failed? }

  /** `_verify_request_frame`; None: it raises. */
  function VerifyBody(v: Verifier, b: Body): Option<Verifier> {
    if b.Ready? then None
    else if v.terminal then None
    else if !v.started then if b.Started? then Some(v.(started := true)) else None
    else match b
      case Started => None
      case PhaseIs(name) => if name != "final" || v.finalPhase then None else Some(v.(finalPhase := true))
      case FinalDelta(delta) => if !v.finalPhase || delta == [] then None else Some(v)
      case Progress(_, _) => if PayloadOk(b) then Some(v) else None
      case Heartbeat(sampled) => if sampled < 0 then None else Some(v)
      case Completed(_) => if !v.finalPhase then None else Some(v.(terminal := true))
      case Failed(_, _) => Some(v.(terminal := true))
  }

  function VerifyFrame(v: Verifier, f: Frame): Option<Verifier> {
    if f.requestId != v.requestId || f.attemptId != v.attemptId then None
    else if f.sequence != v.nextSequence then None
    else
      var r := VerifyBody(v, f.body);
      if r.None? then None else Some(r.value.(nextSequence := v.nextSequence + 1))
  }

  function VerifyAll(v: Verifier, frames: seq<Frame>): Option<Verifier>
    decreases |frames|
  {
    if frames == [] then Some(v)
    else
      var before := VerifyAll(v, frames[..|frames| - 1]);
      if before.None? then None else VerifyFrame(before.value, frames[|frames| - 1])
  }

  class FrameVerifier {
    const requestId: string
    const attemptId: string
    var nextSequence: nat
    var started: bool
    var finalPhase: bool
    var terminal: bool

    function View(): Verifier
      reads this
    {
      Verifier(requestId, attemptId, nextSequence, started, finalPhase, terminal)
    }

    constructor (rid: string, aid: string)
      ensures View() == NewVerifier(rid, aid)
    {
      requestId, attemptId, nextSequence := rid, aid, 0;
      started, finalPhase, terminal := false, false, false;
    }

    /** Accepts the frame and moves on, or refuses it and stays. */
    method Verify(f: Frame) returns (ok: bool)
      modifies this
      ensures ok == VerifyFrame(old(View()), f).Some?
      ensures View() == if ok then VerifyFrame(old(View()), f).value else old(View())
    {
      if f.requestId != requestId || f.attemptId != attemptId { return false; }
      if f.sequence != nextSequence { return false; }
      if f.body.Ready? || terminal { return false; }
      if !started {
        if !f.body.Started? { return false; }
        started := true;
      } else {
        match f.body {
          case Started => return false;
          case PhaseIs(name) =>
            if name != "final" || finalPhase { return false; }
            finalPhase := true;
          case FinalDelta(delta) => if !finalPhase || delta == [] { return false; }
          case Progress(phase, tokens) =>
            if (phase != "prompt_decode" && phase != "reasoning" && phase != "final") || tokens < 0 { return false; }
          case Heartbeat(sampled) => if sampled < 0 { return false; }
          case Completed(_) =>
            if !finalPhase { return false; }
            terminal := true;
          case Failed(_, _) => terminal := true;
        }
      }
      nextSequence := nextSequence + 1;
      return true;
    }
  }

  // ----- what the verifier accepts -----

  predicate HasPhase(frames: seq<Frame>) { exists k :: 0 <= k < |frames| && frames[k].body.PhaseIs? }
  predicate HasTerminal(frames: seq<Frame>) { exists k :: 0 <= k < |frames| && IsTerminal(frames[k].body) }

  /** The frame at place `k` may stand there. */
  predicate FrameOk(rid: string, aid: string, frames: seq<Frame>, k: nat)
    requires k < |frames|
  {
    var f := frames[k];
    && f.requestId == rid && f.attemptId == aid && f.sequence == k && PayloadOk(f.body)
    && (f.body.Started? <==> k == 0)
    && (f.body.PhaseIs? ==> !HasPhase(frames[..k]))
    && (f.body.FinalDelta? || f.body.Completed? ==> HasPhase(frames[..k]))
    && !HasTerminal(frames[..k])
  }

  /** The protocol: contiguous sequence numbers, one started frame, first; at most one phase
      frame, before any delta and any completion; nothing after a terminal frame. */
  predicate Conforming(rid: string, aid: string, frames: seq<Frame>) {
    forall k :: 0 <= k < |frames| ==> FrameOk(rid, aid, frames, k)
  }

  lemma {:induction false} ConformingGrows(rid: string, aid: string, frames: seq<Frame>)
    requires frames != []
    ensures Conforming(rid, aid, frames) <==>
              Conforming(rid, aid, frames[..|frames| - 1]) && FrameOk(rid, aid, frames, |frames| - 1)
  {
    var init := frames[..|frames| - 1];
    forall k | 0 <= k < |init|
      ensures FrameOk(rid, aid, init, k) <==> FrameOk(rid, aid, frames, k)
    {
      assert init[..k] == frames[..k];
    }
  }

  lemma {:induction false} MarksGrow(frames: seq<Frame>)
    requires frames != []
    ensures HasPhase(frames) <==> HasPhase(frames[..|frames| - 1]) || frames[|frames| - 1].body.PhaseIs?
    ensures HasTerminal(frames) <==> HasTerminal(frames[..|frames| - 1]) || IsTerminal(frames[|frames| - 1].body)
  {
    var init := frames[..|frames| - 1];
    assert forall k :: 0 <= k < |init| ==> init[k] == frames[k];
    assert frames[|frames| - 1].body.PhaseIs? ==> HasPhase(frames);
  }

  /** The verifier accepts exactly the traces the protocol allows, and then knows where in the
      protocol it is. */
  lemma {:induction false} VerifierIsExact(rid: string, aid: string, frames: seq<Frame>)
    ensures VerifyAll(NewVerifier(rid, aid), frames).Some? <==> Conforming(rid, aid, frames)
    ensures Conforming(rid, aid, frames) ==>
              VerifyAll(NewVerifier(rid, aid), frames) ==
                Some(Verifier(rid, aid, |frames|, frames != [], HasPhase(frames), HasTerminal(frames)))
    decreases |frames|
  {
    if frames != [] {
      var n := |frames| - 1;
      VerifierIsExact(rid, aid, frames[..n]);
      ConformingGrows(rid, aid, frames);
      MarksGrow(frames);
      hide Conforming;
      hide HasPhase;
      hide HasTerminal;
    }
  }

  // ----- the producer -----

  /** One prompt batch: decoded, or the worker throws (cancelled, decode failed). */
  datatype PromptTurn = Decodes(count: nat) | PromptThrows(message: string)

  /** One turn of the generation loop: the worker throws, or a token is sampled, with its text
      and whether a heartbeat is due afterwards. */
  datatype Turn = TurnThrows(message: string) | Samples(token: Token, eog: bool, piece: Bytes, heartbeatDue: bool)

  /** `turns` answers for every turn the loop may ask for. `setup` and `begin` are the messages
      thrown before the prompt and between prompt and loop, if any. */
  datatype Job = Job(
    requestId: string, attemptId: string, config: P.Config,
    setup: Option<string>, prompt: seq<PromptTurn>, begin: Option<string>, turns: nat -> Turn)

  datatype Outcome = Finished(text: Bytes) | Thrown(message: string)

  function Emitted(job: Job, frames: seq<Frame>, b: Body): seq<Frame> {
    frames + [Frame(job.requestId, job.attemptId, |frames|, b)]
  }

  function Deltas(frames: seq<Frame>): Bytes
    decreases |frames|
  {
    if frames == [] then []
    else
      var b := frames[|frames| - 1].body;
      Deltas(frames[..|frames| - 1]) + if b.FinalDelta? then b.delta else []
  }

  /** Conforming so far and not over. */
  predicate Going(job: Job, frames: seq<Frame>) {
    frames != [] && Conforming(job.requestId, job.attemptId, frames) && !HasTerminal(frames)
  }

  lemma {:induction false} EmitOk(job: Job, frames: seq<Frame>, b: Body)
    requires Going(job, frames) && PayloadOk(b) && !b.Started?
    requires b.PhaseIs? ==> !HasPhase(frames)
    requires b.FinalDelta? || b.Completed? ==> HasPhase(frames)
    ensures var after := Emitted(job, frames, b);
            && Conforming(job.requestId, job.attemptId, after)
            && (HasPhase(after) <==> HasPhase(frames) || b.PhaseIs?) && (HasTerminal(after) <==> IsTerminal(b))
            && Deltas(after) == Deltas(frames) + if b.FinalDelta? then b.delta else []
  {
    hide HasPhase;
    hide HasTerminal;
    hide Conforming;
    var after := Emitted(job, frames, b);
    assert after[..|after| - 1] == frames;
    ConformingGrows(job.requestId, job.attemptId, after);
    MarksGrow(after);
  }

  lemma {:induction false} StartOk(job: Job)
    ensures Going(job, Emitted(job, [], Started)) && !HasPhase(Emitted(job, [], Started)) && Deltas(Emitted(job, [], Started)) == []
  {
  }

  /** The markers the controller has passed and the frames sent agree. */
  predicate InStep(c: P.Controller, frames: seq<Frame>) { PhaseSent(c.phase, frames) }

  lemma ConsumePhases(c: P.Config, s: P.Controller, i: P.Input)
    requires P.Live(s.phase)
    ensures var (now, r) := P.Consume(c, s, i);
            now.sampled == s.sampled + 1 && MovedTo(s.phase, now, r)
  {
  }

  /** The text side: bytes collected, bytes handed out as deltas, bytes held back. */
  ghost predicate TextOk(utf8: U.Acc, frames: seq<Frame>, finalBytes: Bytes) {
    utf8.valid && U.Tracks(U.Fed(utf8, Deltas(frames)), finalBytes)
  }

  /** A final-phase token: its completed characters go out as a delta. */
  function Texted(job: Job, frames: seq<Frame>, utf8: U.Acc, piece: Bytes): (seq<Frame>, U.Acc) {
    var a := U.Feed(utf8, piece);
    (if a.acc.valid && a.completed != [] then Emitted(job, frames, FinalDelta(a.completed)) else frames, a.acc)
  }

  /** Progress every sixteen tokens and a heartbeat when one is due. */
  function Telemetry(job: Job, frames: seq<Frame>, wasFinal: bool, sampled: nat, heartbeatDue: bool): seq<Frame> {
    var a := if sampled % 16 == 0 then Emitted(job, frames, Progress(if wasFinal then "final" else "reasoning", sampled)) else frames;
    if heartbeatDue then Emitted(job, a, Heartbeat(sampled)) else a
  }

  /** After the text: the phase frame when the final grammar is switched on, then telemetry
      unless the job is over. */
  function Transitioned(job: Job, frames: seq<Frame>, before: P.Phase, now: P.Controller, r: P.Result, heartbeatDue: bool): seq<Frame> {
    var a := if r.action == P.ActivateFinalGrammar then Emitted(job, frames, PhaseIs("final")) else frames;
    if r.action == P.Failed || r.action == P.Completed then a else Telemetry(job, a, before == P.Final, now.sampled, heartbeatDue)
  }

  /** The state of the generation loop. */
  datatype Loop = Loop(frames: seq<Frame>, phase: P.Controller, utf8: U.Acc, finalBytes: Bytes, finalSampler: bool)

  /** One turn of the loop; Some: what it throws. */
  function OneTurn(job: Job, g: Loop, turn: Turn): (Loop, Option<string>) {
    if turn.TurnThrows? then (g, Some(turn.message))
    else
      var (now, r) := P.Consume(job.config, g.phase, P.Input(turn.token, turn.eog, turn.eog && g.finalSampler));
      var text := g.phase.phase == P.Final && !turn.eog;
      var (frames, utf8) := if text then Texted(job, g.frames, g.utf8, turn.piece) else (g.frames, g.utf8);
      var g1 := Loop(frames, now, utf8, if text then g.finalBytes + turn.piece else g.finalBytes,
                     g.finalSampler || r.action == P.ActivateFinalGrammar);
      if !utf8.valid then (g1, Some("protocol_violation:invalid_utf8"))
      else
        (g1.(frames := Transitioned(job, frames, g.phase.phase, now, r, turn.heartbeatDue)),
         if r.action == P.Failed then Some("protocol_violation:" + r.error) else None)
  }

  /** The loop from turn `n` on. */
  function Generated(job: Job, g: Loop, n: nat): (seq<Frame>, Outcome)
    decreases if g.phase.sampled < job.config.totalBudget then job.config.totalBudget - g.phase.sampled else 0
  {
    if g.phase.sampled >= job.config.totalBudget || !P.Live(g.phase.phase) then
      (g.frames, if g.phase.phase != P.Done || !U.Finished(g.utf8) then Thrown("protocol_violation:incomplete_final") else Finished(g.finalBytes))
    else
      var (g1, thrown) := OneTurn(job, g, job.turns(n));
      if thrown.Some? then (g1.frames, Thrown(thrown.value))
      else
        TurnCounts(job, g, job.turns(n));
        Generated(job, g1, n + 1)
  }

  lemma TurnCounts(job: Job, g: Loop, turn: Turn)
    requires P.Live(g.phase.phase) && OneTurn(job, g, turn).1.None?
    ensures OneTurn(job, g, turn).0.phase.sampled == g.phase.sampled + 1
  {
    ConsumePhases(job.config, g.phase, P.Input(turn.token, turn.eog, turn.eog && g.finalSampler));
    hide P.Consume;
  }

  /** The prompt loop from batch `k` on, `decoded` tokens in. */
  function Prompted(job: Job, frames: seq<Frame>, k: nat, decoded: nat): (seq<Frame>, Option<string>)
    requires k <= |job.prompt|
    decreases |job.prompt| - k
  {
    if k == |job.prompt| then (frames, None)
    else match job.prompt[k]
      case PromptThrows(message) => (frames, Some(message))
      case Decodes(count) => Prompted(job, Emitted(job, frames, Progress("prompt_decode", decoded + count)), k + 1, decoded + count)
  }

  function StartLoop(job: Job, frames: seq<Frame>): Loop { Loop(frames, P.Initial(job.config), U.Fresh, [], false) }

  /** `generate`. */
  function Generation(job: Job, start: seq<Frame>): (seq<Frame>, Outcome) {
    if job.setup.Some? then (start, Thrown(job.setup.value))
    else
      var (frames, thrown) := Prompted(job, start, 0, 0);
      if thrown.Some? then (frames, Thrown(thrown.value))
      else if job.begin.Some? then (frames, Thrown(job.begin.value))
      else Generated(job, StartLoop(job, frames), 0)
  }

  predicate StartsWith(s: string, prefix: string) { prefix <= s }

  function ErrorCode(message: string): string {
    if message == "cancelled" then "cancelled" else if message == "context_overflow" then "context_overflow"
    else if StartsWith(message, "protocol_violation") then "protocol_violation" else "decode_failed"
  }

  function LastFrame(outcome: Outcome): Body {
    if outcome.Finished? then Completed(outcome.text) else Failed(ErrorCode(outcome.message), outcome.message)
  }

  /** All frames of a job. */
  function JobFrames(job: Job): seq<Frame> {
    var (frames, outcome) := Generation(job, Emitted(job, [], Started));
    Emitted(job, frames, LastFrame(outcome))
  }

  // ----- conformance -----

  lemma EmitStays(job: Job, frames: seq<Frame>, b: Body)
    requires Going(job, frames) && PayloadOk(b) && !b.Started? && !IsTerminal(b)
    requires b.PhaseIs? ==> !HasPhase(frames)
    requires b.FinalDelta? ==> HasPhase(frames)
    ensures var after := Emitted(job, frames, b);
            && Going(job, after) && (HasPhase(after) <==> HasPhase(frames) || b.PhaseIs?)
            && Deltas(after) == Deltas(frames) + if b.FinalDelta? then b.delta else []
  {
    hide HasPhase;
    hide Deltas;
    EmitOk(job, frames, b);
  }

  /** What follows from the phase the controller was in before and is in now. */
  predicate MovedTo(before: P.Phase, now: P.Controller, r: P.Result) {
    && P.Live(before)
    && (r.action == P.Failed <==> now.phase == P.Error) && (r.action == P.Completed <==> now.phase == P.Done)
    && (r.action == P.ActivateFinalGrammar <==> before == P.Reasoning && now.phase == P.Final)
    && (now.phase == P.Done ==> before == P.Final)
    && (before == P.Final && P.Live(now.phase) ==> now.phase == P.Final)
    && (now.phase == P.Final ==> before == P.Final || before == P.Reasoning)
  }

  predicate PhaseSent(p: P.Phase, frames: seq<Frame>) {
    && (p == P.ExpectStart || p == P.Reasoning ==> !HasPhase(frames))
    && (p == P.Final || p == P.Done ==> HasPhase(frames))
  }

  lemma TextedOk(job: Job, frames: seq<Frame>, utf8: U.Acc, finalBytes: Bytes, piece: Bytes)
    requires Going(job, frames) && HasPhase(frames) && TextOk(utf8, frames, finalBytes)
    ensures var (after, acc) := Texted(job, frames, utf8, piece);
            Going(job, after) && HasPhase(after) && (acc.valid ==> TextOk(acc, after, finalBytes + piece))
  {
    hide U.Feed;
    hide Going;
    var a := U.Feed(utf8, piece);
    U.FeedTracks(U.Fed(utf8, Deltas(frames)), finalBytes, piece);
    if a.acc.valid && a.completed != [] {
      EmitStays(job, frames, FinalDelta(a.completed));
    } else {
      assert Deltas(frames) + [] == Deltas(frames);
    }
  }

  lemma TelemetryOk(job: Job, frames: seq<Frame>, wasFinal: bool, sampled: nat, heartbeatDue: bool)
    requires Going(job, frames)
    ensures var after := Telemetry(job, frames, wasFinal, sampled, heartbeatDue);
            Going(job, after) && (HasPhase(after) <==> HasPhase(frames)) && Deltas(after) == Deltas(frames)
  {
    hide Going;
    hide HasPhase;
    hide Deltas;
    var a := frames;
    if sampled % 16 == 0 {
      var b := Progress(if wasFinal then "final" else "reasoning", sampled);
      EmitStays(job, a, b);
      a := Emitted(job, a, b);
    }
    if heartbeatDue { EmitStays(job, a, Heartbeat(sampled)); }
    assert Deltas(frames) + [] + [] == Deltas(frames);
  }

  lemma TransitionedOk(job: Job, frames: seq<Frame>, before: P.Phase, now: P.Controller, r: P.Result, heartbeatDue: bool,
                       utf8: U.Acc, finalBytes: Bytes)
    requires Going(job, frames) && MovedTo(before, now, r) && PhaseSent(before, frames) && TextOk(utf8, frames, finalBytes)
    ensures var after := Transitioned(job, frames, before, now, r, heartbeatDue);
            Going(job, after) && InStep(now, after) && TextOk(utf8, after, finalBytes)
  {
    hide Going;
    hide HasPhase;
    hide Deltas;
    hide TextOk;
    hide Telemetry;
    var a := frames;
    if r.action == P.ActivateFinalGrammar {
      EmitStays(job, a, PhaseIs("final"));
      a := Emitted(job, a, PhaseIs("final"));
    }
    assert Deltas(frames) + [] == Deltas(frames);
    TelemetryOk(job, a, before == P.Final, now.sampled, heartbeatDue);
    TextSame(utf8, frames, Transitioned(job, frames, before, now, r, heartbeatDue), finalBytes);
  }

  lemma TextSame(utf8: U.Acc, a: seq<Frame>, b: seq<Frame>, finalBytes: Bytes)
    requires TextOk(utf8, a, finalBytes) && Deltas(a) == Deltas(b)
    ensures TextOk(utf8, b, finalBytes)
  {
  }

  lemma InStepAtStart(c: P.Config, frames: seq<Frame>)
    requires !HasPhase(frames)
    ensures InStep(P.Initial(c), frames)
  {
  }

  lemma TextStarts(frames: seq<Frame>)
    requires Deltas(frames) == []
    ensures TextOk(U.Fresh, frames, [])
  {
  }

  lemma TextEnds(utf8: U.Acc, frames: seq<Frame>, finalBytes: Bytes)
    requires TextOk(utf8, frames, finalBytes) && U.Finished(utf8)
    ensures Deltas(frames) == finalBytes && U.WellFormed(finalBytes)
  {
    U.ScanCompleteIffWellFormed(finalBytes);
  }

  /** Frames, phase and text of the loop agree. */
  ghost predicate LoopOk(job: Job, g: Loop) {
    Going(job, g.frames) && InStep(g.phase, g.frames) && TextOk(g.utf8, g.frames, g.finalBytes)
  }

  lemma OneTurnOk(job: Job, g: Loop, turn: Turn)
    requires LoopOk(job, g) && P.Live(g.phase.phase)
    ensures var (g1, thrown) := OneTurn(job, g, turn);
            Going(job, g1.frames) && (thrown.None? ==> LoopOk(job, g1) && g1.phase.phase != P.Error)
  {
    hide Going;
    hide HasPhase;
    hide TextOk;
    hide P.Consume;
    hide Texted;
    hide Transitioned;
    if !turn.TurnThrows? {
      var i := P.Input(turn.token, turn.eog, turn.eog && g.finalSampler);
      ConsumePhases(job.config, g.phase, i);
      var (now, r) := P.Consume(job.config, g.phase, i);
      if g.phase.phase == P.Final && !turn.eog {
        TextedOk(job, g.frames, g.utf8, g.finalBytes, turn.piece);
        var (frames, utf8) := Texted(job, g.frames, g.utf8, turn.piece);
        if utf8.valid { TransitionedOk(job, frames, g.phase.phase, now, r, turn.heartbeatDue, utf8, g.finalBytes + turn.piece); }
      } else {
        ValidText(g.utf8, g.frames, g.finalBytes);
        TransitionedOk(job, g.frames, g.phase.phase, now, r, turn.heartbeatDue, g.utf8, g.finalBytes);
      }
    }
  }

  lemma ValidText(utf8: U.Acc, frames: seq<Frame>, finalBytes: Bytes)
    requires TextOk(utf8, frames, finalBytes)
    ensures utf8.valid
  {
  }

  lemma {:induction false} GeneratedOk(job: Job, g: Loop, n: nat)
    requires LoopOk(job, g) && g.phase.phase != P.Error
    ensures var (frames, outcome) := Generated(job, g, n);
            && Going(job, frames)
            && (outcome.Finished? ==> HasPhase(frames) && Deltas(frames) == outcome.text && U.WellFormed(outcome.text))
    decreases if g.phase.sampled < job.config.totalBudget then job.config.totalBudget - g.phase.sampled else 0
  {
    hide Going;
    hide HasPhase;
    hide Deltas;
    hide TextOk;
    hide OneTurn;
    if g.phase.sampled >= job.config.totalBudget || !P.Live(g.phase.phase) {
      if U.Finished(g.utf8) { TextEnds(g.utf8, g.frames, g.finalBytes); }
    } else {
      var turn := job.turns(n);
      OneTurnOk(job, g, turn);
      if OneTurn(job, g, turn).1.None? {
        TurnCounts(job, g, turn);
        GeneratedOk(job, OneTurn(job, g, turn).0, n + 1);
      }
    }
  }

  lemma {:induction false} PromptedOk(job: Job, frames: seq<Frame>, k: nat, decoded: nat)
    requires Going(job, frames) && !HasPhase(frames) && Deltas(frames) == [] && k <= |job.prompt|
    ensures var after := Prompted(job, frames, k, decoded).0; Going(job, after) && !HasPhase(after) && Deltas(after) == []
    decreases |job.prompt| - k
  {
    hide Going;
    hide HasPhase;
    hide Deltas;
    if k < |job.prompt| && job.prompt[k].Decodes? {
      var b := Progress("prompt_decode", decoded + job.prompt[k].count);
      EmitStays(job, frames, b);
      PromptedOk(job, Emitted(job, frames, b), k + 1, decoded + job.prompt[k].count);
    }
  }

  lemma GenerationOk(job: Job, start: seq<Frame>)
    requires Going(job, start) && !HasPhase(start) && Deltas(start) == []
    ensures var (frames, outcome) := Generation(job, start);
            && Going(job, frames)
            && (outcome.Finished? ==> HasPhase(frames) && Deltas(frames) == outcome.text && U.WellFormed(outcome.text))
  {
    hide Going;
    hide HasPhase;
    hide Deltas;
    hide TextOk;
    hide Generated;
    hide Prompted;
    PromptedOk(job, start, 0, 0);
    var frames := Prompted(job, start, 0, 0).0;
    TextStarts(frames);
    InStepAtStart(job.config, frames);
    GeneratedOk(job, StartLoop(job, frames), 0);
  }

  /** Producer/consumer conformance: whatever tokens are sampled and wherever the job is
      cancelled or fails, the verifier accepts every frame of it, the last frame and no other
      is terminal, and if that one is a completion the deltas spell its text. */
  lemma ProducerConforms(job: Job)
    ensures var frames := JobFrames(job);
            && VerifyAll(NewVerifier(job.requestId, job.attemptId), frames).Some?
            && Conforming(job.requestId, job.attemptId, frames)
            && |frames| >= 2 && (forall k :: 0 <= k < |frames| ==> (IsTerminal(frames[k].body) <==> k == |frames| - 1))
            && var last := frames[|frames| - 1].body;
               last.Completed? ==> Deltas(frames) == last.text && U.WellFormed(last.text)
  {
    hide HasPhase;
    hide Deltas;
    hide HasTerminal;
    hide Conforming;
    hide Generation;
    hide VerifyAll;
    hide U.WellFormed;
    var start := Emitted(job, [], Started);
    StartOk(job);
    GenerationOk(job, start);
    var (before, outcome) := Generation(job, start);
    var last := LastFrame(outcome);
    EmitOk(job, before, last);
    var frames := JobFrames(job);
    assert frames == before + [Frame(job.requestId, job.attemptId, |before|, last)];
    VerifierIsExact(job.requestId, job.attemptId, frames);
    OneEnd(before, frames);
    assert Deltas(before) + [] == Deltas(before);
  }

  lemma {:induction false} OneEnd(before: seq<Frame>, frames: seq<Frame>)
    requires |frames| == |before| + 1 && frames[..|before|] == before && !HasTerminal(before) && IsTerminal(frames[|before|].body)
    ensures forall k :: 0 <= k < |frames| ==> (IsTerminal(frames[k].body) <==> k == |frames| - 1)
  {
    forall k | 0 <= k < |before|
      ensures !IsTerminal(frames[k].body)
    {
      assert frames[k] == before[k];
    }
  }

  // ----- the loops -----

  method DecodePrompt(job: Job, start: seq<Frame>) returns (frames: seq<Frame>, thrown: Option<string>)
    ensures (frames, thrown) == Prompted(job, start, 0, 0)
  {
    frames := start;
    var decoded := 0;
    for k := 0 to |job.prompt|
      invariant Prompted(job, frames, k, decoded) == Prompted(job, start, 0, 0)
    {
      match job.prompt[k]
      case PromptThrows(message) => return frames, Some(message);
      case Decodes(count) =>
        decoded := decoded + count;
        frames := Emitted(job, frames, Progress("prompt_decode", decoded));
    }
    return frames, None;
  }

  /** The generation loop, from the first sampled token to the end of the final text. */
  method GenerateTokens(job: Job, start: seq<Frame>) returns (frames: seq<Frame>, outcome: Outcome)
    ensures (frames, outcome) == Generated(job, StartLoop(job, start), 0)
  {
    hide P.Consume;
    hide U.Feed;
    frames := start;
    var phase := P.Initial(job.config);
    var finalBytes: Bytes := [];
    var utf8 := U.Fresh;
    var finalSampler := false;
    var n := 0;
    while phase.sampled < job.config.totalBudget && P.Live(phase.phase)
      invariant utf8.valid
      invariant Generated(job, Loop(frames, phase, utf8, finalBytes, finalSampler), n) == Generated(job, StartLoop(job, start), 0)
      decreases job.config.totalBudget - phase.sampled
    {
      ghost var g := Loop(frames, phase, utf8, finalBytes, finalSampler);
      var turn := job.turns(n);
      if turn.TurnThrows? { return frames, Thrown(turn.message); }
      var before := phase.phase;
      var eog := turn.eog;
      ConsumePhases(job.config, phase, P.Input(turn.token, eog, eog && finalSampler));
      var (now, transition) := P.Consume(job.config, phase, P.Input(turn.token, eog, eog && finalSampler));
      phase := now;
      if before == P.Final && !eog {
        finalBytes := finalBytes + turn.piece;
        var appended := U.Feed(utf8, turn.piece);
        utf8 := appended.acc;
        if !utf8.valid { return frames, Thrown("protocol_violation:invalid_utf8"); }
        if appended.completed != [] { frames := Emitted(job, frames, FinalDelta(appended.completed)); }
      }
      if transition.action == P.ActivateFinalGrammar {
        finalSampler := true;
        frames := Emitted(job, frames, PhaseIs("final"));
      }
      if transition.action == P.Failed { return frames, Thrown("protocol_violation:" + transition.error); }
      if transition.action != P.Completed {
        if phase.sampled % 16 == 0 {
          frames := Emitted(job, frames, Progress(if before == P.Final then "final" else "reasoning", phase.sampled));
        }
        if turn.heartbeatDue { frames := Emitted(job, frames, Heartbeat(phase.sampled)); }
      }
      assert OneTurn(job, g, turn) == (Loop(frames, phase, utf8, finalBytes, finalSampler), None);
      n := n + 1;
    }
    if phase.phase != P.Done || !U.Finished(utf8) { return frames, Thrown("protocol_violation:incomplete_final"); }
    return frames, Finished(finalBytes);
  }

  method Generate(job: Job, start: seq<Frame>) returns (frames: seq<Frame>, outcome: Outcome)
    ensures (frames, outcome) == Generation(job, start)
  {
    if job.setup.Some? { return start, Thrown(job.setup.value); }
    var thrown;
    frames, thrown := DecodePrompt(job, start);
    if thrown.Some? { return frames, Thrown(thrown.value); }
    if job.begin.Some? { return frames, Thrown(job.begin.value); }
    frames, outcome := GenerateTokens(job, frames);
  }

  /** The job loop's body. */
  method RunJob(job: Job) returns (frames: seq<Frame>)
    ensures frames == JobFrames(job)
    ensures VerifyAll(NewVerifier(job.requestId, job.attemptId), frames).Some?
  {
    ProducerConforms(job);
    hide VerifyAll;
    frames := Emitted(job, [], Started);
    var outcome;
    frames, outcome := Generate(job, frames);
    if outcome.Finished? {
      frames := Emitted(job, frames, Completed(outcome.text));
    } else {
      frames := Emitted(job, frames, Failed(ErrorCode(outcome.message), outcome.message));
    }
  }
}
