/** When a turn starts, goes on and ends, and what a recovery finds, told by the logs. */
module TurnSteps {
  import opened Basics
  import opened AgentLog
  import opened AgentProtocol
  import opened AgentTurn
  import opened LogHistory

  /** The event an instance has to write next, by the script of its turn. */
  function DueEvent(i: Instance): Event
    requires |i.marks| < |Script(i.run, i.turn, i.status)|
  {
    Written(i.run, Script(i.run, i.turn, i.status)[|i.marks|], i.version)
  }

  predicate Waits(i: Instance) { i.loaded && !i.point.Ended? }

  /** The executor is due: the permitted call is dispatched and has not been made. */
  predicate CallDue(i: Instance) { MayCall(i.turn) && |i.marks| == Due(i.turn) && !i.executed }

  // ----- starting -----

  /** May a turn begin on this log? The run is deciding and has a turn left. */
  ghost predicate TurnAllowed(log: seq<Event>) {
    && Coherent(log) && RunStands(log, Deciding)
    && Turns in log[0].budgets && Consumed(log, Turns) < log[0].budgets[Turns]
  }

  lemma LaunchExactly(w: World, id: nat, run: string, turn: Turn)
    ensures var (w1, log) := (Do(w, Launch(id, run, turn)), LogOf(w.store, run));
            if id !in w.instances && TurnAllowed(log)
            then && w1.store == w.store && w1.calls == w.calls && id in w1.instances
                 && w1.instances == w.instances[id := w1.instances[id]]
                 && var i := w1.instances[id];
                    i.run == run && i.turn == turn && i.version == |log| && i.marks == [] && !i.executed && Waits(i)
            else w1 == w
  {
    var log := LogOf(w.store, run);
    LegalExactly(log);
    hide Coherent;
    if Legal(log) {
      StateExactly(log);
      hide Replay;
      hide RunStands;
    }
  }

  // ----- going on -----

  lemma EndsAtTheEnd(i: Instance)
    requires Placed(i) && i.point != AtExecute && i.point != Ended && |i.marks| < |Script(i.run, i.turn, i.status)|
    ensures Next(i) == Ended <==> |i.marks| + 1 == |Script(i.run, i.turn, i.status)|
  {
    hide Opening;
    OpeningLine(i.(point := AtInference));
  }

  lemma ExecuteIsDue(i: Instance)
    requires Placed(i) && i.point != Ended
    ensures i.point == AtExecute <==> CallDue(i)
  {
  }

  lemma LineIsDue(i: Instance)
    requires Placed(i) && i.point != AtExecute && i.point != Ended
    ensures |i.marks| < |Script(i.run, i.turn, i.status)| && EventAt(i) == DueEvent(i)
  {
    hide Script;
    hide Written;
    hide EventAt;
    AtItsLine(i);
  }

  /** In every reached world, an instance that waits and whose call is not due writes the next
      line of its script: exactly if nobody else has written meanwhile, the line fits the log
      and its claims are free. Then it goes on, and has ended exactly if that was the last line;
      otherwise it ends with nothing written. */
  lemma TurnGoesOn(steps: seq<Step>, id: nat)
    requires var w := DoAll(Genesis, steps); id in w.instances && Waits(w.instances[id]) && !CallDue(w.instances[id])
    ensures var (w, w1) := (DoAll(Genesis, steps), Do(DoAll(Genesis, steps), AppendNext(id)));
            var i := w.instances[id];
            var (log, script) := (LogOf(w.store, i.run), Script(i.run, i.turn, i.status));
            && |i.marks| < |script| && id in w1.instances
            && if i.version == |log| && MayAppend(w.store, i.run, DueEvent(i))
               then && w1.store == w.store[i.run := log + [DueEvent(i)]]
                    && w1.instances[id].marks == i.marks + [|log|]
                    && (w1.instances[id].point.Ended? <==> |i.marks| + 1 == |script|)
               else w1.store == w.store && w1.instances[id] == i.(point := Ended)
  {
    hide DoAll;
    hide Script;
    hide DueEvent;
    hide MayAppend;
    TurnsFollowScript(steps);
    ReachedOk(steps);
    var w := DoAll(Genesis, steps);
    var i := w.instances[id];
    hide WorldOk;
    PlacedAt(w, id);
    ExecuteIsDue(i);
    LineIsDue(i);
    EndsAtTheEnd(i);
    StoreIsOk(w);
    AppendExactly(w.store, i.run, i.version, EventAt(i));
    hide Append;
    hide EventAt;
    hide Next;
    hide Placed;
  }

  lemma PlacedAt(w: World, id: nat)
    requires AllTurnsOk(w) && id in w.instances
    ensures Placed(w.instances[id])
  {
  }

  lemma StoreIsOk(w: World)
    requires WorldOk(w)
    ensures StoreOk(w.store)
  {
  }

  /** And when its call is due, the executor is called, once, and the answer is what it writes
      about from then on. */
  lemma CallIsMade(steps: seq<Step>, id: nat, status: ToolLifecycle)
    requires var w := DoAll(Genesis, steps); id in w.instances && Waits(w.instances[id])
    requires status in {ToolSucceeded, Partial, ToolFailed, UnknownOutcome}
    ensures var (w, w1) := (DoAll(Genesis, steps), Do(DoAll(Genesis, steps), Execute(id, status)));
            var i := w.instances[id];
            if CallDue(i)
            then && w1.store == w.store && w1.calls == w.calls + multiset{i.turn.invocation}
                 && id in w1.instances && w1.instances[id].executed && w1.instances[id].status == status && Waits(w1.instances[id])
            else w1 == w
  {
    hide DoAll;
    hide Script;
    TurnsFollowScript(steps);
    var w := DoAll(Genesis, steps);
    PlacedAt(w, id);
    ExecuteIsDue(w.instances[id]);
    hide Placed;
  }

  /** A reload makes an instance wait at the end of the log it sees. */
  lemma ReloadExactly(w: World, id: nat)
    requires id in w.instances
    ensures var w1 := Do(w, Reload(id));
            && w1.store == w.store && id in w1.instances
            && w1.instances[id] == w.instances[id].(loaded := true, version := |LogOf(w.store, w.instances[id].run)|)
  {
  }

  // ----- recovery -----

  /** Recovery asks to reconcile exactly if some call was started and has no result in the log;
      otherwise it allows a retry exactly if the run is deciding or has not begun. */
  lemma RecoverExactly(log: seq<Event>)
    requires Legal(log)
    ensures var r := Recover(Replay(log).value);
            var open := exists i :: Dispatches(log, i) && !Results(log, i);
            && (r.ReconcileOnly? <==> open)
            && (r.SafeRetry? <==> !open && (RunStands(log, Deciding) || RunStands(log, Ready)))
  {
    ReplayMirrors(log);
    StateExactly(log);
    var s := Replay(log).value;
    hide Replay;
    hide RunStands;
    hide Dispatches;
    hide Results;
    if i :| Dispatches(log, i) && !Results(log, i) { assert i in s.dispatched - s.results; }
    if i :| i in s.dispatched - s.results { assert Dispatches(log, i) && !Results(log, i); }
  }
}
