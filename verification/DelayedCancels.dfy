/** A cancel call blocks in `abort_command` before it writes, and the confirming thread goes on in the
    meantime: what that thread makes of the sequence's record, and exactly when the cancel call raises. */
module DelayedCancels {
  import opened Wrappers
  import opened Lifecycle
  import opened SupervisorModel
  import opened SupervisorInvariants
  import opened SupervisorCalls
  import opened CallEffects
  import opened Interleaving
  import opened StageFrames
  import opened CancelledByCommand

  /** The final state a result leaves on a step at its execution boundary. */
  lemma FinishWrites(f: Flow, id: Id, ros: RosResult)
    requires f.fault == Clear && id in f.s.commands && f.s.commands[id].state == ExecutionRequested
    ensures var g := Finish(f, id, ros);
            && id in g.s.commands
            && if ros.RosRaises? || !Honest(ros) then g.fault != Clear
               else g.fault == Clear && g.s.commands[id].finalState == Some(FinalOf(ros.status))
  {
    hide Close, Move;
    if ros.RosReturns? {
      var m := Move(f, id, Executing);
      var d := SetFinal(m, id, None);
      var final := FinalOf(ros.status);
      MoveTouches(f, id, Executing);
      var g := if ros.dispatched then d else if ros.status == StatusCancelled then m else f;
      assert Finish(f, id, ros) == Close(g, id, final);
      CloseWrites(g, id, final);
    }
  }

  lemma QueryWrites(f: Flow, id: Id, pose: PoseReply)
    requires f.fault == Clear && id in f.s.commands && f.s.commands[id].state == ExecutionRequested
    ensures var g := QueryPose(f, id, pose);
            && id in g.s.commands
            && if pose == PoseRaises then g.fault != Clear
               else g.fault == Clear && g.s.commands[id].finalState == Some(PoseFinal(pose))
  {
    hide Close, Move;
    MoveTouches(f, id, Executing);
    CloseWrites(Move(f, id, Executing), id, PoseFinal(pose));
  }

  /** The sequence's record after the failure of a step. */
  lemma FailWrites(f: Flow, seqId: Id, step: Id)
    requires f.fault == Clear && seqId in f.s.commands && step in f.s.commands
    ensures var g := FailSequence(f, seqId, step);
            var final := f.s.commands[step].finalState;
            var next := if final.Some? then final.value else Failed;
            var q := f.s.commands[seqId];
            && seqId in g.s.commands && g.s.commands[seqId].finalState == final
            && g.s.commands[seqId].state == if Allowed(q.state, next) then next else q.state
  {
    hide TouchedIo;
  }

  lemma CompleteWrites(f: Flow, seqId: Id)
    requires f.fault == Clear && seqId in f.s.commands
    ensures var g := CompleteSequence(f, seqId);
            var q := f.s.commands[seqId];
            && seqId in g.s.commands && g.s.commands[seqId].finalState == Some(Succeeded)
            && g.s.commands[seqId].state == if Allowed(q.state, Succeeded) then Succeeded else q.state
  {
  }

  /** What the thread writes to the sequence's final state in its next stage, if anything. */
  function FinalWritten(w: World, env: StepEnv): Option<Option<State>> {
    match w.pc
    case Ready(i) => if i >= |w.steps| then Some(Some(Succeeded)) else if Opens(w, i, env) then None else Some(None)
    case Prepared(_) => None
    case Awaiting(i) => if Ending(w, i, env) in {Some(Failed), Some(Cancelled)} then Some(Ending(w, i, env)) else None
    case Gone => None
  }

  predicate Opens(w: World, i: nat, env: StepEnv) {
    i < |w.steps| && w.steps[i] in w.s.commands && GateOpen(w.s.commands[w.steps[i]], env)
  }

  /** The final state the result of step i stands for, if a result arrives. */
  function Ending(w: World, i: nat, env: StepEnv): Option<State> {
    if i < |w.steps| && w.steps[i] in w.s.commands then AttemptFinal(w.s.commands[w.steps[i]], env) else None
  }

  /** The sequence's record takes over what a stage writes to it, and nothing else. */
  ghost predicate TakesOver(q: Record, r: Record, written: Option<Option<State>>) {
    match written
    case None => r.state == q.state && r.finalState == q.finalState
    case Some(final) =>
      var next := if final.Some? then final.value else Failed;
      r.finalState == final && r.state == if Allowed(q.state, next) then next else q.state
  }

  lemma ReadyWrites(w: World, env: StepEnv)
    requires Underway(w) && w.pc.Ready?
    ensures var v := Advance(w, env);
            w.seqId in v.s.commands && TakesOver(w.s.commands[w.seqId], v.s.commands[w.seqId], FinalWritten(w, env))
  {
    hide Sends, Rows, GateOpen, Prepare, PointAt, FailSequence, CompleteSequence;
    var f := Flow(w.s, Clear);
    if w.pc.i >= |w.steps| {
      CompleteWrites(f, w.seqId);
    } else {
      var step := w.steps[w.pc.i];
      assert step in w.steps;
      var p := PointAt(f, w.seqId, step);
      PointAtPlain(f, w.seqId, step);
      PreparePlain(p, step);
      FailWrites(p, w.seqId, step);
    }
  }

  /** What the sequence makes of a step's result, once that result is written. */
  lemma ConcludeWrites(w: World, g: Flow, i: nat, q: Record, final: Option<State>)
    requires i < |w.steps| && w.seqId in g.s.commands && w.steps[i] in g.s.commands
    requires g.s.commands[w.seqId] == q
    requires if final.None? then g.fault != Clear
             else g.fault == Clear && g.s.commands[w.steps[i]].finalState == final
                  && final.value in {Succeeded, Failed, Cancelled}
    ensures var v := Conclude(w, g, i);
            && w.seqId in v.s.commands
            && TakesOver(q, v.s.commands[w.seqId],
                         if final == Some(Failed) || final == Some(Cancelled) then Some(final) else None)
  {
    hide FailSequence;
    if g.fault == Clear {
      FailWrites(g, w.seqId, w.steps[i]);
    }
  }

  /** The result of a step at its execution boundary, as the attempt's final state says. */
  lemma ResultWrites(f: Flow, id: Id, env: StepEnv, seqId: Id)
    requires f.fault == Clear && id in f.s.commands && f.s.commands[id].state == ExecutionRequested
    requires seqId in f.s.commands && seqId != id
    ensures var query := IsPoseQuery(f.s.commands[id].intent);
            var g := if query then QueryPose(f, id, env.pose) else Finish(f, id, env.ros);
            var final := AttemptFinal(f.s.commands[id], env);
            && id in g.s.commands && seqId in g.s.commands && g.s.commands[seqId] == f.s.commands[seqId]
            && (if final.None? || (!query && !Honest(env.ros)) then g.fault != Clear
                else g.fault == Clear && g.s.commands[id].finalState == final)
  {
    hide Sends, Finish, QueryPose, IsPoseQuery;
    FinishWrites(f, id, env.ros);
    QueryWrites(f, id, env.pose);
    QuietFinish(f, id, env.ros, id, [id]);
    QuietQuery(f, id, env.pose, id, [id]);
  }

  lemma AwaitingWrites(w: World, env: StepEnv)
    requires Underway(w) && w.pc.Awaiting?
    ensures var v := Advance(w, env);
            w.seqId in v.s.commands && TakesOver(w.s.commands[w.seqId], v.s.commands[w.seqId], FinalWritten(w, env))
  {
    hide Sends, Rows, Finish, QueryPose, IsPoseQuery, Conclude, TakesOver;
    var f := Flow(w.s, Clear);
    var i, step := w.pc.i, w.steps[w.pc.i];
    assert step in w.steps;
    ResultWrites(f, step, env, w.seqId);
    var query := IsPoseQuery(w.s.commands[step].intent);
    var g := if query then QueryPose(f, step, env.pose) else Finish(f, step, env.ros);
    assert Advance(w, env) == Conclude(w, g, i);
    var final := Ending(w, i, env);
    ConcludeWrites(w, g, i, w.s.commands[w.seqId], if !query && !Honest(env.ros) then None else final);
  }

  lemma StageWrites(w: World, env: StepEnv)
    requires Underway(w)
    ensures var v := Advance(w, env);
            w.seqId in v.s.commands && TakesOver(w.s.commands[w.seqId], v.s.commands[w.seqId], FinalWritten(w, env))
  {
    hide Sends, Rows, Issue;
    match w.pc
    case Ready(_) => ReadyWrites(w, env);
    case Prepared(i) => IssuePlain(Flow(w.s, Clear), w.steps[i]);
    case Awaiting(_) => AwaitingWrites(w, env);
    case Gone =>
  }

  /** The thread of a cancelled sequence overwrites its final state exactly when it finds all steps done,
      finds a gate shut, or takes a step's failure; its state stays CANCELLED. */
  lemma SequenceFinalKeptExactly(w: World, env: StepEnv)
    requires Underway(w)
    requires w.s.commands[w.seqId].state == Cancelled && w.s.commands[w.seqId].finalState == Some(Cancelled)
    ensures var v := Advance(w, env);
            && w.seqId in v.s.commands && v.s.commands[w.seqId].state == Cancelled
            && (v.s.commands[w.seqId].finalState != Some(Cancelled) <==>
                match w.pc
                case Ready(i) => !Opens(w, i, env)
                case Prepared(_) => false
                case Awaiting(i) => Ending(w, i, env) == Some(Failed)
                case Gone => false)
  {
    hide Underway, Advance, GateOpen, AttemptFinal;
    StageWrites(w, env);
  }

  /** The turn ends the sequence: a cancellation that takes effect, or a stage that completes it, finds a
      gate shut, or takes a step's failure or cancellation. */
  predicate EndsIt(w: World, turn: Turn) {
    match turn
    case Stage(env) => FinalWritten(w, env).Some?
    case SequenceCancel(ok) => CurrentStepInFlight(w.s, w.seqId) ==> ok
    case CommandCancel(ok) => ok
  }

  lemma TurnEndsExactly(w: World, turn: Turn)
    requires Underway(w) && w.s.commands[w.seqId].state == Executing
    ensures var v := React(w, turn);
            && v.seqId == w.seqId && w.seqId in v.s.commands
            && if EndsIt(w, turn) then Terminal(v.s.commands[w.seqId].state)
               else Underway(v) && v.s.commands[w.seqId].state == Executing
  {
    hide Sends, Underway, Advance, Close, CancelJob, CurrentStepInFlight, Rows;
    UnderwayListed(w);
    TurnUnderway(w, turn);
    ListedKept(w, turn);
    match turn
    case Stage(env) => StageWrites(w, env);
    case SequenceCancel(ok) =>
      if Effective(w, ok) {
        SequenceCancelEnds(w, ok);
      }
    case CommandCancel(ok) =>
      if ok {
        CommandCancelTouches(w);
      }
  }

  /** Some turn of the list ends the sequence. */
  ghost predicate EndsAmong(w: World, turns: seq<Turn>) {
    exists k | 0 <= k < |turns| :: EndsAt(w, turns, k)
  }

  predicate EndsAt(w: World, turns: seq<Turn>, k: nat)
    requires k < |turns|
  {
    EndsIt(Play(w, turns[..k]), turns[k])
  }

  lemma EndsAmongLater(w: World, turns: seq<Turn>)
    requires turns != []
    ensures EndsAmong(w, turns) <==> EndsIt(w, turns[0]) || EndsAmong(React(w, turns[0]), turns[1..])
  {
    hide EndsIt, React;
    var v, rest := React(w, turns[0]), turns[1..];
    assert Play(w, turns[..0]) == w;
    assert EndsAt(w, turns, 0) == EndsIt(w, turns[0]);
    forall k: nat | k < |rest| ensures EndsAt(v, rest, k) == EndsAt(w, turns, k + 1) {
      assert turns[..k + 1][1..] == rest[..k];
    }
    if EndsAmong(w, turns) {
      var k :| 0 <= k < |turns| && EndsAt(w, turns, k);
      assert k == 0 || EndsAt(v, rest, k - 1);
    }
    if EndsAmong(v, rest) {
      var k :| 0 <= k < |rest| && EndsAt(v, rest, k);
      assert EndsAt(w, turns, k + 1);
    }
  }

  lemma {:induction false} EndsAmongExactly(w: World, turns: seq<Turn>)
    requires Underway(w) && w.s.commands[w.seqId].state == Executing
    ensures var u := Play(w, turns);
            && Listed(u) && u.seqId == w.seqId && u.steps == w.steps
            && (Terminal(u.s.commands[w.seqId].state) <==> EndsAmong(w, turns))
    decreases |turns|
  {
    hide Underway, Listed, React, EndsIt, EndsAmong, Rows;
    if turns == [] {
      UnderwayListed(w);
      assert !EndsAmong(w, turns) by { NoneAmongNone(w); }
    } else {
      var v := React(w, turns[0]);
      TurnEndsExactly(w, turns[0]);
      EndsAmongLater(w, turns);
      if EndsIt(w, turns[0]) {
        TerminalIsAbsorbing(v, turns[1..]);
        UnderwayListed(w);
        ListedKept(w, turns[0]);
        ListedThroughout(v, turns[1..]);
      } else {
        EndsAmongExactly(v, turns[1..]);
        UnderwayListed(w);
        ListedKept(w, turns[0]);
      }
    }
  }

  lemma NoneAmongNone(w: World)
    ensures !EndsAmong(w, [])
  {
  }

  lemma {:induction false} ListedThroughout(w: World, turns: seq<Turn>)
    requires Listed(w)
    ensures var u := Play(w, turns); Listed(u) && u.seqId == w.seqId && u.steps == w.steps
    decreases |turns|
  {
    hide Listed, React;
    if turns != [] {
      ListedKept(w, turns[0]);
      ListedThroughout(React(w, turns[0]), turns[1..]);
    }
  }

  /** A call that cancels a running sequence waits for its abort first.  Its writes raise exactly when
      some turn during that wait ended the sequence.  Either way every step is over afterwards and the
      sequence's final state says CANCELLED, whatever its state says. */
  lemma DelayedSequenceCancelRaisesExactly(w: World, during: seq<Turn>)
    requires Underway(w) && w.s.commands[w.seqId].state == Executing
    ensures var u := Play(w, during);
            && w.seqId in u.s.commands
            && var g := CancelJob(u.s, w.seqId);
               && (g.fault == if EndsAmong(w, during) then InvalidTransition else Clear)
               && (forall c | c in w.steps :: c in g.s.commands && Terminal(g.s.commands[c].state))
               && w.seqId in g.s.commands && g.s.commands[w.seqId].finalState == Some(Cancelled)
               && g.s.commands[w.seqId].state == if EndsAmong(w, during) then u.s.commands[w.seqId].state else Cancelled
  {
    hide Underway, Sends, Rows, Play, EndsAmong, Close, CancelSteps;
    var u := Play(w, during);
    EndsAmongExactly(w, during);
    assert Listed(u);
    var f := Flow(u.s, Clear);
    var g := CancelSteps(f, w.steps, 0);
    CancelStepsEnds(f, w.steps, 0);
    CloseWrites(g, w.seqId, Cancelled);
    QuietClose(g, w.seqId, Cancelled, w.seqId, []);
    EveryStateCancels(g.s.commands[w.seqId].state);
    assert forall c | c in w.steps :: exists j :: 0 <= j < |w.steps| && w.steps[j] == c;
  }
}
