/** A confirmation in progress, interrupted by cancellations.

    `confirm_sequence` runs in its own request thread and blocks in every ROS call, so a cancel
    request can take effect between any two of its stages.  Three stages per step are separate here:
    the walk to EXECUTION_REQUESTED, the hand-over to the adapter, and the arrival of the result. */
module Interleaving {
  import opened Wrappers
  import opened Lifecycle
  import opened SupervisorModel
  import opened SupervisorInvariants
  import opened SupervisorCalls
  import opened SequenceRuns
  import opened CallEffects

  /** Where the confirming thread stands: before step i, between the two halves of its hand-over,
      waiting for its result, or gone. */
  datatype Pc = Ready(i: nat) | Prepared(i: nat) | Awaiting(i: nat) | Gone

  datatype World = World(s: Supervisor, seqId: Id, steps: seq<Id>, pc: Pc)

  /** What the loop does with the outcome of step i. */
  function Conclude(w: World, g: Flow, i: nat): World
    requires i < |w.steps|
  {
    if g.fault != Clear then w.(s := g.s, pc := Gone)
    else if !StepSucceeded(g.s, w.steps[i]) then w.(s := FailSequence(g, w.seqId, w.steps[i]).s, pc := Gone)
    else w.(s := g.s, pc := Ready(i + 1))
  }

  function IsPoseStep(w: World, i: nat): bool {
    i < |w.steps| && w.steps[i] in w.s.commands && IsPoseQuery(w.s.commands[w.steps[i]].intent)
  }

  /** One stage of the confirming thread. */
  function Advance(w: World, env: StepEnv): World {
    var f := Flow(w.s, Clear);
    match w.pc
    case Ready(i) =>
      if i >= |w.steps| then w.(s := CompleteSequence(f, w.seqId).s, pc := Gone)
      else
        var p := PointAt(f, w.seqId, w.steps[i]);
        if p.fault != Clear then w.(s := p.s, pc := Gone)
        else if !GateOpen(p.s.commands[w.steps[i]], env) then Conclude(w, p, i)
        else
          var q := Prepare(p, w.steps[i]);
          w.(s := q.s, pc := if q.fault == Clear then Prepared(i) else Gone)
    case Prepared(i) =>
      if i >= |w.steps| then w.(pc := Gone)
      else w.(s := if IsPoseStep(w, i) then w.s else Issue(f, w.steps[i]).s, pc := Awaiting(i))
    case Awaiting(i) =>
      if i >= |w.steps| then w.(pc := Gone)
      else Conclude(w, if IsPoseStep(w, i) then QueryPose(f, w.steps[i], env.pose) else Finish(f, w.steps[i], env.ros), i)
    case Gone => w
  }

  /** A cancel request on the sequence that passed its entry checks. */
  function CancelBySequence(w: World, abortOk: bool): World {
    if w.seqId !in w.s.commands || Terminal(w.s.commands[w.seqId].state) || (CurrentStepInFlight(w.s, w.seqId) && !abortOk) then w
    else w.(s := CancelJob(w.s, w.seqId).s)
  }

  /** A cancel request for a command that names the sequence's id. */
  function CancelByCommand(w: World, abortOk: bool): World {
    if w.seqId !in w.s.commands || Terminal(w.s.commands[w.seqId].state) || (InFlight(w.s.commands[w.seqId])
        && !abortOk) then w
    else w.(s := Close(Flow(w.s, Clear), w.seqId, Cancelled).s)
  }

  datatype Turn = Stage(env: StepEnv) | SequenceCancel(abortOk: bool) | CommandCancel(abortOk: bool)

  function React(w: World, turn: Turn): World {
    match turn
    case Stage(env) => Advance(w, env)
    case SequenceCancel(ok) => CancelBySequence(w, ok)
    case CommandCancel(ok) => CancelByCommand(w, ok)
  }

  function Play(w: World, turns: seq<Turn>): World
    decreases |turns|
  {
    if turns == [] then w else Play(React(w, turns[0]), turns[1..])
  }

  /** A cancel turn is the writes of `cancel_sequence`, once that call has passed its entry checks. */
  lemma SequenceCancelIsTheCall(s: Supervisor, caller: Caller, clock: Clock, id: Id, abortOk: bool, steps: seq<Id>, pc: Pc)
    requires var o := Enter(s, caller, clock, id);
             o.reply == Accepted && id in o.s.commands && o.s.commands[id].kind == Sequence
    ensures CancelBySequence(World(Enter(s, caller, clock, id).s, id, steps, pc), abortOk)
         == World(CancelSequence(s, caller, clock, id, abortOk).s, id, steps, pc)
  {
    hide Enter, CancelJob, CurrentStepInFlight;
  }

  /** And the other one is the write of `cancel_command`. */
  lemma CommandCancelIsTheCall(s: Supervisor, caller: Caller, clock: Clock, id: Id, abortOk: bool, steps: seq<Id>, pc: Pc)
    requires var o := Enter(s, caller, clock, id);
             o.reply == Accepted && id in o.s.commands && o.s.commands[id].parent == None
    ensures CancelByCommand(World(Enter(s, caller, clock, id).s, id, steps, pc), abortOk)
         == World(CancelCommand(s, caller, clock, id, abortOk).s, id, steps, pc)
  {
    hide Enter, Close;
  }

  // ---- terminal states are absorbing ----

  ghost predicate SameTask(a: Record, b: Record) {
    SameShape(a, b) && a.intent == b.intent
  }

  /** Nothing is lost, no record changes what it is to do, and a record that is over keeps its state
      and gains no audit row. */
  ghost predicate Absorbed(s: Supervisor, t: Supervisor) {
    forall id | id in s.commands ::
      && id in t.commands && SameTask(s.commands[id], t.commands[id])
      && (Terminal(s.commands[id].state) ==>
            t.commands[id].state == s.commands[id].state && Rows(t.history, id) == Rows(s.history, id))
  }

  lemma AbsorbedTrans(s: Supervisor, t: Supervisor, u: Supervisor)
    requires Absorbed(s, t) && Absorbed(t, u)
    ensures Absorbed(s, u)
  {
    hide Rows;
  }

  lemma MoveAbsorbed(f: Flow, id: Id, next: State)
    ensures Absorbed(f.s, Move(f, id, next).s)
  {
    hide Rows;
    if Legal(f, id, next) {
      var e := Audit(id, Row(Some(f.s.commands[id].state), next));
      forall x | x in f.s.commands && Terminal(f.s.commands[x].state)
        ensures Rows(Move(f, id, next).s.history, x) == Rows(f.s.history, x)
      {
        RowsSnoc(f.s.history, e, x);
      }
    }
  }

  lemma CloseAbsorbed(f: Flow, id: Id, final: State)
    ensures Absorbed(f.s, Close(f, id, final).s)
  {
    hide Rows, Move;
    var g := SetFinal(f, id, Some(final));
    MoveAbsorbed(g, id, final);
    AbsorbedTrans(f.s, g.s, Close(f, id, final).s);
  }

  lemma PrepareAbsorbed(f: Flow, id: Id)
    ensures Absorbed(f.s, Prepare(f, id).s)
  {
    hide Rows, Move, Absorbed;
    MoveAbsorbed(f, id, Confirmed);
    MoveAbsorbed(Move(f, id, Confirmed), id, ExecutionRequested);
    AbsorbedTrans(f.s, Move(f, id, Confirmed).s, Prepare(f, id).s);
  }

  lemma IssueAbsorbed(f: Flow, id: Id)
    ensures Absorbed(f.s, Issue(f, id).s)
  {
    hide Rows;
    forall x: Id ensures f.fault == Clear ==> Rows(Issue(f, id).s.history, x) == Rows(f.s.history, x) {
      RowsSnoc(f.s.history, Sent(id), x);
    }
  }

  lemma SetFinalAbsorbed(f: Flow, id: Id, final: Option<State>)
    ensures Absorbed(f.s, SetFinal(f, id, final).s)
  {
    hide Rows;
  }

  lemma FinishAbsorbed(f: Flow, id: Id, ros: RosResult)
    ensures Absorbed(f.s, Finish(f, id, ros).s)
  {
    hide Rows, Move, SetFinal, Close;
    assert Absorbed(f.s, f.s);
    if f.fault == Clear && ros.RosReturns? {
      var m := Move(f, id, Executing);
      var d := SetFinal(m, id, None);
      MoveAbsorbed(f, id, Executing);
      SetFinalAbsorbed(m, id, None);
      AbsorbedTrans(f.s, m.s, d.s);
      var g := if ros.dispatched then d else if ros.status == StatusCancelled then m else f;
      assert Absorbed(f.s, g.s);
      CloseAbsorbed(g, id, FinalOf(ros.status));
      AbsorbedTrans(f.s, g.s, Close(g, id, FinalOf(ros.status)).s);
    }
  }

  lemma QueryPoseAbsorbed(f: Flow, id: Id, pose: PoseReply)
    ensures Absorbed(f.s, QueryPose(f, id, pose).s)
  {
    hide Rows, Move, Close;
    assert Absorbed(f.s, f.s);
    if f.fault == Clear && id in f.s.commands && pose != PoseRaises {
      var g := if f.s.commands[id].state != Validating then Move(f, id, Executing) else f;
      MoveAbsorbed(f, id, Executing);
      CloseAbsorbed(g, id, PoseFinal(pose));
      AbsorbedTrans(f.s, g.s, Close(g, id, PoseFinal(pose)).s);
    }
  }

  lemma FailSequenceAbsorbed(f: Flow, seqId: Id, step: Id)
    ensures Absorbed(f.s, FailSequence(f, seqId, step).s)
  {
    hide Rows, Move, TouchedIo;
    if f.fault == Clear && seqId in f.s.commands && step in f.s.commands {
      var c := f.s.commands[step];
      var r := f.s.commands[seqId].(finalState := c.finalState,
                                    manualRecovery := TouchedIo(f.s.commands, f.s.commands[seqId].children, c.stepIndex));
      var g := f.(s := Put(f.s, seqId, r));
      MoveAbsorbed(g, seqId, if c.finalState.Some? then c.finalState.value else Failed);
      AbsorbedTrans(f.s, g.s, FailSequence(f, seqId, step).s);
    }
  }

  lemma CompleteSequenceAbsorbed(f: Flow, seqId: Id)
    ensures Absorbed(f.s, CompleteSequence(f, seqId).s)
  {
    hide Rows, Close;
    if f.fault == Clear && seqId in f.s.commands {
      var r := f.s.commands[seqId];
      var r' := if |r.children| > 0 then r.(currentStep := Some(|r.children| - 1)) else r;
      var g := f.(s := Put(f.s, seqId, r'));
      CloseAbsorbed(g, seqId, Succeeded);
      AbsorbedTrans(f.s, g.s, CompleteSequence(f, seqId).s);
    }
  }

  lemma {:induction false} CancelStepsAbsorbed(f: Flow, steps: seq<Id>, i: nat)
    ensures Absorbed(f.s, CancelSteps(f, steps, i).s)
    decreases |steps| - i
  {
    hide Rows, Close;
    assert Absorbed(f.s, f.s);
    if f.fault == Clear && i < |steps| && steps[i] in f.s.commands {
      var g := if Terminal(f.s.commands[steps[i]].state) then f else Close(f, steps[i], Cancelled);
      CloseAbsorbed(f, steps[i], Cancelled);
      CancelStepsAbsorbed(g, steps, i + 1);
      AbsorbedTrans(f.s, g.s, CancelSteps(g, steps, i + 1).s);
    }
  }

  lemma ConcludeAbsorbed(w: World, g: Flow, i: nat)
    requires i < |w.steps|
    ensures Absorbed(g.s, Conclude(w, g, i).s)
  {
    hide Rows, FailSequence;
    FailSequenceAbsorbed(g, w.seqId, w.steps[i]);
  }

  lemma AdvanceAbsorbed(w: World, env: StepEnv)
    ensures Absorbed(w.s, Advance(w, env).s)
  {
    hide Rows, Conclude, Prepare, Issue, Finish, QueryPose, CompleteSequence, FailSequence, GateOpen, IsPoseStep;
    var f := Flow(w.s, Clear);
    assert Absorbed(w.s, w.s);
    match w.pc
    case Ready(i) =>
      if i >= |w.steps| {
        CompleteSequenceAbsorbed(f, w.seqId);
      } else {
        var p := PointAt(f, w.seqId, w.steps[i]);
        assert Absorbed(w.s, p.s);
        PrepareAbsorbed(p, w.steps[i]);
        AbsorbedTrans(w.s, p.s, Prepare(p, w.steps[i]).s);
        ConcludeAbsorbed(w, p, i);
        AbsorbedTrans(w.s, p.s, Conclude(w, p, i).s);
      }
    case Prepared(i) =>
      if i < |w.steps| {
        IssueAbsorbed(f, w.steps[i]);
      }
    case Awaiting(i) =>
      if i < |w.steps| {
        var g := if IsPoseStep(w, i) then QueryPose(f, w.steps[i], env.pose) else Finish(f, w.steps[i], env.ros);
        FinishAbsorbed(f, w.steps[i], env.ros);
        QueryPoseAbsorbed(f, w.steps[i], env.pose);
        ConcludeAbsorbed(w, g, i);
        AbsorbedTrans(w.s, g.s, Conclude(w, g, i).s);
      }
    case Gone =>
  }

  lemma ReactAbsorbed(w: World, turn: Turn)
    ensures Absorbed(w.s, React(w, turn).s)
  {
    hide Rows, Advance, CancelSteps, Close;
    assert Absorbed(w.s, w.s);
    if turn.Stage? {
      AdvanceAbsorbed(w, turn.env);
    } else if w.seqId in w.s.commands {
      CloseAbsorbed(Flow(w.s, Clear), w.seqId, Cancelled);
      var g := CancelSteps(Flow(w.s, Clear), w.s.commands[w.seqId].children, 0);
      CancelStepsAbsorbed(Flow(w.s, Clear), w.s.commands[w.seqId].children, 0);
      CloseAbsorbed(g, w.seqId, Cancelled);
      AbsorbedTrans(w.s, g.s, Close(g, w.seqId, Cancelled).s);
    }
  }

  /** In every interleaving a record that is over stays as it is: no late result, no further
      cancellation and no later stage changes its state or adds to its audit rows. */
  lemma {:induction false} TerminalIsAbsorbing(w: World, turns: seq<Turn>)
    ensures Absorbed(w.s, Play(w, turns).s)
    decreases |turns|
  {
    hide Rows, React, Absorbed;
    if turns == [] {
      AbsorbedRefl(w.s);
    } else {
      var v := React(w, turns[0]);
      ReactAbsorbed(w, turns[0]);
      TerminalIsAbsorbing(v, turns[1..]);
      AbsorbedTrans(w.s, v.s, Play(v, turns[1..]).s);
    }
  }

  lemma AbsorbedRefl(s: Supervisor)
    ensures Absorbed(s, s)
  {
  }

  // ---- what a sequence cancellation stops ----

  ghost predicate Listed(w: World) {
    && w.seqId in w.s.commands && w.s.commands[w.seqId].children == w.steps && w.seqId !in w.steps
    && forall c | c in w.steps :: c in w.s.commands
  }

  /** The thread has not yet recorded a success for the step it is about to take. */
  ghost predicate NextUndone(w: World) {
    w.pc.Ready? && w.pc.i < |w.steps| ==> !StepSucceeded(w.s, w.steps[w.pc.i])
  }

  /** The cancel request takes effect: the sequence is not over, and a step in flight can be aborted. */
  predicate Effective(w: World, abortOk: bool) {
    && w.seqId in w.s.commands && !Terminal(w.s.commands[w.seqId].state)
    && (CurrentStepInFlight(w.s, w.seqId) ==> abortOk)
  }

  /** The sequence and all its steps are over. */
  ghost predicate Quenched(w: World) {
    && Listed(w) && NextUndone(w)
    && Terminal(w.s.commands[w.seqId].state)
    && forall c | c in w.steps :: Terminal(w.s.commands[c].state)
  }

  ghost predicate CancelledOrSame(a: Record, b: Record) {
    b == a || (!Terminal(a.state) && b == Done(a, Cancelled))
  }

  lemma {:induction false} CancelStepsEnds(f: Flow, steps: seq<Id>, i: nat)
    requires f.fault == Clear && forall c | c in steps :: c in f.s.commands
    ensures var g := CancelSteps(f, steps, i);
            && g.fault == Clear && g.s.commands.Keys == f.s.commands.Keys && Sends(g.s.history) == Sends(f.s.history)
            && (forall x | x in f.s.commands :: CancelledOrSame(f.s.commands[x], g.s.commands[x]))
            && (forall x | x in f.s.commands && x !in steps :: g.s.commands[x] == f.s.commands[x])
            && (forall j | i <= j < |steps| :: Terminal(g.s.commands[steps[j]].state))
    decreases |steps| - i
  {
    hide Sends, Close;
    if i < |steps| {
      var r := f.s.commands[steps[i]];
      var g := if Terminal(r.state) then f else Close(f, steps[i], Cancelled);
      if !Terminal(r.state) {
        EveryStateCancels(r.state);
        CloseTouches(f, steps[i], Cancelled);
        CloseSends(f, steps[i], Cancelled);
      }
      CancelStepsEnds(g, steps, i + 1);
    }
  }

  lemma CloseSends(f: Flow, id: Id, final: State)
    ensures Sends(Close(f, id, final).s.history) == Sends(f.s.history)
  {
    hide Sends;
    if f.fault == Clear && id in f.s.commands {
      SendsSnoc(f.s.history, Audit(id, Row(Some(f.s.commands[id].state), final)));
    }
  }

  lemma CancelQuenches(w: World, abortOk: bool)
    requires Listed(w) && NextUndone(w) && Effective(w, abortOk)
    ensures var v := CancelBySequence(w, abortOk);
            && Quenched(v) && v.pc == w.pc && v.seqId == w.seqId && v.steps == w.steps
                && v.s.commands[w.seqId].state == Cancelled
            && (forall c | c in w.steps :: CancelledOrSame(w.s.commands[c], v.s.commands[c]))
            && Sends(v.s.history) == Sends(w.s.history)
  {
    hide Sends, Close, CancelSteps, CurrentStepInFlight;
    var f := Flow(w.s, Clear);
    var g := CancelSteps(f, w.steps, 0);
    CancelStepsEnds(f, w.steps, 0);
    EveryStateCancels(g.s.commands[w.seqId].state);
    CloseTouches(g, w.seqId, Cancelled);
    CloseSends(g, w.seqId, Cancelled);
  }

  /** The final state is written whether or not the transition is allowed. */
  lemma CloseWrites(f: Flow, id: Id, final: State)
    requires f.fault == Clear && id in f.s.commands
    ensures var g := Close(f, id, final);
            var legal := Allowed(f.s.commands[id].state, final);
            && id in g.s.commands && g.s.commands[id].finalState == Some(final)
            && g.s.commands[id].state == (if legal then final else f.s.commands[id].state)
            && g.fault == if legal then Clear else InvalidTransition
  {
  }

  /** No row can be added for a record that is over. */
  lemma StuckMove(f: Flow, id: Id, next: State)
    requires id in f.s.commands && Terminal(f.s.commands[id].state)
    ensures Move(f, id, next).s == f.s && Move(f, id, next).fault != Clear
  {
  }

  lemma StuckClose(f: Flow, id: Id, final: State)
    requires f.fault == Clear && id in f.s.commands && Terminal(f.s.commands[id].state)
    ensures var g := Close(f, id, final);
            && g.fault != Clear && g.s.history == f.s.history && g.s.commands.Keys == f.s.commands.Keys
            && g.s.commands == f.s.commands[id := f.s.commands[id].(finalState := Some(final))]
  {
  }

  /** States, children and the log are unchanged. */
  ghost predicate Still(s: Supervisor, t: Supervisor) {
    && t.commands.Keys == s.commands.Keys && t.history == s.history
    && forall x | x in s.commands ::
         t.commands[x].state == s.commands[x].state && t.commands[x].children == s.commands[x].children
         && t.commands[x].intent == s.commands[x].intent
  }

  lemma StuckFinish(f: Flow, id: Id, ros: RosResult)
    requires f.fault == Clear && id in f.s.commands && Terminal(f.s.commands[id].state)
    ensures var g := Finish(f, id, ros); g.fault != Clear && Still(f.s, g.s)
  {
    hide Close, Move;
    if ros.RosReturns? {
      StuckMove(f, id, Executing);
      StuckClose(f, id, FinalOf(ros.status));
      StuckAfter(Move(f, id, Executing), id, FinalOf(ros.status));
      StuckAfter(SetFinal(Move(f, id, Executing), id, None), id, FinalOf(ros.status));
    }
  }

  lemma StuckAfter(f: Flow, id: Id, final: State)
    requires f.fault != Clear
    ensures Close(f, id, final) == f
  {
  }

  lemma StuckQuery(f: Flow, id: Id, pose: PoseReply)
    requires f.fault == Clear && id in f.s.commands && Terminal(f.s.commands[id].state)
    ensures var g := QueryPose(f, id, pose); g.fault != Clear && Still(f.s, g.s)
  {
    hide Close, Move;
    StuckMove(f, id, Executing);
    StuckAfter(Move(f, id, Executing), id, PoseFinal(pose));
  }

  lemma StuckPrepare(f: Flow, id: Id)
    requires id in f.s.commands && Terminal(f.s.commands[id].state)
    ensures Prepare(f, id).s == f.s && Prepare(f, id).fault != Clear
  {
    hide Move;
    StuckMove(f, id, Confirmed);
    StuckMove(Move(f, id, Confirmed), id, ExecutionRequested);
  }

  lemma StuckFail(f: Flow, seqId: Id, step: Id)
    requires f.fault == Clear && seqId in f.s.commands && step in f.s.commands && Terminal(f.s.commands[seqId].state)
    ensures Still(f.s, FailSequence(f, seqId, step).s)
  {
    hide TouchedIo;
  }

  lemma StuckComplete(f: Flow, seqId: Id)
    requires f.fault == Clear && seqId in f.s.commands && Terminal(f.s.commands[seqId].state)
    ensures Still(f.s, CompleteSequence(f, seqId).s)
  {
    hide Close;
    var r := f.s.commands[seqId];
    var r' := if |r.children| > 0 then r.(currentStep := Some(|r.children| - 1)) else r;
    StuckClose(f.(s := Put(f.s, seqId, r')), seqId, Succeeded);
  }

  lemma QuenchedReady(w: World, env: StepEnv)
    requires Quenched(w) && w.pc.Ready?
    ensures Still(w.s, Advance(w, env).s) && Advance(w, env) == w.(s := Advance(w, env).s, pc := Gone)
  {
    hide Prepare, FailSequence, CompleteSequence, GateOpen, Sends;
    var f := Flow(w.s, Clear);
    if w.pc.i >= |w.steps| {
      StuckComplete(f, w.seqId);
    } else {
      var step := w.steps[w.pc.i];
      assert step in w.steps;
      var p := PointAt(f, w.seqId, step);
      StuckPrepare(p, step);
      StuckFail(p, w.seqId, step);
    }
  }

  lemma QuenchedAwaiting(w: World, env: StepEnv)
    requires Quenched(w) && w.pc.Awaiting?
    ensures Still(w.s, Advance(w, env).s) && Advance(w, env) == w.(s := Advance(w, env).s, pc := Gone)
  {
    hide Finish, QueryPose, Sends, IsPoseStep;
    if w.pc.i < |w.steps| {
      assert w.steps[w.pc.i] in w.steps;
      StuckFinish(Flow(w.s, Clear), w.steps[w.pc.i], env.ros);
      StuckQuery(Flow(w.s, Clear), w.steps[w.pc.i], env.pose);
    }
  }

  lemma StillQuenched(w: World, v: World)
    requires Quenched(w) && Still(w.s, v.s) && v == w.(s := v.s, pc := v.pc) && v.pc.Gone?
    ensures Quenched(v)
  {
  }

  lemma QuenchedStage(w: World, env: StepEnv)
    requires Quenched(w) && !(w.pc.Prepared? && w.pc.i < |w.steps|)
    ensures var v := Advance(w, env);
            Quenched(v) && v.steps == w.steps && v.seqId == w.seqId && !v.pc.Prepared? && Still(w.s, v.s)
  {
    hide Prepare, Finish, QueryPose, FailSequence, CompleteSequence, GateOpen, Conclude, Quenched;
    match w.pc
    case Ready(_) =>
      QuenchedReady(w, env);
      StillQuenched(w, Advance(w, env));
    case Prepared(_) => StillQuenched(w, Advance(w, env));
    case Awaiting(_) =>
      QuenchedAwaiting(w, env);
      StillQuenched(w, Advance(w, env));
    case Gone => StillQuenched(w, Advance(w, env));
  }

  /** The one send that can still happen: the thread had walked a step to EXECUTION_REQUESTED but
      had not handed it over yet. */
  function Residue(w: World, turns: seq<Turn>): seq<Id> {
    if w.pc.Prepared? && w.pc.i < |w.steps| && !IsPoseStep(w, w.pc.i) && (exists turn | turn in turns :: turn.Stage?)
    then [w.steps[w.pc.i]] else []
  }

  lemma {:induction false} QuenchedPlay(w: World, turns: seq<Turn>)
    requires Quenched(w)
    ensures var u := Play(w, turns);
            && Quenched(u) && u.steps == w.steps && u.seqId == w.seqId
            && (forall x | x in w.s.commands :: x in u.s.commands && u.s.commands[x].state == w.s.commands[x].state)
            && Sends(u.s.history) == Sends(w.s.history) + Residue(w, turns)
    decreases |turns|
  {
    hide Advance, Sends, IsPoseStep, CancelJob, Close, CurrentStepInFlight;
    if turns != [] {
      var v := React(w, turns[0]);
      assert turns == [turns[0]] + turns[1..];
      if turns[0].Stage? {
        if w.pc.Prepared? && w.pc.i < |w.steps| {
          HandOver(w, turns[0].env);
        } else {
          QuenchedStage(w, turns[0].env);
        }
      }
      QuenchedPlay(v, turns[1..]);
    }
  }

  lemma HandOver(w: World, env: StepEnv)
    requires Quenched(w) && w.pc.Prepared? && w.pc.i < |w.steps|
    ensures var v := Advance(w, env);
            && Quenched(v) && v.steps == w.steps && v.seqId == w.seqId && v.pc == Awaiting(w.pc.i)
            && v.s.commands == w.s.commands
            && Sends(v.s.history) == Sends(w.s.history) + (if IsPoseStep(w, w.pc.i) then [] else [w.steps[w.pc.i]])
  {
    hide Sends;
    SendsSnoc(w.s.history, Sent(w.steps[w.pc.i]));
  }

  /** Once a sequence's cancellation has taken effect, every step and the sequence are over for good
      and no step is handed to ROS in any continuation, with one exception, stated exactly: a step
      whose confirmation had reached EXECUTION_REQUESTED but not yet the adapter is still sent when
      the thread takes its next stage. */
  lemma CancelSequenceStops(w: World, abortOk: bool, turns: seq<Turn>)
    requires Listed(w) && NextUndone(w) && Effective(w, abortOk)
    ensures var v := CancelBySequence(w, abortOk);
            var u := Play(v, turns);
            && u.seqId == w.seqId && u.steps == w.steps && Listed(u) && u.s.commands[w.seqId].state == Cancelled
            && (forall c | c in w.steps ::
                  u.s.commands[c].state == if Terminal(w.s.commands[c].state) then w.s.commands[c].state else Cancelled)
            && Sends(u.s.history) == Sends(w.s.history) + Residue(v, turns)
  {
    hide Sends, Play, CancelBySequence, Effective, Residue;
    CancelQuenches(w, abortOk);
    QuenchedPlay(CancelBySequence(w, abortOk), turns);
  }

  lemma PointAtPlain(f: Flow, seqId: Id, step: Id)
    requires f.fault == Clear && seqId in f.s.commands && step in f.s.commands
    ensures var g := PointAt(f, seqId, step);
            && g.fault == Clear && g.s.history == f.s.history
            && g.s.commands == f.s.commands[seqId := f.s.commands[seqId].(currentStep := Some(f.s.commands[step].stepIndex))]
  {
  }

  lemma PreparePlain(f: Flow, id: Id)
    requires f.fault == Clear && Waiting(f.s, id)
    ensures var g := Prepare(f, id);
            && g.fault == Clear && Sends(g.s.history) == Sends(f.s.history)
            && g.s.commands == f.s.commands[id := f.s.commands[id].(state := ExecutionRequested)]
  {
    hide Sends;
    var e := Audit(id, Row(Some(NeedsConfirmation), Confirmed));
    SendsSnoc(f.s.history, e);
    SendsSnoc(f.s.history + [e], Audit(id, Row(Some(Confirmed), ExecutionRequested)));
    assert f.s.commands[id := f.s.commands[id].(state := Confirmed)][id := f.s.commands[id].(state := ExecutionRequested)]
        == f.s.commands[id := f.s.commands[id].(state := ExecutionRequested)];
  }

  lemma IssuePlain(f: Flow, id: Id)
    requires f.fault == Clear
    ensures Issue(f, id).s.commands == f.s.commands && Sends(Issue(f, id).s.history) == Sends(f.s.history) + [id]
  {
    hide Sends;
    SendsSnoc(f.s.history, Sent(id));
  }

  // ---- the undisturbed thread is the atomic call ----

  /** The thread alone, reading for each stage what its current step reads. */
  function Alone(w: World, env: nat -> StepEnv, stages: nat): World
    decreases stages
  {
    if stages == 0 || w.pc.Gone? then w else Alone(Advance(w, env(w.pc.i)), env, stages - 1)
  }

  lemma AttemptInStages(w: World, env: StepEnv, i: nat)
    requires w.pc == Ready(i) && i < |w.steps|
    ensures var g := ConfirmInternal(PointAt(Flow(w.s, Clear), w.seqId, w.steps[i]), w.steps[i], env);
            var v := Advance(w, env);
            if v.pc.Prepared? then
              var x := Advance(v, env);
              v.pc == Prepared(i) && x.pc == Awaiting(i) && Advance(x, env) == Conclude(w, g, i)
            else v == Conclude(w, g, i)
  {
    hide Finish, QueryPose, CompleteSequence, FailSequence, GateOpen, StepSucceeded, Prepare, IsPoseQuery, Rows;
    var p := PointAt(Flow(w.s, Clear), w.seqId, w.steps[i]);
    var q := Prepare(p, w.steps[i]);
    if p.fault == Clear && GateOpen(p.s.commands[w.steps[i]], env) && q.fault == Clear {
      PrepareAbsorbed(p, w.steps[i]);
      assert Flow(q.s, Clear) == q;
      var x := Advance(Advance(w, env), env);
      assert Flow(x.s, Clear) == if IsPoseQuery(q.s.commands[w.steps[i]].intent) then q else Issue(q, w.steps[i]);
    }
  }

  /** After an attempt the thread is gone or ready for the next step. */
  lemma AttemptAlone(w: World, env: nat -> StepEnv, i: nat, stages: nat)
    requires w.pc == Ready(i) && i < |w.steps| && stages >= 3
    ensures var y := Conclude(w, ConfirmInternal(PointAt(Flow(w.s, Clear), w.seqId, w.steps[i]), w.steps[i], env(i)), i);
            (y.pc == Gone || y.pc == Ready(i + 1))
            && (Alone(w, env, stages) == Alone(y, env, stages - 1) || Alone(w, env, stages) == Alone(y, env, stages - 3))
  {
    hide Advance, ConfirmInternal, PointAt, FailSequence, StepSucceeded;
    AttemptInStages(w, env(i), i);
    var v := Advance(w, env(i));
    if v.pc.Prepared? {
      var x := Advance(v, env(i));
      assert Alone(v, env, stages - 1) == Alone(x, env, stages - 2);
      assert Alone(x, env, stages - 2) == Alone(Advance(x, env(i)), env, stages - 3);
    }
  }

  /** Three stages per step, uninterrupted, leave the state that `confirm_sequence` leaves when it is
      taken as one step: the atomic model is the undisturbed run of this one. */
  lemma {:induction false} AloneIsAtomic(w: World, env: nat -> StepEnv, i: nat, stages: nat)
    requires w.pc == Ready(i) && i <= |w.steps| && stages >= 3 * (|w.steps| - i) + 1
    ensures Alone(w, env, stages) == w.(s := RunSteps(Flow(w.s, Clear), w.seqId, w.steps, i, env).s, pc := Gone)
    decreases |w.steps| - i
  {
    hide CompleteSequence, FailSequence, ConfirmInternal, PointAt, GateOpen, Prepare, Finish, QueryPose, StepSucceeded;
    if i == |w.steps| {
      assert Alone(w, env, stages) == Alone(Advance(w, env(i)), env, stages - 1);
    } else {
      AttemptAlone(w, env, i, stages);
      var g := ConfirmInternal(PointAt(Flow(w.s, Clear), w.seqId, w.steps[i]), w.steps[i], env(i));
      var y := Conclude(w, g, i);
      if y.pc.Ready? {
        AloneIsAtomic(y, env, i + 1, stages - 1);
        AloneIsAtomic(y, env, i + 1, stages - 3);
      }
    }
  }
}
