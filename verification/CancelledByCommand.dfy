/** A sequence under confirmation that is cancelled by `cancel_command`, which checks the parent of a
    record but not its kind: exactly when its steps are still handed to ROS. */
module CancelledByCommand {
  import opened Wrappers
  import opened Lifecycle
  import opened Validation
  import opened SupervisorModel
  import opened SupervisorInvariants
  import opened SupervisorCalls
  import opened SequenceRuns
  import opened CallEffects
  import opened Interleaving
  import opened WaitingRecords
  import opened StageFrames

  ghost predicate StepsWaitFrom(w: World, i: nat) {
    forall j: nat | i <= j < |w.steps| :: Waiting(w.s, w.steps[j]) && w.s.commands[w.steps[j]].finalState.None?
  }

  ghost predicate Requested(w: World, i: nat) {
    i < |w.steps| && w.steps[i] in w.s.commands && w.s.commands[w.steps[i]].state == ExecutionRequested
  }

  /** The thread has a step at its execution boundary exactly when it is between its stages, and the
      steps it has not reached yet wait. */
  ghost predicate Underway(w: World) {
    && Listed(w) && Distinct(w.steps) && (forall c | c in w.steps :: Runnable(w.s.commands[c]))
    && match w.pc
       case Ready(i) => StepsWaitFrom(w, i)
       case Prepared(i) => Requested(w, i) && StepsWaitFrom(w, i + 1)
       case Awaiting(i) => Requested(w, i) && StepsWaitFrom(w, i + 1)
       case Gone => true
  }

  lemma UnderwayListed(w: World)
    requires Underway(w)
    ensures Listed(w)
  {
  }

  /** Readings that open the gate for the record, and answers that let its execution succeed. */
  function FairEnv(r: Record): StepEnv {
    StepEnv(Runtime(r.mode, Normal), Sensors([], Preflight(true, [])), RosReturns(StatusSucceeded, true), PoseKnown)
  }

  lemma FairOpens(r: Record)
    requires Runnable(r)
    ensures GateOpen(r, FairEnv(r)) && Honest(FairEnv(r).ros)
  {
    var env := FairEnv(r);
    CommandGateExactly(env.runtime, env.sensors, true, r.mode, true);
  }

  /** The first half of an attempt on a waiting step behind an open gate. */
  lemma ReadyPrepares(w: World, env: StepEnv)
    requires Listed(w) && w.pc.Ready? && w.pc.i < |w.steps| && Waiting(w.s, w.steps[w.pc.i])
    requires GateOpen(w.s.commands[w.steps[w.pc.i]], env)
    ensures var v := Advance(w, env);
            v.pc == Prepared(w.pc.i) && Requested(v, w.pc.i) && v.steps == w.steps
  {
    hide GateOpen, Sends, Prepare, PointAt;
    var step := w.steps[w.pc.i];
    assert step in w.steps;
    var p := PointAt(Flow(w.s, Clear), w.seqId, step);
    PointAtPlain(Flow(w.s, Clear), w.seqId, step);
    PreparePlain(p, step);
  }

  /** A shut gate prepares nothing. */
  lemma ShutPreparesNothing(w: World, env: StepEnv)
    requires Listed(w) && w.pc.Ready? && w.pc.i < |w.steps| && !GateOpen(w.s.commands[w.steps[w.pc.i]], env)
    ensures !Advance(w, env).pc.Prepared?
  {
    hide GateOpen, Sends, Prepare, PointAt, FailSequence, StepSucceeded;
    assert w.steps[w.pc.i] in w.steps;
    PointAtPlain(Flow(w.s, Clear), w.seqId, w.steps[w.pc.i]);
  }

  /** The second half, when everything goes well. */
  lemma AwaitingSucceeds(w: World, env: StepEnv)
    requires w.pc.Awaiting? && Requested(w, w.pc.i)
    requires env.ros == RosReturns(StatusSucceeded, true) && env.pose == PoseKnown
    ensures Advance(w, env).pc == Ready(w.pc.i + 1)
  {
    hide Sends, IsPoseQuery;
  }

  lemma RunnableKept(w: World, env: StepEnv)
    requires Listed(w) && forall c | c in w.steps :: Runnable(w.s.commands[c])
    ensures var v := Advance(w, env); forall c | c in w.steps :: c in v.s.commands && Runnable(v.s.commands[c])
  {
    hide Advance, Rows;
    AdvanceAbsorbed(w, env);
  }

  /** No stage disturbs that. */
  lemma UnderwayKept(w: World, env: StepEnv)
    requires Underway(w)
    ensures Underway(Advance(w, env))
  {
    hide Sends, Advance, Rows, IsPoseStep, Runnable, Listed;
    UnderwayListed(w);
    ListedKept(w, Stage(env));
    RunnableKept(w, env);
    StageFrame(w, env);
    var v := Advance(w, env);
    StagePlaces(w, env);
    forall j: nat | j < |w.steps| && !w.pc.Gone? && j != w.pc.i
      ensures v.s.commands[w.steps[j]] == w.s.commands[w.steps[j]]
    {
      assert w.s.commands[w.steps[j]] == v.s.commands[w.steps[j]] by {
        IndexIsListed(w, j);
      }
    }
  }

  lemma IndexIsListed(w: World, j: nat)
    requires Listed(w) && j < |w.steps|
    ensures w.steps[j] in w.s.commands && w.steps[j] != w.seqId
  {
    assert w.steps[j] in w.steps;
  }

  /** Where a stage can lead. */
  lemma StagePlaces(w: World, env: StepEnv)
    requires Underway(w)
    ensures var v := Advance(w, env);
            match w.pc
            case Ready(i) =>
              v.pc.Gone? || (i < |w.steps| && (v.pc == Ready(i + 1) || (v.pc == Prepared(i) && Requested(v, i))))
            case Prepared(i) => v.pc == Awaiting(i) && Requested(v, i)
            case Awaiting(i) => v.pc.Gone? || v.pc == Ready(i + 1)
            case Gone => v == w
  {
    hide GateOpen, Sends, Prepare, PointAt, FailSequence, StepSucceeded, Finish, QueryPose, CompleteSequence;
    if w.pc.Ready? && w.pc.i < |w.steps| {
      var step := w.steps[w.pc.i];
      assert step in w.steps;
      PointAtPlain(Flow(w.s, Clear), w.seqId, step);
      if GateOpen(w.s.commands[step], env) {
        ReadyPrepares(w, env);
      }
    }
  }

  ghost predicate FairTurns(turns: seq<Turn>) {
    forall turn | turn in turns :: turn.Stage? && Honest(turn.env.ros)
  }

  /** A step ahead that is no pose query is reached, or another one is sent before it. */
  lemma {:induction false} ReachesSend(w: World, j: nat) returns (turns: seq<Turn>)
    requires Underway(w) && Ahead(w.pc, j) && Sendable(w, j)
    ensures FairTurns(turns) && Sends(Play(w, turns).s.history) != Sends(w.s.history)
    decreases |w.steps| - w.pc.i, if w.pc.Ready? then 2 else if w.pc.Prepared? then 1 else 0
  {
    hide Sends, Advance, Underway, Rows, IsPoseStep, Honest, Listed, Runnable;
    var env := FairEnv(w.s.commands[w.steps[w.pc.i]]) by { IndexListed(w, j); }
    var v := Advance(w, env);
    FairStage(w, j, env);
    UnderwayKept(w, env);
    if HandedNow(w) != [] {
      turns := [Stage(env)];
      assert Play(w, turns) == v;
    } else {
      var rest := ReachesSend(v, j);
      turns := [Stage(env)] + rest;
      assert turns[1..] == rest;
    }
  }

  lemma IndexListed(w: World, j: nat)
    requires Underway(w) && Ahead(w.pc, j) && Sendable(w, j)
    ensures w.pc.i < |w.steps| && w.steps[w.pc.i] in w.s.commands && Runnable(w.s.commands[w.steps[w.pc.i]])
  {
    assert w.steps[w.pc.i] in w.steps;
  }

  /** Where the thread stands after a stage in which everything goes well. */
  function NextPlace(pc: Pc): Pc {
    match pc
    case Ready(i) => Prepared(i)
    case Prepared(i) => Awaiting(i)
    case Awaiting(i) => Ready(i + 1)
    case Gone => Gone
  }

  lemma FairStage(w: World, j: nat, env: StepEnv)
    requires Underway(w) && Ahead(w.pc, j) && Sendable(w, j)
    requires w.pc.i < |w.steps| && w.steps[w.pc.i] in w.s.commands && env == FairEnv(w.s.commands[w.steps[w.pc.i]])
    ensures var v := Advance(w, env);
            && Honest(env.ros) && Sendable(v, j) && v.steps == w.steps
            && Sends(v.s.history) == Sends(w.s.history) + HandedNow(w)
            && (HandedNow(w) == [] ==> Ahead(v.pc, j))
            && v.pc == NextPlace(w.pc)
  {
    hide Sends, Advance, IsPoseStep, GateOpen, Runnable;
    IndexListed(w, j);
    FairOpens(w.s.commands[w.steps[w.pc.i]]);
    ListedKept(w, Stage(env));
    StagePlaces(w, env);
    if w.pc.Ready? {
      ReadyPrepares(w, env);
    } else if w.pc.Awaiting? {
      AwaitingSucceeds(w, env);
    }
  }

  /** Cancelling the sequence as a command touches its record alone. */
  lemma CommandCancelTouches(w: World)
    requires Listed(w) && w.s.commands[w.seqId].state == Executing
    ensures var v := CancelByCommand(w, true);
            && v == w.(s := v.s) && v.s.commands == w.s.commands[w.seqId := Done(w.s.commands[w.seqId], Cancelled)]
            && Sends(v.s.history) == Sends(w.s.history)
  {
    hide Sends, Close;
    CloseTouches(Flow(w.s, Clear), w.seqId, Cancelled);
    CloseSends(Flow(w.s, Clear), w.seqId, Cancelled);
  }

  lemma CommandCancelListed(w: World)
    requires Listed(w) && w.s.commands[w.seqId].state == Executing
    ensures var v := CancelByCommand(w, true);
            && Listed(v) && (forall c | c in w.steps :: v.s.commands[c] == w.s.commands[c])
            && (forall j: nat :: Sendable(v, j) == Sendable(w, j))
  {
    hide Sends, CancelByCommand, IsPoseQuery;
    CommandCancelTouches(w);
    assert forall c | c in w.steps :: c != w.seqId;
    assert forall j: nat | j < |w.steps| :: w.steps[j] in w.steps;
  }

  lemma CommandCancelUnderway(w: World)
    requires Underway(w) && w.s.commands[w.seqId].state == Executing
    ensures var v := CancelByCommand(w, true);
            && Underway(v) && (forall j: nat :: Sendable(v, j) == Sendable(w, j))
  {
    hide Sends, CancelByCommand, Runnable, Sendable;
    CommandCancelTouches(w);
    CommandCancelListed(w);
    assert forall j: nat | j < |w.steps| :: w.steps[j] in w.steps;
  }

  /** Before a waiting step: after the cancellation the thread's next two stages send that step exactly
      when its gate opens and it is no pose query. */
  lemma NextStepSentExactly(w: World, env: StepEnv)
    requires Listed(w) && w.s.commands[w.seqId].state == Executing
    requires w.pc.Ready? && w.pc.i < |w.steps| && Waiting(w.s, w.steps[w.pc.i])
    ensures var step := w.s.commands[w.steps[w.pc.i]];
            var u := Play(w, [CommandCancel(true), Stage(env), Stage(env)]);
            && w.seqId in u.s.commands && u.s.commands[w.seqId].state == Cancelled
            && Sends(u.s.history) == Sends(w.s.history)
                 + if GateOpen(step, env) && !IsPoseQuery(step.intent) then [w.steps[w.pc.i]] else []
  {
    hide Sends, Advance, CancelByCommand, GateOpen, IsPoseQuery, Rows;
    var step := w.steps[w.pc.i];
    assert step in w.steps;
    var v := CancelByCommand(w, true);
    CommandCancelTouches(w);
    CommandCancelListed(w);
    var x := Advance(v, env);
    ListedKept(v, Stage(env));
    ListedKept(x, Stage(env));
    if GateOpen(w.s.commands[step], env) {
      ReadyPrepares(v, env);
    } else {
      ShutPreparesNothing(v, env);
    }
    assert Sendable(x, w.pc.i) == Sendable(w, w.pc.i);
    TwoStages(w, env);
    AdvanceAbsorbed(v, env);
    AdvanceAbsorbed(x, env);
  }

  lemma TwoStages(w: World, env: StepEnv)
    ensures Play(w, [CommandCancel(true), Stage(env), Stage(env)]) == Advance(Advance(CancelByCommand(w, true), env), env)
  {
    hide Advance, CancelByCommand;
    var two := [Stage(env), Stage(env)];
    var v := CancelByCommand(w, true);
    assert [CommandCancel(true), Stage(env), Stage(env)][1..] == two && two[1..] == [Stage(env)];
    assert Play(Advance(v, env), [Stage(env)]) == Advance(Advance(v, env), env);
    assert Play(v, two) == Play(Advance(v, env), [Stage(env)]);
  }

  /** An accepted `cancel_command` on the id of a sequence being confirmed ends its record at once.
      Something is sent after it in some continuation exactly when a step that is no pose query still
      lies ahead of the thread; otherwise nothing is sent in any. */
  lemma CancelByCommandStopsExactly(w: World)
    requires Underway(w) && w.s.commands[w.seqId].state == Executing
    ensures var v := CancelByCommand(w, true);
            && w.seqId in v.s.commands && v.s.commands[w.seqId].state == Cancelled
            && ((exists turns :: FairTurns(turns) && Sends(Play(v, turns).s.history) != Sends(w.s.history)) <==> SendAhead(w))
            && (SendAhead(w) || forall turns :: Sends(Play(v, turns).s.history) == Sends(w.s.history))
  {
    hide Sends, Underway, Play, CancelByCommand, Ahead, Sendable, FairTurns;
    var v := CancelByCommand(w, true);
    UnderwayListed(w);
    CommandCancelTouches(w);
    CommandCancelUnderway(w);
    UnderwayListed(v);
    if SendAhead(w) {
      var j: nat :| Ahead(w.pc, j) && Sendable(w, j);
      var turns := ReachesSend(v, j);
    } else {
      forall j: nat ensures !(Ahead(v.pc, j) && Sendable(v, j)) {
        assert !(Ahead(w.pc, j) && Sendable(w, j));
      }
      forall turns ensures Sends(Play(v, turns).s.history) == Sends(w.s.history) {
        NothingAhead(v, turns);
      }
    }
  }

  lemma SequenceCancelEnds(w: World, abortOk: bool)
    requires Listed(w) && Effective(w, abortOk)
    ensures var v := CancelBySequence(w, abortOk);
            w.seqId in v.s.commands && v.s.commands[w.seqId].state == Cancelled
  {
    hide Sends, Close, CancelSteps, CurrentStepInFlight;
    var f := Flow(w.s, Clear);
    var g := CancelSteps(f, w.steps, 0);
    CancelStepsEnds(f, w.steps, 0);
    EveryStateCancels(g.s.commands[w.seqId].state);
    CloseTouches(g, w.seqId, Cancelled);
  }

  lemma TurnUnderway(w: World, turn: Turn)
    requires Underway(w)
    ensures var v := React(w, turn); Underway(v) || (w.seqId in v.s.commands && Terminal(v.s.commands[w.seqId].state))
  {
    hide Sends, Underway, Advance, Close, CancelJob, CurrentStepInFlight;
    UnderwayListed(w);
    match turn
    case Stage(env) => UnderwayKept(w, env);
    case SequenceCancel(ok) =>
      if Effective(w, ok) {
        SequenceCancelEnds(w, ok);
      }
    case CommandCancel(ok) =>
      if CancelByCommand(w, ok) != w {
        EveryStateCancels(w.s.commands[w.seqId].state);
        CloseTouches(Flow(w.s, Clear), w.seqId, Cancelled);
      }
  }

  /** In every interleaving a confirmation that was under way is under way still, or its sequence is
      over. */
  lemma {:induction false} RunningIsUnderway(w: World, turns: seq<Turn>)
    requires Underway(w)
    ensures var u := Play(w, turns); Underway(u) || (w.seqId in u.s.commands && Terminal(u.s.commands[w.seqId].state))
    decreases |turns|
  {
    hide Underway, React, Rows;
    if turns != [] {
      var v := React(w, turns[0]);
      TurnUnderway(w, turns[0]);
      UnderwayListed(w);
      ListedKept(w, turns[0]);
      if Underway(v) {
        RunningIsUnderway(v, turns[1..]);
      } else {
        TerminalIsAbsorbing(v, turns[1..]);
      }
    }
  }
}
