/** What each service call does to a state that satisfies the invariant. */
module SupervisorCalls {
  import opened Wrappers
  import opened Lifecycle
  import opened SupervisorModel
  import opened SupervisorInvariants

  lemma TouchTrans(s: Supervisor, t: Supervisor, u: Supervisor, id: Id)
    requires OnlyTouches(s, t, id) && OnlyTouches(t, u, id)
    ensures OnlyTouches(s, u, id)
  {
    assert s.commands[id := t.commands[id]][id := u.commands[id]] == s.commands[id := u.commands[id]];
  }

  lemma PrepareCore(f: Flow, id: Id)
    requires Core(f.s) && f.fault == Clear && Waiting(f.s, id)
    ensures var g := Prepare(f, id);
            && Core(g.s) && g.fault == Clear && OnlyTouches(f.s, g.s, id)
            && g.s.commands[id] == f.s.commands[id].(state := ExecutionRequested)
            && Sends(g.s.history) == Sends(f.s.history)
  {
    hide Core, Sends, Move;
    var m := Move(f, id, Confirmed);
    MoveCore(f, id, Confirmed);
    MoveCore(m, id, ExecutionRequested);
    TouchTrans(f.s, m.s, Prepare(f, id).s, id);
  }

  /** What the adapter promises: success is only reported for a request that reached ROS. */
  predicate Honest(ros: RosResult) {
    ros.RosReturns? && ros.status == StatusSucceeded ==> ros.dispatched
  }

  function FinalOf(status: RosStatus): State {
    match status
    case StatusSucceeded => Succeeded
    case StatusCancelled => Cancelled
    case StatusOther => Failed
  }

  /** The record ends in the final state its status stands for. */
  ghost predicate EndsIn(s: Supervisor, t: Supervisor, id: Id, final: State)
    requires id in s.commands
  {
    && OnlyTouches(s, t, id)
    && Terminal(final)
    && t.commands[id] == s.commands[id].(state := final, finalState := Some(final))
  }

  lemma CloseAfterExecuting(f: Flow, id: Id, final: State)
    requires Core(f.s) && Legal(f, id, Executing) && final in {Succeeded, Failed, Cancelled}
    ensures var g := Close(Move(f, id, Executing), id, final);
            g.fault == Clear && Core(g.s) && EndsIn(f.s, g.s, id, final) && Sends(g.s.history) == Sends(f.s.history)
  {
    hide Core, Sends, Move, Close;
    var m := Move(f, id, Executing);
    MoveCore(f, id, Executing);
    CloseCore(m, id, final);
    TouchTrans(f.s, m.s, Close(m, id, final).s, id);
  }

  lemma FinishCore(f: Flow, id: Id, ros: RosResult)
    requires Core(f.s) && f.fault == Clear && id in f.s.commands && f.s.commands[id].state == ExecutionRequested
    requires Honest(ros)
    ensures var g := Finish(f, id, ros);
            && Core(g.s) && Sends(g.s.history) == Sends(f.s.history)
            && (ros.RosRaises? ==> g == f.(fault := AdapterRaised))
            && (ros.RosReturns? ==> g.fault == Clear && EndsIn(f.s, g.s, id, FinalOf(ros.status)))
  {
    if ros.RosReturns? {
      var final := FinalOf(ros.status);
      var m := Move(f, id, Executing);
      MoveCore(f, id, Executing);
      assert Finalised(m.s.commands[id]);
      assert SetFinal(m, id, None) == m by {
        assert m.s.commands[id := m.s.commands[id].(finalState := None)] == m.s.commands;
      }
      if ros.dispatched || ros.status == StatusCancelled {
        CloseAfterExecuting(f, id, final);
      } else {
        CloseCore(f, id, final);
      }
    }
  }

  function PoseFinal(pose: PoseReply): State {
    if pose == PoseKnown then Succeeded else Failed
  }

  lemma QueryPoseCore(f: Flow, id: Id, pose: PoseReply)
    requires Core(f.s) && f.fault == Clear && id in f.s.commands
    requires f.s.commands[id].state == Validating || f.s.commands[id].state == ExecutionRequested
    ensures var g := QueryPose(f, id, pose);
            && Core(g.s) && Sends(g.s.history) == Sends(f.s.history)
            && (pose == PoseRaises ==> g == f.(fault := AdapterRaised))
            && (pose != PoseRaises ==> g.fault == Clear && EndsIn(f.s, g.s, id, PoseFinal(pose)))
  {
    if pose == PoseRaises {
    } else if f.s.commands[id].state == Validating {
      assert QueryPose(f, id, pose) == Close(f, id, PoseFinal(pose));
      CloseCore(f, id, PoseFinal(pose));
    } else {
      assert QueryPose(f, id, pose) == Close(Move(f, id, Executing), id, PoseFinal(pose));
      CloseAfterExecuting(f, id, PoseFinal(pose));
    }
  }

  /** The final state an execution attempt leads to, when its service calls return. */
  function AttemptFinal(r: Record, env: StepEnv): (final: Option<State>)
    ensures final.Some? ==> final.value == Succeeded || final.value == Failed || final.value == Cancelled
  {
    if IsPoseQuery(r.intent) then
      (match env.pose case PoseRaises => None case NoPose => Some(Failed) case PoseKnown => Some(Succeeded))
    else
      match env.ros case RosRaises => None case RosReturns(status, _) => Some(FinalOf(status))
  }

  /** What an execution attempt on a waiting record does.  A shut gate changes nothing.  An open
      gate hands the record to ROS once, unless it is a pose query, and ends it in the final state
      reported; a service call that raises leaves it at EXECUTION_REQUESTED. */
  ghost predicate Attempted(f: Flow, g: Flow, id: Id, env: StepEnv)
    requires id in f.s.commands
  {
    var r := f.s.commands[id];
    if !GateOpen(r, env) then g == f
    else
      && Sends(g.s.history) == Sends(f.s.history) + (if IsPoseQuery(r.intent) then [] else [id])
      && (match AttemptFinal(r, env)
          case None =>
            g.fault == AdapterRaised && OnlyTouches(f.s, g.s, id) && g.s.commands[id] == r.(state := ExecutionRequested)
          case Some(final) => g.fault == Clear && EndsIn(f.s, g.s, id, final))
  }

  lemma IssueCore(f: Flow, id: Id)
    requires Core(f.s) && f.fault == Clear && id in f.s.commands && f.s.commands[id].state == ExecutionRequested
    requires id !in Sends(f.s.history) && ParentRuns(f.s, id)
    ensures var g := Issue(f, id);
            && Core(g.s) && g.fault == Clear && OnlyTouches(f.s, g.s, id) && g.s.commands == f.s.commands
            && Sends(g.s.history) == Sends(f.s.history) + [id]
  {
    hide Sound, Families, SingleJob;
    var t := Issue(f, id).s;
    IssueSound(f, id);
    assert f.s.commands[id := f.s.commands[id]] == f.s.commands;
    assert Finalised(f.s.commands[id]);
    TouchCore(f.s, t, id);
  }

  lemma SendCore(f: Flow, id: Id, ros: RosResult)
    requires Core(f.s) && f.fault == Clear && id in f.s.commands && f.s.commands[id].state == ExecutionRequested
    requires id !in Sends(f.s.history) && ParentRuns(f.s, id) && Honest(ros)
    ensures var g := Finish(Issue(f, id), id, ros);
            && Core(g.s) && Sends(g.s.history) == Sends(f.s.history) + [id]
            && (ros.RosRaises? ==> g.fault == AdapterRaised && OnlyTouches(f.s, g.s, id) && g.s.commands == f.s.commands)
            && (ros.RosReturns? ==> g.fault == Clear && EndsIn(f.s, g.s, id, FinalOf(ros.status)))
  {
    var k := Issue(f, id);
    IssueCore(f, id);
    FinishCore(k, id, ros);
  }

  lemma AttemptedVia(f: Flow, p: Flow, g: Flow, id: Id, env: StepEnv, final: Option<State>)
    requires id in f.s.commands && GateOpen(f.s.commands[id], env)
    requires OnlyTouches(f.s, p.s, id) && p.s.commands[id] == f.s.commands[id].(state := ExecutionRequested)
    requires final == AttemptFinal(f.s.commands[id], env)
    requires Sends(g.s.history) == Sends(f.s.history) + (if IsPoseQuery(f.s.commands[id].intent) then [] else [id])
    requires final.None? ==> g.fault == AdapterRaised && OnlyTouches(p.s, g.s, id) && g.s.commands == p.s.commands
    requires final.Some? ==> g.fault == Clear && EndsIn(p.s, g.s, id, final.value)
    ensures Attempted(f, g, id, env)
  {
    TouchTrans(f.s, p.s, g.s, id);
  }

  lemma TouchSelf(s: Supervisor, id: Id)
    requires id in s.commands
    ensures OnlyTouches(s, s, id)
  {
    assert s.commands[id := s.commands[id]] == s.commands;
  }

  lemma WaitingIsUnsent(s: Supervisor, id: Id)
    requires Core(s) && Waiting(s, id)
    ensures id !in Sends(s.history)
  {
    hide Sends, Families, SingleJob, Finals, Audited, Ordered;
  }

  /** The first half of an attempt, with what the second half needs to know. */
  lemma PreparedToSend(f: Flow, id: Id)
    requires Core(f.s) && f.fault == Clear && Waiting(f.s, id) && ParentRuns(f.s, id)
    ensures var p := Prepare(f, id);
            && Core(p.s) && p.fault == Clear && OnlyTouches(f.s, p.s, id)
            && p.s.commands[id] == f.s.commands[id].(state := ExecutionRequested)
            && Sends(p.s.history) == Sends(f.s.history)
            && id !in Sends(p.s.history) && ParentRuns(p.s, id)
  {
    hide Core, Sends, Prepare;
    WaitingIsUnsent(f.s, id);
    PrepareCore(f, id);
  }

  lemma ExecuteCore(f: Flow, id: Id, env: StepEnv)
    requires Core(f.s) && f.fault == Clear && Waiting(f.s, id) && ParentRuns(f.s, id) && Honest(env.ros)
    requires GateOpen(f.s.commands[id], env)
    ensures Core(Execute(f, id, env).s)
    ensures Attempted(f, Execute(f, id, env), id, env)
  {
    hide Core, Sends, Prepare, Finish, QueryPose, Issue, Honest, IsPoseQuery, ParentRuns, Attempted, GateOpen;
    var p := Prepare(f, id);
    var g := Execute(f, id, env);
    PreparedToSend(f, id);
    TouchSelf(p.s, id);
    if IsPoseQuery(f.s.commands[id].intent) {
      QueryPoseCore(p, id, env.pose);
    } else {
      SendCore(p, id, env.ros);
    }
    AttemptedVia(f, p, g, id, env, AttemptFinal(f.s.commands[id], env));
  }

  lemma ConfirmInternalCore(f: Flow, id: Id, env: StepEnv)
    requires Core(f.s) && f.fault == Clear && Waiting(f.s, id) && ParentRuns(f.s, id) && Honest(env.ros)
    ensures Core(ConfirmInternal(f, id, env).s)
    ensures Attempted(f, ConfirmInternal(f, id, env), id, env)
  {
    if GateOpen(f.s.commands[id], env) {
      ExecuteCore(f, id, env);
    }
  }
}
