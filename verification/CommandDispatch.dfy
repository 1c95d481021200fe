/** The execution boundary (hmi/backend/ros/command_dispatch.py): which answers `confirm_command`
    can give, and what the goal-handle table looks like around a dispatch.  Every ROS interaction is
    a field of the environment. */
module CommandDispatch {
  import opened Wrappers
  import opened Validation
  import opened SupervisorModel
  import SupervisorCalls

  datatype Status = Blocked | Succeeded | Failed | Cancelled

  datatype Response = Response(accepted: bool, status: Status, dispatchedToRos: bool)

  /** A response, or an exception that escapes the adapter. */
  datatype Answer = Answered(response: Response) | Escaped

  datatype GoalReply = SendRaises | GoalRefused | GoalAccepted(handle: nat)

  datatype ResultReply = ResultRaises | NoPayload | Payload(success: bool, message: string)

  /** What the action server answers to a cancel request: the goals it is cancelling. */
  datatype CancelReply = CancelRaises | CancelAnswered(goalsCanceling: nat)

  datatype FactoryReply = FactoryRaises | FactoryDone(accepted: bool)

  /** A check in front of ROS: it passes, it refuses, or its own exception escapes. */
  datatype Check = Passed | Refused | Raises

  datatype AdapterEnv = AdapterEnv(
    runtimeMode: Mode, requestedMode: Option<Mode>, preflight: Check,
    hasIntent: bool, payload: Check, validation: Check,
    isFactoryTask: bool, factory: FactoryReply,
    nodeAvailable: bool, clientReady: bool, server: Check, goalBuilds: bool,
    goal: GoalReply, result: ResultReply)

  function Lower(text: string): string {
    seq(|text|, i requires 0 <= i < |text| =>
      if 'A' <= text[i] <= 'Z' then ((text[i] as int) - ('A' as int) + ('a' as int)) as char else text[i])
  }

  /** The message with which a failed goal reports a cancellation. */
  predicate SaysCancel(message: string) {
    Mentions(Lower(if message == "" then "ExecuteMotion failed." else message), "cancel")
  }

  const BLOCKED := Answered(Response(false, Blocked, false))

  /** What happens once the goal is accepted. */
  function ResultOf(result: ResultReply): Response {
    match result
    case ResultRaises => Response(false, Failed, true)
    case NoPayload => Response(false, Failed, true)
    case Payload(success, message) =>
      if success then Response(true, Succeeded, true)
      else if SaysCancel(message) then Response(false, Cancelled, true)
      else Response(false, Failed, true)
  }

  predicate ModesAgree(env: AdapterEnv) {
    env.requestedMode.Some? ==> env.requestedMode.value == env.runtimeMode
  }

  /** The chain of gates in front of ROS. */
  predicate Passes(env: AdapterEnv) {
    ModesAgree(env) && env.preflight == Passed && env.hasIntent && env.payload == Passed && env.validation == Passed
  }

  predicate ReachesServer(env: AdapterEnv) {
    env.nodeAvailable && env.clientReady && env.server == Passed
  }

  /** The action server takes the goal, and its result is awaited. */
  predicate Accepts(env: AdapterEnv) {
    Passes(env) && !env.isFactoryTask && ReachesServer(env) && env.goalBuilds && env.goal.GoalAccepted?
  }

  function Dispatch(env: AdapterEnv): Answer {
    if !env.nodeAvailable || !env.clientReady || env.server == Refused then BLOCKED
    else if env.server == Raises || !env.goalBuilds then Escaped
    else
      match env.goal
      case SendRaises => Answered(Response(false, Failed, false))
      case GoalRefused => BLOCKED
      case GoalAccepted(_) => Answered(ResultOf(env.result))
  }

  function Confirm(env: AdapterEnv): Answer {
    if !ModesAgree(env) || env.preflight == Refused then BLOCKED
    else if env.preflight == Raises then Escaped
    else if !env.hasIntent || env.payload == Refused then BLOCKED
    else if env.payload == Raises then Escaped
    else if env.validation == Refused then BLOCKED
    else if env.validation == Raises then Escaped
    else if env.isFactoryTask then
      match env.factory
      case FactoryRaises => Escaped
      case FactoryDone(ok) => Answered(Response(ok, if ok then Succeeded else Failed, true))
    else Dispatch(env)
  }

  /** The adapter object: its two goal tables change while a dispatch is under way. */
  class CommandDispatcher {
    var goalHandles: map<Id, nat>
    var goalCorrelationIds: map<Id, string>

    constructor ()
      ensures goalHandles == map[] && goalCorrelationIds == map[]
    {
      goalHandles, goalCorrelationIds := map[], map[];
    }

    /** The whole call.  No table entry outlives the dispatch that made it, however it ends. */
    method ConfirmCommand(id: Id, correlationId: string, env: AdapterEnv) returns (answer: Answer)
      modifies this
      ensures answer == Confirm(env)
      ensures goalHandles == if Accepts(env) then old(goalHandles) - {id} else old(goalHandles)
      ensures goalCorrelationIds == if Accepts(env) then old(goalCorrelationIds) - {id} else old(goalCorrelationIds)
    {
      var early := SendGoal(id, correlationId, env);
      if early.Some? {
        return early.value;
      }
      answer := CollectResult(id, env.result);
      assert goalHandles == old(goalHandles) - {id};
      assert goalCorrelationIds == old(goalCorrelationIds) - {id};
    }

    /** Up to the wait for the result: the gates and the hand-over.  During the wait another thread finds
        the goal's handle in the table exactly when the server took the goal. */
    method SendGoal(id: Id, correlationId: string, env: AdapterEnv) returns (early: Option<Answer>)
      modifies this
      ensures early == if Accepts(env) then None else Some(Confirm(env))
      ensures goalHandles == if Accepts(env) then old(goalHandles)[id := env.goal.handle] else old(goalHandles)
      ensures goalCorrelationIds == if Accepts(env) then old(goalCorrelationIds)[id := correlationId] else old(goalCorrelationIds)
    {
      if env.requestedMode.Some? && env.requestedMode.value != env.runtimeMode {
        return Some(BLOCKED);
      }
      if env.preflight != Passed {
        return Some(if env.preflight == Raises then Escaped else BLOCKED);
      }
      if !env.hasIntent {
        return Some(BLOCKED);
      }
      if env.payload != Passed {
        return Some(if env.payload == Raises then Escaped else BLOCKED);
      }
      if env.validation != Passed {
        return Some(if env.validation == Raises then Escaped else BLOCKED);
      }
      if env.isFactoryTask {
        match env.factory
        case FactoryRaises => return Some(Escaped);
        case FactoryDone(ok) => return Some(Answered(Response(ok, if ok then Succeeded else Failed, true)));
      }
      if !env.nodeAvailable {
        return Some(BLOCKED);
      }
      if !env.clientReady {
        return Some(BLOCKED);
      }
      if env.server != Passed {
        return Some(if env.server == Raises then Escaped else BLOCKED);
      }
      if !env.goalBuilds {
        return Some(Escaped);
      }
      match env.goal
      case SendRaises => return Some(Answered(Response(false, Failed, false)));
      case GoalRefused => return Some(BLOCKED);
      case GoalAccepted(handle) =>
        goalHandles := goalHandles[id := handle];
        goalCorrelationIds := goalCorrelationIds[id := correlationId];
        return None;
    }

    /** The result arrives, or the wait for it raises; the goal leaves the tables either way. */
    method CollectResult(id: Id, result: ResultReply) returns (answer: Answer)
      modifies this
      ensures answer == Answered(ResultOf(result))
      ensures goalHandles == old(goalHandles) - {id} && goalCorrelationIds == old(goalCorrelationIds) - {id}
    {
      var response := AwaitResult(result);
      goalHandles := goalHandles - {id};
      goalCorrelationIds := goalCorrelationIds - {id};
      return Answered(response);
    }

    method AwaitResult(result: ResultReply) returns (response: Response)
      ensures response == ResultOf(result)
    {
      match result
      case ResultRaises => return Response(false, Failed, true);
      case NoPayload => return Response(false, Failed, true);
      case Payload(success, message) =>
        if success {
          return Response(true, Succeeded, true);
        }
        if SaysCancel(message) {
          return Response(false, Cancelled, true);
        }
        return Response(false, Failed, true);
    }

    /** Without a goal under way an abort succeeds without asking ROS; otherwise the action server must
        take the cancellation, and an exception of the request counts as a refusal. */
    method AbortCommand(id: Id, reply: CancelReply) returns (ok: bool)
      ensures ok <==> id !in goalHandles || (reply.CancelAnswered? && reply.goalsCanceling > 0)
    {
      if id !in goalHandles {
        return true;
      }
      match reply
      case CancelRaises => return false;
      case CancelAnswered(n) => return n > 0;
    }
  }

  /** Success and cancellation are only reported for a request that reached ROS, a blocked request
      never did, accepted means succeeded, and an accepted goal is always answered. */
  lemma ContractOfConfirm(env: AdapterEnv)
    ensures Accepts(env) ==> Confirm(env).Answered?
    ensures Confirm(env).Answered? ==>
              var r := Confirm(env).response;
              && (r.status == Succeeded || r.status == Cancelled ==> r.dispatchedToRos)
              && (r.status == Blocked ==> !r.dispatchedToRos)
              && (r.accepted <==> r.status == Succeeded)
              && (r.dispatchedToRos <==> Accepts(env) || (Passes(env) && env.isFactoryTask))
  {
  }

  /** The word a message reports a cancellation with, in any case of its letters. */
  ghost predicate SpellsCancel(message: string) {
    exists i | 0 <= i && i + 6 <= |message| :: SpellsCancelAt(message, i)
  }

  predicate SpellsCancelAt(message: string, i: nat)
    requires i + 6 <= |message|
  {
    && message[i] in "cC" && message[i + 1] in "aA" && message[i + 2] in "nN"
    && message[i + 3] in "cC" && message[i + 4] in "eE" && message[i + 5] in "lL"
  }

  lemma LowerLetters(message: string, j: nat)
    requires j < |message|
    ensures var low := Lower(message);
            && (low[j] == 'c' <==> message[j] in "cC") && (low[j] == 'a' <==> message[j] in "aA")
            && (low[j] == 'n' <==> message[j] in "nN") && (low[j] == 'e' <==> message[j] in "eE")
            && (low[j] == 'l' <==> message[j] in "lL")
  {
  }

  lemma LowerSpells(message: string, i: nat)
    requires i + 6 <= |message|
    ensures OccursAt(Lower(message), "cancel", i) <==> SpellsCancelAt(message, i)
  {
    var low, word := Lower(message), "cancel";
    LowerLetters(message, i);
    LowerLetters(message, i + 1);
    LowerLetters(message, i + 2);
    LowerLetters(message, i + 3);
    LowerLetters(message, i + 4);
    LowerLetters(message, i + 5);
    if SpellsCancelAt(message, i) {
      assert low[i..i + 6] == word;
    }
    if OccursAt(low, word, i) {
      forall k | 0 <= k < 6 ensures low[i + k] == word[k] {
        assert low[i..i + 6][k] == low[i + k];
      }
    }
  }

  lemma SaysCancelExactly(message: string)
    ensures SaysCancel(message) <==> SpellsCancel(message)
  {
    hide SpellsCancelAt;
    if message == "" {
      NoCancelByDefault();
    } else {
      forall i: nat | i + 6 <= |message| ensures OccursAt(Lower(message), "cancel", i) <==> SpellsCancelAt(message, i) {
        LowerSpells(message, i);
      }
      if SpellsCancel(message) {
        var i :| 0 <= i && i + 6 <= |message| && SpellsCancelAt(message, i);
        assert OccursAt(Lower(message), "cancel", i);
      }
    }
  }

  /** The text that stands in for an empty message reports none. */
  lemma NoCancelByDefault()
    ensures !Mentions(Lower("ExecuteMotion failed."), "cancel")
  {
    hide SpellsCancelAt;
    forall i: nat | i + 6 <= |"ExecuteMotion failed."| ensures !OccursAt(Lower("ExecuteMotion failed."), "cancel", i) {
      LowerSpells("ExecuteMotion failed.", i);
      assert !SpellsCancelAt("ExecuteMotion failed.", i) by { DefaultHasNoC(i); }
    }
  }

  lemma DefaultHasNoC(i: nat)
    requires i + 6 <= |"ExecuteMotion failed."|
    ensures !SpellsCancelAt("ExecuteMotion failed.", i)
  {
  }

  /** What the action server reported decides the status of an accepted goal. */
  lemma StatusTellsTheResult(env: AdapterEnv)
    requires Accepts(env)
    ensures Confirm(env).Answered?
    ensures var r := Confirm(env).response;
            && r.dispatchedToRos
            && (r.status == Succeeded <==> env.result.Payload? && env.result.success)
            && (r.status == Cancelled <==> env.result.Payload? && !env.result.success && SpellsCancel(env.result.message))
            && (r.status == Failed <==> !env.result.Payload? || (!env.result.success && !SpellsCancel(env.result.message)))
            && (r.accepted <==> env.result.Payload? && env.result.success)
  {
    hide SpellsCancel, SaysCancel;
    if env.result.Payload? {
      SaysCancelExactly(env.result.message);
    }
  }

  // The checks in the adapter's order: each is reached when all before it passed.

  predicate AtPreflight(env: AdapterEnv) {
    env.requestedMode.None? || env.requestedMode == Some(env.runtimeMode)
  }

  predicate AtIntent(env: AdapterEnv) {
    AtPreflight(env) && env.preflight == Passed
  }

  predicate AtPayload(env: AdapterEnv) {
    AtIntent(env) && env.hasIntent
  }

  predicate AtValidation(env: AdapterEnv) {
    AtPayload(env) && env.payload == Passed
  }

  predicate AtFactory(env: AdapterEnv) {
    AtValidation(env) && env.validation == Passed && env.isFactoryTask
  }

  predicate AtServer(env: AdapterEnv) {
    AtValidation(env) && env.validation == Passed && !env.isFactoryTask && env.nodeAvailable && env.clientReady
  }

  predicate AtGoal(env: AdapterEnv) {
    AtServer(env) && env.server == Passed
  }

  predicate AtSend(env: AdapterEnv) {
    AtGoal(env) && env.goalBuilds
  }

  /** A request that did not become an accepted goal: an exception of a check, of the goal's construction
      or of the factory task escapes, a failed hand-over is FAILED without having reached ROS, a factory
      task succeeds as its own reply says, and every other stop is BLOCKED. */
  lemma UnacceptedAnswers(env: AdapterEnv)
    requires !Accepts(env)
    ensures var a := Confirm(env);
            && (a == Escaped <==>
                  || (AtPreflight(env) && env.preflight == Raises) || (AtPayload(env) && env.payload == Raises)
                  || (AtValidation(env) && env.validation == Raises) || (AtFactory(env) && env.factory == FactoryRaises)
                  || (AtServer(env) && env.server == Raises) || (AtGoal(env) && !env.goalBuilds))
            && (AtFactory(env) && env.factory.FactoryDone? ==>
                  a == Answered(Response(env.factory.accepted, if env.factory.accepted then Succeeded else Failed, true)))
            && (a == Answered(Response(false, Failed, false)) <==> AtSend(env) && env.goal == SendRaises)
            && (a == Answered(Response(false, Blocked, false)) <==>
                  || !AtPreflight(env) || (AtPreflight(env) && env.preflight == Refused)
                  || (AtIntent(env) && !env.hasIntent) || (AtPayload(env) && env.payload == Refused)
                  || (AtValidation(env) && env.validation == Refused)
                  || (AtValidation(env) && env.validation == Passed && !env.isFactoryTask
                      && (!env.nodeAvailable || !env.clientReady))
                  || (AtServer(env) && env.server == Refused) || (AtSend(env) && env.goal == GoalRefused))
  {
  }

  /** The adapter's answer as the supervisor reads it. */
  function AsRosResult(answer: Answer): RosResult {
    match answer
    case Escaped => RosRaises
    case Answered(r) =>
      RosReturns(match r.status
                 case Succeeded => StatusSucceeded
                 case Cancelled => StatusCancelled
                 case _ => StatusOther,
                 r.dispatchedToRos)
  }

  /** The assumption of the supervisor's theorems is a property of this adapter. */
  lemma AdapterIsHonest(env: AdapterEnv)
    ensures SupervisorCalls.Honest(AsRosResult(Confirm(env)))
  {
  }

  /** What the supervisor reads: an exception for an escape, and otherwise the server's result, or a
      refusal that never reached ROS, or the factory task's own verdict. */
  lemma SupervisorReads(env: AdapterEnv)
    ensures AsRosResult(Confirm(env)) == RosRaises <==> Confirm(env) == Escaped
    ensures Accepts(env) ==>
              AsRosResult(Confirm(env)) ==
                RosReturns(if !env.result.Payload? then StatusOther
                           else if env.result.success then StatusSucceeded
                           else if SpellsCancel(env.result.message) then StatusCancelled
                           else StatusOther, true)
    ensures !Accepts(env) && Confirm(env) != Escaped ==>
              AsRosResult(Confirm(env)) ==
                if AtFactory(env) && env.factory.FactoryDone? then
                  RosReturns(if env.factory.accepted then StatusSucceeded else StatusOther, true)
                else RosReturns(StatusOther, false)
  {
    hide SpellsCancel, SaysCancel;
    if Accepts(env) && env.result.Payload? {
      SaysCancelExactly(env.result.message);
    }
  }
}
