/** The supervisor as the program runs it: records are objects updated in place, the maps and the
    active ids are fields, and every method is proved against the function of SupervisorModel that
    stands for it. */
module SupervisorService {
  import opened Wrappers
  import opened Lifecycle
  import opened Validation
  import opened SupervisorModel
  import CallEffects
  import Runs = SupervisorRuns
  import Lock = SessionLock

  class CommandRecord {
    const id: Id
    const kind: Kind
    const sessionId: string
    const operatorId: string
    const mode: Mode
    const parent: Option<Id>
    const stepIndex: nat
    var children: seq<Id>
    var intent: Option<Intent>
    var state: State
    var finalState: Option<State>
    var fingerprint: Option<string>
    var expiresAt: Option<int>
    var currentStep: Option<nat>
    var manualRecovery: bool

    function View(): Record
      reads this
    {
      Record(kind, sessionId, operatorId, mode, parent, stepIndex, children, intent, state, finalState,
             fingerprint, expiresAt, currentStep, manualRecovery)
    }

    constructor (id: Id, r: Record)
      ensures this.id == id && View() == r
    {
      this.id := id;
      kind, sessionId, operatorId, mode := r.kind, r.sessionId, r.operatorId, r.mode;
      parent, stepIndex, children, intent := r.parent, r.stepIndex, r.children, r.intent;
      state, finalState, fingerprint, expiresAt := r.state, r.finalState, r.fingerprint, r.expiresAt;
      currentStep, manualRecovery := r.currentStep, r.manualRecovery;
    }
  }

  class SupervisorService {
    const config: Config
    const sessionLock: Lock.SessionLockService
    var commands: map<Id, CommandRecord>
    var nextId: Id
    var activeCommandId: Option<Id>
    var activeSequenceId: Option<Id>
    /** The rows of the audit table and the requests to the adapter, in the order written. */
    var history: seq<Event>
    ghost var model: Supervisor

    /** Everything but the lock's slot agrees with the model. */
    ghost predicate ValidButLock()
      reads this, commands.Values
    {
      && model.commands.Keys == commands.Keys
      && (forall id | id in commands :: commands[id].id == id && commands[id].View() == model.commands[id])
      && (forall id | id in commands :: id < nextId)
      && model.nextId == nextId && model.history == history
      && model.activeCommand == activeCommandId && model.activeSequence == activeSequenceId
    }

    ghost predicate Valid()
      reads this, commands.Values, sessionLock
    {
      ValidButLock() && model.lock == sessionLock.View()
    }

    ghost predicate Knows(c: CommandRecord)
      reads this
    {
      c.id in commands && commands[c.id] == c
    }

    /** After writing one record, and the same into the model, the two still agree. */
    twostate lemma OneRecordWritten(c: CommandRecord)
      requires old(Valid()) && old(Knows(c)) && commands == old(commands) && unchanged(sessionLock)
      requires forall x: CommandRecord | x in commands.Values && x != c :: unchanged(x)
      requires model.commands == old(model).commands[c.id := c.View()]
      requires model.nextId == nextId == old(nextId) && model.history == history && model.lock == old(model).lock
      requires model.activeCommand == activeCommandId && model.activeSequence == activeSequenceId
      ensures Valid()
    {
      hide CommandRecord.View;
      forall x | x in commands && x != c.id ensures commands[x].id == x && commands[x].View() == model.commands[x] {
        assert old(commands[x].View()) == old(model).commands[x];
        assert commands[x] in commands.Values && commands[x] != c;
      }
    }

    /** What the model says of a record is what the record says. */
    lemma Seen(id: Id)
      requires Valid()
      ensures commands.Keys == model.commands.Keys
      ensures model.activeCommand == activeCommandId && model.activeSequence == activeSequenceId
          && model.nextId == nextId
      ensures id in commands ==> Knows(commands[id]) && commands[id].id == id && commands[id].View() == model.commands[id]
    {
    }

    constructor (config: Config, sessionLock: Lock.SessionLockService)
      requires sessionLock.View() == Lock.Slot(None, sessionLock.ttl, 0)
      ensures Valid() && model == Initial(sessionLock.ttl)
      ensures this.config == config && this.sessionLock == sessionLock
    {
      this.config, this.sessionLock := config, sessionLock;
      commands, nextId, activeCommandId, activeSequenceId, history := map[], 0, None, None, [];
      model := Initial(sessionLock.ttl);
    }

    // ---- elementary writes ----

    method Transition(c: CommandRecord, next: State) returns (fault: Fault)
      requires Valid() && Knows(c)
      modifies this`history, this`model, c
      ensures Valid()
      ensures Flow(model, fault) == Move(Flow(old(model), Clear), c.id, next)
      ensures c.children == old(c.children)
      ensures fault == Clear <==> Allowed(old(c.state), next)
      ensures c.state == if fault == Clear then next else old(c.state)
    {
      hide Allowed, Move;
      var previous := c.state;
      assert c.View() == model.commands[c.id];
      MoveWrites(Flow(model, Clear), c.id, next);
      if !Allowed(previous, next) {
        return InvalidTransition;
      }
      c.state := next;
      history := history + [Audit(c.id, Row(Some(previous), next))];
      model := Move(Flow(model, Clear), c.id, next).s;
      OneRecordWritten(c);
      return Clear;
    }

    method SetFinalState(c: CommandRecord, final: Option<State>)
      requires Valid() && Knows(c)
      modifies this`model, c
      ensures Valid()
      ensures Flow(model, Clear) == SetFinal(Flow(old(model), Clear), c.id, final)
    {
      assert c.View() == model.commands[c.id];
      c.finalState := final;
      model := SetFinal(Flow(model, Clear), c.id, final).s;
      OneRecordWritten(c);
    }

    /** Reject, expire, cancel, fail and succeed all end a record this way. */
    method EndRecord(c: CommandRecord, final: State) returns (fault: Fault)
      requires Valid() && Knows(c)
      modifies this`history, this`model, c
      ensures Valid()
      ensures Flow(model, fault) == Close(Flow(old(model), Clear), c.id, final)
    {
      hide Move, SetFinal;
      SetFinalState(c, Some(final));
      fault := Transition(c, final);
    }

    method HandToRos(c: CommandRecord)
      requires Valid() && Knows(c)
      modifies this`history, this`model
      ensures Valid()
      ensures Flow(model, Clear) == Issue(Flow(old(model), Clear), c.id)
    {
      history := history + [Sent(c.id)];
      model := Issue(Flow(model, Clear), c.id).s;
    }

    // ---- execution ----

    method RecordResult(c: CommandRecord, ros: RosResult) returns (fault: Fault)
      requires Valid() && Knows(c)
      modifies this`history, this`model, c
      ensures Valid()
      ensures Flow(model, fault) == Finish(Flow(old(model), Clear), c.id, ros)
    {
      hide Move, SetFinal, Close;
      if ros.RosRaises? {
        return AdapterRaised;
      }
      if ros.dispatched {
        fault := Transition(c, Executing);
        if fault != Clear {
          Skipped(Flow(model, fault), c.id, ros.status);
          return;
        }
        SetFinalState(c, None);
      }
      match ros.status
      case StatusSucceeded =>
        fault := EndRecord(c, Succeeded);
      case StatusCancelled =>
        if !ros.dispatched {
          fault := Transition(c, Executing);
          if fault != Clear {
            Skipped(Flow(model, fault), c.id, ros.status);
            return;
          }
        }
        fault := EndRecord(c, Cancelled);
      case StatusOther =>
        fault := EndRecord(c, Failed);
    }

    method QueryPoseNow(c: CommandRecord, pose: PoseReply) returns (fault: Fault)
      requires Valid() && Knows(c)
      modifies this`history, this`model, c
      ensures Valid()
      ensures Flow(model, fault) == QueryPose(Flow(old(model), Clear), c.id, pose)
    {
      hide Move, SetFinal, Close;
      if pose == PoseRaises {
        return AdapterRaised;
      }
      if c.state != Validating {
        fault := Transition(c, Executing);
        if fault != Clear {
          SkippedClose(Flow(model, fault), c.id, if pose == PoseKnown then Succeeded else Failed);
          return;
        }
      }
      fault := EndRecord(c, if pose == PoseKnown then Succeeded else Failed);
    }

    method ExecuteConfirmed(c: CommandRecord, env: StepEnv) returns (fault: Fault)
      requires Valid() && Knows(c)
      modifies this`history, this`model, c
      ensures Valid()
      ensures Flow(model, fault) == Execute(Flow(old(model), Clear), c.id, env)
    {
      hide Move, Finish, QueryPose, Issue;
      ghost var id := c.id;
      fault := Transition(c, Confirmed);
      if fault != Clear {
        SkippedMove(Flow(model, fault), id, ExecutionRequested);
        return;
      }
      fault := Transition(c, ExecutionRequested);
      if fault != Clear {
        return;
      }
      assert Flow(model, Clear) == Prepare(Flow(old(model), Clear), id);
      if IsPoseQuery(c.intent) {
        fault := QueryPoseNow(c, env.pose);
      } else {
        HandToRos(c);
        fault := RecordResult(c, env.ros);
      }
    }

    method ConfirmRecord(c: CommandRecord, env: StepEnv) returns (fault: Fault)
      requires Valid() && Knows(c)
      modifies this`history, this`model, c
      ensures Valid()
      ensures Flow(model, fault) == ConfirmInternal(Flow(old(model), Clear), c.id, env)
    {
      hide Execute, CommandGate;
      var accepted, _ := ValidateCommand(env.runtime, env.sensors, c.intent.Some?, c.mode, true);
      if !accepted {
        return Clear;
      }
      fault := ExecuteConfirmed(c, env);
    }

    // ---- expiry, lease and ownership ----

    /** The overdue records are collected first, then closed one by one.  Ids grow with insertion, so
        ascending ids are the insertion order of the map. */
    method ExpirePendingConfirmations(now: int) returns (fault: Fault)
      requires Valid()
      modifies this`history, this`model, commands.Values
      ensures Valid()
      ensures Flow(model, fault) == ExpirePending(old(model), now)
    {
      hide Close;
      var expiring := [];
      for i := 0 to nextId
        invariant expiring == Expiring(model.commands, i, now)
      {
        if i in commands {
          var c := commands[i];
          assert c.View() == model.commands[i];
          if c.state == NeedsConfirmation && c.parent.None? && c.expiresAt.Some? && c.expiresAt.value <= now {
            expiring := expiring + [i];
          }
        }
      }
      CallEffects.ExpiringLists(model.commands, nextId, now);
      fault := CloseRecords(expiring, Expired);
    }

    method CloseRecords(ids: seq<Id>, final: State) returns (fault: Fault)
      requires Valid() && forall id | id in ids :: id in commands
      modifies this`history, this`model, commands.Values
      ensures Valid()
      ensures Flow(model, fault) == CloseAll(Flow(old(model), Clear), ids, final)
    {
      hide Close;
      fault := Clear;
      for j := 0 to |ids|
        invariant Valid() && fault == Clear
        invariant Flow(model, Clear) == CloseAll(Flow(old(model), Clear), ids[..j], final)
      {
        assert ids[..j + 1][..j] == ids[..j];
        fault := EndRecord(commands[ids[j]], final);
        if fault != Clear {
          CloseAllStops(Flow(old(model), Clear), ids, j + 1, final);
          return;
        }
      }
      assert ids[..|ids|] == ids;
    }

    /** Follow a change of the lock in the model. */
    ghost method TakeLock()
      requires ValidButLock()
      modifies this`model
      ensures Valid() && model == old(model).(lock := sessionLock.View())
    {
      model := model.(lock := sessionLock.View());
    }

    method AssertController(caller: Caller, now: int) returns (granted: bool)
      requires Valid()
      modifies this`model, sessionLock
      ensures Valid()
      ensures (model, granted) == LeaseCheck(old(model), caller, now)
    {
      hide Lock.AssertController;
      var answer := sessionLock.AssertOwner(now, caller.sessionId, caller.operatorId, caller.token);
      TakeLock();
      return answer.Granted?;
    }

    /** The opening of every confirm and cancel call: sweep, lease, ownership. */
    method OpenCall(caller: Caller, clock: Clock, id: Id) returns (reply: Reply)
      requires Valid()
      modifies this`history, this`model, commands.Values, sessionLock
      ensures Valid()
      ensures Outcome(model, reply) == Enter(old(model), caller, clock, id)
      ensures reply == Accepted ==> id in commands
    {
      hide ExpirePending, LeaseCheck;
      var fault := ExpirePendingConfirmations(clock.sweep);
      if fault != Clear {
        return Crashed(fault);
      }
      var granted := AssertController(caller, clock.lease);
      if !granted {
        return Forbidden;
      }
      if id !in commands {
        return NotFound;
      }
      var c := commands[id];
      assert c.View() == model.commands[id];
      if c.sessionId != caller.sessionId || c.operatorId != caller.operatorId {
        return Forbidden;
      }
      return Accepted;
    }

    // ---- confirmation ----

    method AssertWaiting(c: CommandRecord, fingerprint: string, now: int) returns (reply: Reply)
      requires Valid() && Knows(c)
      modifies this`history, this`model, c
      ensures Valid()
      ensures Outcome(model, reply) == CheckWaiting(old(model), c.id, fingerprint, now)
    {
      hide Close;
      assert c.View() == model.commands[c.id];
      if c.state != NeedsConfirmation {
        return Conflict;
      }
      if c.expiresAt.None? || c.expiresAt.value <= now {
        var fault := EndRecord(c, Expired);
        return if fault == Clear then Conflict else Crashed(fault);
      }
      if c.fingerprint != Some(fingerprint) {
        return Conflict;
      }
      return Accepted;
    }

    /** The reply after an execution attempt. */
    method Respond(c: CommandRecord, fault: Fault) returns (reply: Reply)
      requires Valid() && Knows(c)
      ensures Outcome(model, reply) == Verdict(Flow(model, fault), c.id)
    {
      assert c.View() == model.commands[c.id];
      if fault != Clear {
        return Crashed(fault);
      }
      return if c.finalState == Some(Succeeded) then Accepted else Declined;
    }

    method ConfirmCommandCall(caller: Caller, clock: Clock, id: Id, fingerprint: string,
                              env: StepEnv) returns (reply: Reply)
      requires Valid()
      modifies this`history, this`model, commands.Values, sessionLock
      ensures Valid()
      ensures Outcome(model, reply) == ConfirmCommand(old(model), caller, clock, id, fingerprint, env)
    {
      hide Enter, CheckWaiting, ConfirmInternal, Verdict, Valid;
      reply := OpenCall(caller, clock, id);
      if reply != Accepted {
        return;
      }
      var c := commands[id];
      Seen(id);
      if c.kind != Command || c.parent.Some? {
        return Conflict;
      }
      reply := AssertWaiting(c, fingerprint, clock.stamp);
      if reply != Accepted {
        return;
      }
      var fault := ConfirmRecord(c, env);
      reply := Respond(c, fault);
    }

    method PointAtStep(sequence: CommandRecord, step: CommandRecord)
      requires Valid() && Knows(sequence) && Knows(step)
      modifies this`activeCommandId, this`model, sequence
      ensures Valid()
      ensures Flow(model, Clear) == PointAt(Flow(old(model), Clear), sequence.id, step.id)
      ensures sequence.children == old(sequence.children)
    {
      assert sequence.View() == model.commands[sequence.id] && step.View() == model.commands[step.id];
      sequence.currentStep := Some(step.stepIndex);
      activeCommandId := Some(step.id);
      model := PointAt(Flow(model, Clear), sequence.id, step.id).s;
      OneRecordWritten(sequence);
    }

    /** Whether one of the first k + 1 steps sets controller IO. */
    method AnyIoSet(steps: seq<Id>, k: nat) returns (found: bool)
      requires Valid()
      ensures found == TouchedIo(model.commands, steps, k)
    {
      found := false;
      var i := 0;
      while i < |steps| && i <= k && !found
        invariant 0 <= i <= |steps| && i <= k + 1
        invariant found ==> TouchedIo(model.commands, steps, k)
        invariant !found ==> forall j | 0 <= j < i :: !(steps[j] in model.commands && IsIoSet(model.commands[steps[j]]))
      {
        if steps[i] in commands {
          assert commands[steps[i]].View() == model.commands[steps[i]];
          found := IsIoSet(commands[steps[i]].View());
        }
        i := i + 1;
      }
    }

    method FailSequenceAt(sequence: CommandRecord, step: CommandRecord) returns (fault: Fault)
      requires Valid() && Knows(sequence) && Knows(step)
      modifies this`history, this`model, sequence
      ensures Valid()
      ensures Flow(model, fault) == FailSequence(Flow(old(model), Clear), sequence.id, step.id)
    {
      hide Move, TouchedIo;
      ghost var id := sequence.id;
      assert sequence.View() == model.commands[id] && step.View() == model.commands[step.id];
      var final := step.finalState;
      var touched := AnyIoSet(sequence.children, step.stepIndex);
      sequence.finalState, sequence.manualRecovery := final, touched;
      model := Put(model, id, model.commands[id].(finalState := final, manualRecovery := touched));
      OneRecordWritten(sequence);
      fault := Transition(sequence, if final.Some? then final.value else Failed);
    }

    method CompleteSequenceOf(sequence: CommandRecord) returns (fault: Fault)
      requires Valid() && Knows(sequence)
      modifies this`history, this`model, sequence
      ensures Valid()
      ensures Flow(model, fault) == CompleteSequence(Flow(old(model), Clear), sequence.id)
    {
      hide Close;
      ghost var id := sequence.id;
      Seen(id);
      var n := |sequence.children|;
      if n > 0 {
        sequence.currentStep := Some(n - 1);
        model := Put(model, id, model.commands[id].(currentStep := Some(n - 1)));
        OneRecordWritten(sequence);
      } else {
        assert Put(model, id, model.commands[id]) == model;
      }
      fault := EndRecord(sequence, Succeeded);
    }

    /** The steps in order, the sequence ending with the first that does not succeed. */
    method RunStepRecords(sequence: CommandRecord, env: nat -> StepEnv) returns (fault: Fault)
      requires Valid() && Knows(sequence)
      modifies this`history, this`model, this`activeCommandId, commands.Values
      ensures Valid()
      ensures Flow(model, fault)
           == RunSteps(Flow(old(model), Clear), sequence.id, old(sequence.children), 0, env)
    {
      hide PointAt, ConfirmInternal, FailSequence, CompleteSequence, Valid;
      ghost var seqId := sequence.id;
      var steps := sequence.children;
      ghost var start := Flow(model, Clear);
      var i := 0;
      while i < |steps|
        invariant 0 <= i <= |steps|
        invariant Valid() && Knows(sequence)
        invariant RunSteps(Flow(model, Clear), seqId, steps, i, env) == RunSteps(start, seqId, steps, 0, env)
        decreases |steps| - i
      {
        Seen(steps[i]);
        if steps[i] !in commands {
          MissingStep(Flow(model, Clear), seqId, steps, i, env);
          return MissingKey;
        }
        var step := commands[steps[i]];
        ghost var before := Flow(model, Clear);
        PointAtStep(sequence, step);
        fault := ConfirmRecord(step, env(i));
        assert Flow(model, fault) == ConfirmInternal(PointAt(before, seqId, steps[i]), steps[i], env(i));
        if fault != Clear {
          return;
        }
        Seen(steps[i]);
        if step.finalState != Some(Succeeded) {
          fault := FailSequenceAt(sequence, step);
          return;
        }
        i := i + 1;
      }
      fault := CompleteSequenceOf(sequence);
    }

    method ConfirmSequenceCall(caller: Caller, clock: Clock, id: Id, fingerprint: string,
                               env: nat -> StepEnv) returns (reply: Reply)
      requires Valid()
      modifies this`history, this`model, this`activeCommandId, commands.Values, sessionLock
      ensures Valid()
      ensures Outcome(model, reply) == ConfirmSequence(old(model), caller, clock, id, fingerprint, env)
    {
      hide Enter, CheckWaiting, RunSteps, Verdict, StartSequence, Valid;
      reply := OpenCall(caller, clock, id);
      if reply != Accepted {
        return;
      }
      var sequence := commands[id];
      Seen(id);
      if sequence.kind != Sequence {
        return NotFound;
      }
      reply := AssertWaiting(sequence, fingerprint, clock.stamp);
      if reply != Accepted {
        return;
      }
      Seen(id);
      ghost var steps, waiting := sequence.children, Flow(model, Clear);
      var fault := StartSequenceOf(sequence);
      if fault == Clear {
        fault := RunStepRecords(sequence, env);
      } else {
        RunStopped(Flow(model, fault), id, steps, env);
      }
      assert Flow(model, fault) == RunSteps(StartSequence(waiting, id), id, steps, 0, env);
      reply := Respond(sequence, fault);
    }

    method StartSequenceOf(sequence: CommandRecord) returns (fault: Fault)
      requires Valid() && Knows(sequence)
      modifies this`history, this`model, sequence
      ensures Valid()
      ensures Flow(model, fault) == StartSequence(Flow(old(model), Clear), sequence.id)
      ensures sequence.children == old(sequence.children)
    {
      hide Move;
      fault := Transition(sequence, Confirmed);
      if fault != Clear {
        SkippedMove(Flow(model, fault), sequence.id, ExecutionRequested);
        SkippedMove(Flow(model, fault), sequence.id, Executing);
        return;
      }
      fault := Transition(sequence, ExecutionRequested);
      fault := Transition(sequence, Executing);
    }

    // ---- cancellation ----

    method CancelCommandCall(caller: Caller, clock: Clock, id: Id, abortOk: bool) returns (reply: Reply)
      requires Valid()
      modifies this`history, this`model, commands.Values, sessionLock
      ensures Valid()
      ensures Outcome(model, reply) == CancelCommand(old(model), caller, clock, id, abortOk)
    {
      hide Enter, Close, Valid;
      reply := OpenCall(caller, clock, id);
      if reply != Accepted {
        return;
      }
      var c := commands[id];
      Seen(id);
      if c.parent.Some? {
        return Conflict;
      }
      if Terminal(c.state) {
        return;
      }
      if c.state in {ExecutionRequested, Executing} && !abortOk {
        return Conflict;
      }
      var fault := EndRecord(c, Cancelled);
      reply := if fault == Clear then Accepted else Crashed(fault);
    }

    method CancelStepRecords(steps: seq<Id>) returns (fault: Fault)
      requires Valid()
      modifies this`history, this`model, commands.Values
      ensures Valid()
      ensures Flow(model, fault) == CancelSteps(Flow(old(model), Clear), steps, 0)
    {
      hide Close, Valid;
      var i := 0;
      fault := Clear;
      while i < |steps|
        invariant 0 <= i <= |steps| && fault == Clear && Valid()
        invariant CancelSteps(Flow(model, Clear), steps, i) == CancelSteps(Flow(old(model), Clear), steps, 0)
        decreases |steps| - i
      {
        Seen(steps[i]);
        if steps[i] !in commands {
          return MissingKey;
        }
        var step := commands[steps[i]];
        if !Terminal(step.state) {
          fault := EndRecord(step, Cancelled);
          if fault != Clear {
            return;
          }
        }
        i := i + 1;
      }
    }

    method CancelSequenceCall(caller: Caller, clock: Clock, id: Id, abortOk: bool) returns (reply: Reply)
      requires Valid()
      modifies this`history, this`model, commands.Values, sessionLock
      ensures Valid()
      ensures Outcome(model, reply) == CancelSequence(old(model), caller, clock, id, abortOk)
    {
      hide Enter, Close, CancelSteps, Valid;
      reply := OpenCall(caller, clock, id);
      if reply != Accepted {
        return;
      }
      var sequence := commands[id];
      Seen(id);
      if sequence.kind != Sequence {
        return NotFound;
      }
      if Terminal(sequence.state) {
        return;
      }
      var current := activeCommandId;
      if current.Some? && current.value in commands {
        var child := commands[current.value];
        Seen(current.value);
        if child.parent == Some(id) && child.state in {ExecutionRequested, Executing} && !abortOk {
          return Conflict;
        }
      }
      ghost var entered := model;
      var fault := CancelStepRecords(sequence.children);
      if fault == Clear {
        fault := EndRecord(sequence, Cancelled);
      } else {
        SkippedClose(Flow(model, fault), id, Cancelled);
      }
      assert Flow(model, fault) == CancelJob(entered, id);
      reply := if fault == Clear then Accepted else Crashed(fault);
    }

    // ---- submission ----

    /** After inserting one record, and its value into the model, the two still agree. */
    twostate lemma OneRecordInserted(new c: CommandRecord)
      requires old(Valid()) && c.id == old(nextId) && unchanged(sessionLock)
      requires commands == old(commands)[c.id := c]
      requires forall x: CommandRecord | x in old(commands.Values) :: unchanged(x)
      requires model.commands == old(model).commands[c.id := c.View()]
      requires model.nextId == nextId == old(nextId) + 1 && model.history == history && model.lock == old(model).lock
      requires model.activeCommand == activeCommandId && model.activeSequence == activeSequenceId
      ensures Valid() && Knows(c)
    {
      hide CommandRecord.View;
      forall x | x in commands && x != c.id ensures commands[x].id == x && commands[x].View() == model.commands[x] {
        assert old(commands[x].View()) == old(model).commands[x];
        assert old(commands)[x] in old(commands.Values);
      }
    }

    method InsertRecord(c: CommandRecord)
      requires Valid() && c.id == nextId
      modifies this`commands, this`nextId, this`history, this`model
      ensures Valid() && Knows(c)
      ensures model == Insert(old(model), c.View())
      ensures commands == old(commands)[c.id := c] && nextId == old(nextId) + 1
    {
      hide CommandRecord.View;
      commands := commands[c.id := c];
      nextId := nextId + 1;
      history := history + [Audit(c.id, Row(None, Received))];
      model := Insert(model, c.View());
      OneRecordInserted(c);
    }

    /** Insert a top-level record and name it as the active job. */
    method AdmitRecord(c: CommandRecord)
      requires Valid() && c.id == nextId
      modifies this`commands, this`nextId, this`history, this`model, this`activeCommandId, this`activeSequenceId
      ensures Valid() && Knows(c)
      ensures model == Admit(old(model), c.View())
      ensures commands == old(commands)[c.id := c] && nextId == old(nextId) + 1
    {
      ghost var r := c.View();
      assert r.kind == c.kind;
      hide CommandRecord.View;
      commands := commands[c.id := c];
      nextId := nextId + 1;
      activeCommandId := if c.kind == Command then Some(c.id) else None;
      activeSequenceId := if c.kind == Sequence then Some(c.id) else None;
      history := history + [Audit(c.id, Row(None, Received))];
      model := Admit(model, r);
      OneRecordInserted(c);
    }

    method WriteIntent(c: CommandRecord, intent: Intent)
      requires Valid() && Knows(c)
      modifies this`model, c
      ensures Valid()
      ensures Flow(model, Clear) == SetIntent(Flow(old(model), Clear), c.id, intent)
      ensures c.state == old(c.state)
    {
      assert c.View() == model.commands[c.id];
      c.intent := Some(intent);
      model := SetIntent(Flow(model, Clear), c.id, intent).s;
      OneRecordWritten(c);
    }

    method WriteFingerprint(c: CommandRecord, accepted: bool, digest: string)
      requires Valid() && Knows(c)
      modifies this`model, c
      ensures Valid()
      ensures Flow(model, Clear) == SetFingerprint(Flow(old(model), Clear), c.id, accepted, digest)
      ensures c.state == old(c.state) && c.children == old(c.children)
    {
      assert c.View() == model.commands[c.id];
      c.fingerprint := if accepted then Some(digest) else None;
      model := SetFingerprint(Flow(model, Clear), c.id, accepted, digest).s;
      OneRecordWritten(c);
    }

    method WriteWindow(c: CommandRecord, until: int)
      requires Valid() && Knows(c)
      modifies this`model, c
      ensures Valid()
      ensures Flow(model, Clear) == OpenWindow(Flow(old(model), Clear), c.id, until)
      ensures c.state == old(c.state) && c.children == old(c.children)
    {
      assert c.View() == model.commands[c.id];
      c.expiresAt := Some(until);
      model := OpenWindow(Flow(model, Clear), c.id, until).s;
      OneRecordWritten(c);
    }

    method RejectIntentSubmission(caller: Caller, mode: Mode) returns (c: CommandRecord, fault: Fault)
      requires Valid()
      modifies this
      ensures Valid() && Knows(c) && c.id == old(nextId)
      ensures Flow(model, fault) == RejectSubmission(old(model), caller, mode)
      ensures fresh(commands.Values - old(commands.Values))
    {
      hide Admit, Close, Valid;
      Counted();
      c := new CommandRecord(nextId, Blank(Command, caller, mode));
      AdmitRecord(c);
      fault := EndRecord(c, Rejected);
    }

    lemma Counted()
      requires Valid()
      ensures model.nextId == nextId
    {
    }

    /** Insert a command and parse it.  A new record's transitions are always allowed, so nothing
        here can raise. */
    method ReceiveCommand(caller: Caller, mode: Mode) returns (c: CommandRecord)
      requires Valid()
      modifies this
      ensures Valid() && Knows(c) && c.id == old(nextId) && c.state == Parsing && c.mode == mode
      ensures Flow(model, Clear) == Move(Flow(Admit(old(model), Blank(Command, caller, mode)), Clear), c.id, Parsing)
      ensures fresh(c) && commands == old(commands)[c.id := c]
    {
      hide Admit, Move, Valid;
      c := new CommandRecord(nextId, Blank(Command, caller, mode));
      AdmitRecord(c);
      var _ := Transition(c, Parsing);
    }

    /** Record the intent, validate, and store the fingerprint. */
    method ValidateIntent(c: CommandRecord, intent: Intent, env: SubmitEnv) returns (accepted: bool)
      requires Valid() && Knows(c) && c.state == Parsing
      modifies this`history, this`model, c
      ensures Valid() && c.state == Validating
      ensures accepted == CommandGate(env.runtime, env.sensors, true, c.mode, false)
      ensures Flow(model, Clear)
           == SetFingerprint(Move(SetIntent(Flow(old(model), Clear), c.id, intent), c.id, Validating), c.id, accepted, env.digest)
    {
      hide Move, SetIntent, SetFingerprint, Valid, CommandGate;
      WriteIntent(c, intent);
      var _ := Transition(c, Validating);
      var ok, _ := ValidateCommand(env.runtime, env.sensors, true, c.mode, false);
      accepted := ok;
      WriteFingerprint(c, accepted, env.digest);
    }

    /** Parse, validate and open the window of one command; only the pose query can raise. */
    method PlanSingleCommand(caller: Caller, mode: Mode, parsed: Option<Intent>, now: int, env: SubmitEnv)
      returns (c: CommandRecord, fault: Fault)
      requires Valid()
      modifies this
      ensures Valid() && Knows(c) && c.id == old(nextId)
      ensures Flow(model, fault) == PlanSingle(old(model), config, caller, mode, parsed, now, env)
      ensures fresh(c) && commands == old(commands)[c.id := c]
    {
      hide Admit, Move, Close, QueryPose, SetIntent, SetFingerprint, OpenWindow, Valid, CommandGate;
      Counted();
      c := ReceiveCommand(caller, mode);
      if parsed.None? {
        fault := EndRecord(c, Rejected);
        return;
      }
      var accepted := ValidateIntent(c, parsed.value, env);
      if !accepted {
        fault := EndRecord(c, Rejected);
        return;
      }
      if IsPoseQuery(parsed) {
        fault := QueryPoseNow(c, env.pose);
        return;
      }
      WriteWindow(c, now + config.window);
      fault := Transition(c, NeedsConfirmation);
    }

    /** The reply of a submission that is not confirmed on the spot. */
    method Conclude(c: CommandRecord, fault: Fault) returns (reply: Reply)
      requires Valid() && Knows(c)
      ensures Outcome(model, reply) == Settle(Flow(model, fault), c.id)
    {
      assert c.View() == model.commands[c.id];
      if fault != Clear {
        return Crashed(fault);
      }
      return if c.state in {NeedsConfirmation, Succeeded} then Accepted else Declined;
    }

    method ConfirmsItself(c: CommandRecord) returns (yes: bool)
      requires Valid() && Knows(c)
      ensures yes == (Waiting(model, c.id) && AutoConfirms(model, config, c.id))
      ensures yes ==> c.fingerprint.Some? && model.commands[c.id].fingerprint == c.fingerprint
    {
      assert c.View() == model.commands[c.id];
      return c.state == NeedsConfirmation && config.simAutoConfirm && c.mode == Sim && c.fingerprint.Some?;
    }

    method SubmitSingleCommand(caller: Caller, mode: Mode, parsed: Option<Intent>, now: int, env: SubmitEnv)
      returns (reply: Reply)
      requires Valid()
      modifies this
      ensures Valid()
      ensures Outcome(model, reply) == SubmitSingle(old(model), config, caller, mode, parsed, now, env)
      ensures fresh(commands.Values - old(commands.Values))
    {
      hide PlanSingle, ConfirmInternal, Verdict, Settle, Valid, Waiting, AutoConfirms;
      Counted();
      var c, fault := PlanSingleCommand(caller, mode, parsed, now, env);
      var automatic := ConfirmsItself(c);
      if fault == Clear && automatic {
        fault := ConfirmRecord(c, env.autoEnv(0));
        reply := Respond(c, fault);
      } else {
        reply := Conclude(c, fault);
      }
    }

    // ---- submission of a sequence ----

    method ListStep(sequence: CommandRecord, step: Id)
      requires Valid() && Knows(sequence)
      modifies this`model, sequence
      ensures Valid()
      ensures sequence.View() == old(sequence.View()).(children := old(sequence.children) + [step])
      ensures model == Put(old(model), sequence.id, sequence.View())
    {
      sequence.children := sequence.children + [step];
      model := Put(model, sequence.id, sequence.View());
      OneRecordWritten(sequence);
    }

    /** A step is listed by its parent, inserted, and walked to VALIDATING. */
    method AddStepRecord(sequence: CommandRecord, i: nat, intent: Intent) returns (step: CommandRecord)
      requires Valid() && Knows(sequence)
      modifies this`commands, this`nextId, this`history, this`model, sequence
      ensures Valid() && Knows(step) && fresh(step) && step.id == old(nextId) && step.state == Validating
      ensures Flow(model, Clear) == AddStep(Flow(old(model), Clear), sequence.id, i, intent)
      ensures commands == old(commands)[step.id := step] && nextId == old(nextId) + 1
      ensures sequence.View() == old(sequence.View()).(children := old(sequence.children) + [step.id])
    {
      hide Move, Put, Insert, Valid, AddStep, Grow;
      Seen(sequence.id);
      AddStepWrites(Flow(model, Clear), sequence.id, i, intent);
      step := new CommandRecord(nextId, StepRecord(sequence.View(), sequence.id, i, intent));
      ListStep(sequence, step.id);
      InsertRecord(step);
      var _ := Transition(step, Parsing);
      var _ := Transition(step, Validating);
    }

    /** The records created for one sequence: known, new, and in the given states. */
    ghost predicate StepsKnown(sequence: CommandRecord, steps: seq<CommandRecord>, first: Id, state: State)
      reads this, sequence, steps
    {
      && Knows(sequence) && |sequence.children| == |steps| && sequence.id < first
      && forall j | 0 <= j < |steps| ::
           Knows(steps[j]) && steps[j].id == sequence.children[j] == first + j && steps[j].state == state
    }

    /** One record for each parsed step, in order. */
    method AddStepRecords(sequence: CommandRecord, intents: seq<Intent>) returns (steps: seq<CommandRecord>)
      requires Valid() && Knows(sequence) && sequence.children == []
      modifies this`commands, this`nextId, this`history, this`model, sequence
      ensures Valid() && |steps| == |intents| && sequence.state == old(sequence.state)
      ensures fresh(steps)
      ensures StepsKnown(sequence, steps, old(nextId), Validating)
      ensures Flow(model, Clear) == AddSteps(Flow(old(model), Clear), sequence.id, intents)
      ensures fresh(commands.Values - old(commands.Values))
    {
      hide AddStep, Valid;
      Numbered(sequence);
      steps := [];
      for i := 0 to |intents|
        invariant Valid() && |steps| == i && sequence.state == old(sequence.state)
        invariant nextId == old(nextId) + i
        invariant fresh(steps)
        invariant StepsKnown(sequence, steps, old(nextId), Validating)
        invariant Flow(model, Clear) == AddSteps(Flow(old(model), Clear), sequence.id, intents[..i])
        invariant fresh(commands.Values - old(commands.Values))
      {
        assert intents[..i + 1][..i] == intents[..i];
        var step := AddStepRecord(sequence, i, intents[i]);
        steps := steps + [step];
      }
      assert intents[..|intents|] == intents;
    }

    lemma Numbered(c: CommandRecord)
      requires Valid() && Knows(c)
      ensures c.id < nextId == model.nextId
    {
    }

    method FingerprintStepRecords(steps: seq<CommandRecord>, ids: seq<Id>, mode: Mode,
                                  env: SubmitEnv) returns (accepted: bool)
      requires Valid() && |ids| == |steps|
      requires forall j | 0 <= j < |steps| :: Knows(steps[j]) && steps[j].id == ids[j]
      modifies this`model, steps
      ensures Valid()
      ensures forall step | step in steps :: step.state == old(step.state)
      ensures Flow(model, Clear) == FingerprintSteps(Flow(old(model), Clear), ids, mode, env)
      ensures accepted == StepGates(env, mode, |steps|)
    {
      hide SetFingerprint, Valid, CommandGate, StepGates;
      accepted := true;
      GatesSoFar(env, mode, 0);
      for j := 0 to |steps|
        invariant Valid() && accepted == StepGates(env, mode, j)
        invariant forall step | step in steps :: step.state == old(step.state)
        invariant Flow(model, Clear) == FingerprintSteps(Flow(old(model), Clear), ids[..j], mode, env)
      {
        assert ids[..j + 1][..j] == ids[..j];
        var ok, _ := ValidateCommand(env.runtime, env.stepSensors(j), true, mode, false);
        WriteFingerprint(steps[j], ok, env.stepDigest(j));
        GatesSoFar(env, mode, j);
        accepted := accepted && ok;
      }
      assert ids[..|ids|] == ids;
    }

    method OpenStepRecords(steps: seq<CommandRecord>, ids: seq<Id>, until: int)
      requires Valid() && |ids| == |steps|
      requires forall j | 0 <= j < |steps| :: Knows(steps[j]) && steps[j].id == ids[j] && steps[j].state == Validating
      requires forall i, j | 0 <= i < j < |ids| :: ids[i] != ids[j]
      modifies this`history, this`model, steps
      ensures Valid()
      ensures Flow(model, Clear) == OpenSteps(Flow(old(model), Clear), ids, until)
    {
      hide OpenWindow, Move, Valid;
      for j := 0 to |steps|
        invariant Valid()
        invariant forall k | j <= k < |steps| :: steps[k].state == Validating
        invariant Flow(model, Clear) == OpenSteps(Flow(old(model), Clear), ids[..j], until)
      {
        assert ids[..j + 1][..j] == ids[..j];
        WriteWindow(steps[j], until);
        var _ := Transition(steps[j], NeedsConfirmation);
      }
      assert ids[..|ids|] == ids;
    }

    method PointAtFirstStep(sequence: CommandRecord)
      requires Valid() && Knows(sequence)
      modifies this`model, this`activeCommandId, sequence
      ensures Valid() && sequence.state == old(sequence.state) && sequence.children == old(sequence.children)
      ensures Flow(model, Clear) == PointAtFirst(Flow(old(model), Clear), sequence.id)
    {
      assert sequence.View() == model.commands[sequence.id];
      sequence.currentStep := Some(0);
      activeCommandId := if sequence.children == [] then None else Some(sequence.children[0]);
      model := PointAtFirst(Flow(model, Clear), sequence.id).s;
      OneRecordWritten(sequence);
    }

    method ReceiveSequence(caller: Caller, mode: Mode) returns (sequence: CommandRecord)
      requires Valid()
      modifies this
      ensures Valid() && Knows(sequence) && sequence.id == old(nextId) && sequence.state == Parsing
      ensures sequence.children == []
      ensures Flow(model, Clear)
           == Move(Flow(Admit(old(model), Blank(Sequence, caller, mode)), Clear), sequence.id, Parsing)
      ensures fresh(sequence) && commands == old(commands)[sequence.id := sequence] && nextId == old(nextId) + 1
    {
      hide Admit, Move, Valid;
      sequence := new CommandRecord(nextId, Blank(Sequence, caller, mode));
      AdmitRecord(sequence);
      var _ := Transition(sequence, Parsing);
    }

    method BuildSequenceRecords(caller: Caller, mode: Mode, intents: seq<Intent>)
      returns (sequence: CommandRecord, steps: seq<CommandRecord>)
      requires Valid()
      modifies this
      ensures Valid() && sequence.id == old(nextId) && sequence.state == Validating && |steps| == |intents|
      ensures fresh(sequence) && fresh(steps)
      ensures StepsKnown(sequence, steps, old(nextId) + 1, Validating)
      ensures Flow(model, Clear) == BuildSequence(old(model), caller, mode, intents)
      ensures fresh(commands.Values - old(commands.Values))
    {
      hide Admit, Move, Valid, AddSteps, PointAtFirst;
      Counted();
      sequence := ReceiveSequence(caller, mode);
      steps := AddStepRecords(sequence, intents);
      PointAtFirstStep(sequence);
      var _ := Transition(sequence, Validating);
    }

    /** Validate the sequence and its steps; reject it, or open the window for all of them. */
    method JudgeSequenceRecords(sequence: CommandRecord, steps: seq<CommandRecord>, mode: Mode, now: int,
                                env: SubmitEnv)
      returns (fault: Fault)
      requires Valid() && sequence.state == Validating
      requires StepsKnown(sequence, steps, sequence.id + 1, Validating)
      modifies this`history, this`model, sequence, steps
      ensures Valid()
      ensures Flow(model, fault) == JudgeSequence(Flow(old(model), Clear), config, sequence.id, mode, now, env)
    {
      hide SetFingerprint, FingerprintSteps, OpenSteps, OpenWindow, Move, Close, Valid, SequenceGate, StepGates;
      Seen(sequence.id);
      var ids := sequence.children;
      var accepted := SequenceGate(env.runtime, env.sensors, mode);
      WriteFingerprint(sequence, accepted, env.digest);
      var stepsAccepted := FingerprintStepRecords(steps, ids, mode, env);
      if !accepted || !stepsAccepted {
        fault := EndRecord(sequence, Rejected);
        return;
      }
      WriteWindow(sequence, now + config.window);
      OpenStepRecords(steps, ids, now + config.window);
      fault := Transition(sequence, NeedsConfirmation);
    }

    method PlanSequenceRecords(caller: Caller, mode: Mode, intents: Option<seq<Intent>>, now: int, env: SubmitEnv)
      returns (sequence: CommandRecord, fault: Fault)
      requires Valid()
      modifies this
      ensures Valid() && Knows(sequence) && sequence.id == old(nextId)
      ensures Flow(model, fault) == PlanSequence(old(model), config, caller, mode, intents, now, env)
      ensures fresh(commands.Values - old(commands.Values))
    {
      hide BuildSequence, JudgeSequence, Admit, Move, Close, Valid;
      Counted();
      if env.parserRaises {
        sequence := ReceiveSequence(caller, mode);
        return sequence, ParserRaised;
      }
      if intents.None? {
        sequence := ReceiveSequence(caller, mode);
        fault := EndRecord(sequence, Rejected);
        return;
      }
      var steps;
      sequence, steps := BuildSequenceRecords(caller, mode, intents.value);
      fault := JudgeSequenceRecords(sequence, steps, mode, now, env);
    }

    method SubmitSequenceCommand(caller: Caller, mode: Mode, intents: Option<seq<Intent>>, now: int, env: SubmitEnv)
      returns (reply: Reply)
      requires Valid()
      modifies this, commands.Values, sessionLock
      ensures Valid()
      ensures Outcome(model, reply) == SubmitSequence(old(model), config, caller, mode, intents, now, env)
      ensures fresh(commands.Values - old(commands.Values))
    {
      hide PlanSequence, ConfirmSequence, Settle, Valid, Waiting, AutoConfirms;
      Counted();
      var sequence, fault := PlanSequenceRecords(caller, mode, intents, now, env);
      var automatic := ConfirmsItself(sequence);
      if fault == Clear && automatic {
        reply := ConfirmSequenceCall(caller, env.autoClock, sequence.id, sequence.fingerprint.value, env.autoEnv);
      } else {
        reply := Conclude(sequence, fault);
      }
    }

    method AnyJobActive() returns (active: bool)
      requires Valid()
      ensures active == JobActive(model)
    {
      active := false;
      if activeSequenceId.Some? && activeSequenceId.value in commands {
        var sequence := commands[activeSequenceId.value];
        assert sequence.View() == model.commands[activeSequenceId.value];
        active := !Terminal(sequence.state);
      }
      if !active && activeCommandId.Some? && activeCommandId.value in commands {
        var c := commands[activeCommandId.value];
        assert c.View() == model.commands[activeCommandId.value];
        active := c.kind == Command && c.parent.None? && !Terminal(c.state);
      }
    }

    /** The intake of every operator request. */
    method SubmitIntent(caller: Caller, clock: Clock, request: Request, env: SubmitEnv) returns (reply: Reply)
      requires Valid()
      modifies this, commands.Values, sessionLock
      ensures Valid()
      ensures Outcome(model, reply) == Submit(old(model), config, caller, clock, request, env)
      ensures fresh(commands.Values - old(commands.Values))
    {
      hide ExpirePending, LeaseCheck, JobActive, Settle, RejectSubmission, SubmitSingle, SubmitSequence, Valid;
      var fault := ExpirePendingConfirmations(clock.sweep);
      if fault != Clear {
        return Crashed(fault);
      }
      if !request.hasText && !request.hasQuickCommand && !request.hasStructured {
        return Conflict;
      }
      if request.hasText && request.hasQuickCommand {
        return Conflict;
      }
      var granted := AssertController(caller, clock.lease);
      if !granted {
        return Forbidden;
      }
      var mode := if env.requestedMode.Some? then env.requestedMode.value else env.runtime.mode;
      var busy := AnyJobActive();
      if busy {
        return Conflict;
      }
      if request.hasStructured || env.resolution == Unresolved {
        Counted();
        var c, ended := RejectIntentSubmission(caller, mode);
        reply := Conclude(c, ended);
      } else if env.resolution == RoutingRaises {
        reply := Crashed(ParserRaised);
      } else if env.resolution.SingleIntent? {
        reply := SubmitSingleCommand(caller, mode, env.resolution.parsed, clock.stamp, env);
      } else {
        reply := SubmitSequenceCommand(caller, mode, env.resolution.steps, clock.stamp, env);
      }
    }

    // ---- whole runs ----

    /** The lease endpoints. */
    method ServeLease(event: Lock.Event, canAcquire: bool) returns (reply: Reply)
      requires Valid()
      modifies this`model, sessionLock
      ensures Valid()
      ensures Outcome(model, reply) == Runs.Step(old(model), config, Runs.LeaseCall(event, canAcquire))
    {
      hide Lock.Respond;
      if event.call.AcquireCall? && !canAcquire {
        return Conflict;
      }
      var answer := sessionLock.Serve(event);
      TakeLock();
      return if !answer.Refused? then Accepted else if event.call.AcquireCall? then Declined else Forbidden;
    }

    method Serve(call: Runs.Call) returns (reply: Reply)
      requires Valid()
      modifies this, commands.Values, sessionLock
      ensures Valid() && fresh(commands.Values - old(commands.Values))
      ensures Outcome(model, reply) == Runs.Step(old(model), config, call)
    {
      hide Submit, ConfirmCommand, ConfirmSequence, CancelCommand, CancelSequence, ExpirePending, Valid;
      match call {
        case SubmitCall(caller, clock, request, env) => reply := SubmitIntent(caller, clock, request, env);
        case ConfirmCommandCall(caller, clock, id, fp, env) => reply := ConfirmCommandCall(caller, clock, id, fp, env);
        case ConfirmSequenceCall(caller, clock, id, fp, env) => reply := ConfirmSequenceCall(caller, clock, id, fp, env);
        case CancelCommandCall(caller, clock, id, ok) => reply := CancelCommandCall(caller, clock, id, ok);
        case CancelSequenceCall(caller, clock, id, ok) => reply := CancelSequenceCall(caller, clock, id, ok);
        case PollCall(now) =>
          var fault := ExpirePendingConfirmations(now);
          reply := if fault == Clear then Accepted else Crashed(fault);
        case LeaseCall(event, canAcquire) => reply := ServeLease(event, canAcquire);
      }
    }

    /** The object's whole runs are the runs of the model: every theorem about `Run` is a theorem
        about this object. */
    method ServeAll(calls: seq<Runs.Call>)
      requires Valid()
      modifies this, commands.Values, sessionLock
      ensures Valid()
      ensures model == Runs.Run(old(model), config, calls)
    {
      hide Runs.Step, Valid;
      for i := 0 to |calls|
        invariant Valid() && fresh(commands.Values - old(commands.Values))
        invariant model == Runs.Run(old(model), config, calls[..i])
      {
        assert calls[..i + 1][..i] == calls[..i];
        var _ := Serve(calls[i]);
      }
      assert calls[..|calls|] == calls;
    }
  }

  lemma AddStepWrites(f: Flow, seqId: Id, i: nat, intent: Intent)
    requires f.fault == Clear && seqId in f.s.commands
    ensures var p := f.s.commands[seqId];
            var id := f.s.nextId;
            AddStep(f, seqId, i, intent)
            == Move(Move(Flow(Insert(Put(f.s, seqId, p.(children := p.children + [id])), StepRecord(p, seqId, i, intent)), Clear),
                         id, Parsing), id, Validating)
  {
  }

  lemma GatesSoFar(env: SubmitEnv, mode: Mode, n: nat)
    ensures StepGates(env, mode, 0)
    ensures StepGates(env, mode, n + 1) <==> StepGates(env, mode, n) && CommandGate(env.runtime, env.stepSensors(n), true, mode, false)
  {
    hide CommandGate;
    assert StepGate(env, mode, n) <==> CommandGate(env.runtime, env.stepSensors(n), true, mode, false);
  }

  lemma {:induction false} CloseAllStops(f: Flow, ids: seq<Id>, j: nat, final: State)
    requires j <= |ids| && CloseAll(f, ids[..j], final).fault != Clear
    ensures CloseAll(f, ids, final) == CloseAll(f, ids[..j], final)
    decreases |ids|
  {
    if j == |ids| {
      assert ids[..j] == ids;
    } else {
      var front := ids[..|ids| - 1];
      assert front[..j] == ids[..j];
      CloseAllStops(f, front, j, final);
    }
  }

  lemma MissingStep(f: Flow, seqId: Id, steps: seq<Id>, i: nat, env: nat -> StepEnv)
    requires f.fault == Clear && i < |steps| && steps[i] !in f.s.commands
    ensures RunSteps(f, seqId, steps, i, env) == f.(fault := MissingKey)
  {
  }

  lemma RunStopped(f: Flow, seqId: Id, steps: seq<Id>, env: nat -> StepEnv)
    requires f.fault != Clear
    ensures RunSteps(f, seqId, steps, 0, env) == f
  {
  }

  /** The writes of one transition, field by field. */
  lemma MoveWrites(f: Flow, id: Id, next: State)
    requires f.fault == Clear && id in f.s.commands
    ensures var r := f.s.commands[id];
            Move(f, id, next) ==
            if Allowed(r.state, next) then
              Flow(f.s.(commands := f.s.commands[id := r.(state := next)],
                        history := f.s.history + [Audit(id, Row(Some(r.state), next))]), Clear)
            else Flow(f.s, InvalidTransition)
  {
  }

  lemma SkippedMove(f: Flow, id: Id, next: State)
    requires f.fault != Clear
    ensures Move(f, id, next) == f
  {
  }

  lemma SkippedClose(f: Flow, id: Id, final: State)
    requires f.fault != Clear
    ensures Close(f, id, final) == f
  {
  }

  /** After a fault nothing of a result is recorded. */
  lemma Skipped(f: Flow, id: Id, status: RosStatus)
    requires f.fault != Clear
    ensures SetFinal(f, id, None) == f
    ensures Close(f, id, Succeeded) == f && Close(f, id, Cancelled) == f && Close(f, id, Failed) == f
  {
  }
}
