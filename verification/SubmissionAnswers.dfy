/** What `submit_intent` takes in, what it leaves, and what it answers, in terms of the request, the lock's
    lease, the fields of the records, and what the call reads. */
module SubmissionAnswers {
  import opened Wrappers
  import opened Lifecycle
  import opened Validation
  import opened SupervisorModel
  import opened SupervisorInvariants
  import opened SupervisorCalls
  import opened SequenceRuns
  import opened CallEffects
  import opened CallAnswers
  import opened Submissions
  import opened PlannedSequences

  // ---- intake ----

  /** After the sweep every record that is no step is over. */
  ghost predicate NoJobLeft(s: Supervisor, now: int) {
    forall id | id in s.commands && s.commands[id].parent == None :: OverState(Swept1(s.commands[id], now).state)
  }

  /** The request becomes a record. */
  ghost predicate Admitted(s: Supervisor, caller: Caller, clock: Clock, request: Request, env: SubmitEnv) {
    && (request.hasText || request.hasQuickCommand || request.hasStructured)
    && !(request.hasText && request.hasQuickCommand)
    && HoldsLease(s, caller, clock.lease) && NoJobLeft(s, clock.sweep)
    && (request.hasStructured || env.resolution != RoutingRaises)
  }

  /** The single-job check passes exactly when no record without a parent is still open. */
  lemma JobActiveExactly(s: Supervisor)
    requires Core(s)
    ensures JobActive(s) <==> exists id :: id in s.commands && s.commands[id].parent == None && !OverState(s.commands[id].state)
  {
    IdleMeansNoJob(s);
    if JobActive(s) && s.activeSequence.Some? && s.activeSequence.value in s.commands {
      SequenceHasNoParent(s, s.activeSequence.value);
    }
  }

  lemma NoJobLeftExactly(s: Supervisor, e: Supervisor, now: int)
    requires Core(e) && SweptTo(s, e, now)
    ensures NoJobLeft(s, now) <==> !JobActive(e)
  {
    hide Core, JobActive;
    JobActiveExactly(e);
  }

  /** The state in which an admitted request is taken in. */
  function TakenIn(s: Supervisor, caller: Caller, clock: Clock): Supervisor {
    LeaseCheck(ExpirePending(s, clock.sweep).s, caller, clock.lease).0
  }

  lemma SweptExactly(s: Supervisor, caller: Caller, clock: Clock)
    requires Inv(s)
    ensures var e := TakenIn(s, caller, clock);
            && ExpirePending(s, clock.sweep).fault == Clear && SweptTo(s, ExpirePending(s, clock.sweep).s, clock.sweep)
            && ExpirePending(s, clock.sweep).s.nextId == s.nextId
            && Inv(e) && SweptTo(s, e, clock.sweep) && e.nextId == s.nextId
            && (LeaseCheck(ExpirePending(s, clock.sweep).s, caller, clock.lease).1 <==> HoldsLease(s, caller, clock.lease))
            && (NoJobLeft(s, clock.sweep) <==> !JobActive(e)) && (!JobActive(e) ==> NoJob(e))
  {
    hide Core, Staged, ExpirePending, LeaseCheck, JobActive, NoJob;
    SweepsExactly(s, clock.sweep);
    var f := ExpirePending(s, clock.sweep).s;
    LeaseGrantedExactly(f, caller, clock.lease);
    var e := TakenIn(s, caller, clock);
    LockInv(f, e.lock);
    NoJobLeftExactly(s, e, clock.sweep);
    IdleMeansNoJob(e);
  }

  /** The mode of a request: its own where it names one, the runtime's otherwise. */
  function ModeOf(env: SubmitEnv): Mode {
    if env.requestedMode.Some? then env.requestedMode.value else env.runtime.mode
  }

  /** A request that is not admitted leaves nothing but the sweep behind and is answered by the first test it
      fails: its inputs, the lease, the open job, the routing. */
  lemma TurnedDown(s: Supervisor, cfg: Config, caller: Caller, clock: Clock, request: Request, env: SubmitEnv)
    requires Inv(s) && !Admitted(s, caller, clock, request, env)
    ensures var o := Submit(s, cfg, caller, clock, request, env);
            && SweptTo(s, o.s, clock.sweep) && o.s.nextId == s.nextId
            && o.reply ==
                 if (!request.hasText && !request.hasQuickCommand && !request.hasStructured)
                    || (request.hasText && request.hasQuickCommand) then Conflict
                 else if !HoldsLease(s, caller, clock.lease) then Forbidden
                 else if !NoJobLeft(s, clock.sweep) then Conflict
                 else Crashed(ParserRaised)
  {
    hide Inv, NoJob, NoJobLeft, SweptTo, ExpirePending, LeaseCheck, JobActive, SubmitSingle, SubmitSequence, RejectSubmission,
         Settle, HoldsLease;
    SweptExactly(s, caller, clock);
  }

  /** An admitted request is handed to the branch its resolution says, in the swept state. */
  lemma AdmittedBranch(s: Supervisor, cfg: Config, caller: Caller, clock: Clock, request: Request, env: SubmitEnv)
    requires Inv(s) && Admitted(s, caller, clock, request, env)
    ensures var e := TakenIn(s, caller, clock);
            && Inv(e) && NoJob(e) && SweptTo(s, e, clock.sweep) && e.nextId == s.nextId
            && Submit(s, cfg, caller, clock, request, env) ==
                 if request.hasStructured || env.resolution == Unresolved then
                   Settle(RejectSubmission(e, caller, ModeOf(env)), e.nextId)
                 else if env.resolution.SingleIntent? then
                   SubmitSingle(e, cfg, caller, ModeOf(env), env.resolution.parsed, clock.stamp, env)
                 else if env.resolution.OrderedSteps? then
                   SubmitSequence(e, cfg, caller, ModeOf(env), env.resolution.steps, clock.stamp, env)
                 else Outcome(e, Crashed(ParserRaised))
  {
    hide Inv, NoJob, NoJobLeft, SweptTo, ExpirePending, LeaseCheck, JobActive, SubmitSingle, SubmitSequence, RejectSubmission,
         Settle, HoldsLease;
    SweptExactly(s, caller, clock);
  }

  // ---- one command ----

  /** A new record of the caller's, at the given state. */
  function NewRecord(kind: Kind, caller: Caller, mode: Mode, state: State): Record {
    Record(kind, caller.sessionId, caller.operatorId, mode, None, 0, [], None, state, None, None, None, None, false)
  }

  function Ended(r: Record, final: State): Record {
    r.(state := final, finalState := Some(final))
  }

  /** The swept records and one more. */
  ghost predicate Adds(s: Supervisor, t: Supervisor, now: int, id: Id, r: Record) {
    && id !in s.commands && id in t.commands && t.commands[id] == r
    && t.commands.Keys == s.commands.Keys + {id}
    && forall x | x in s.commands :: t.commands[x] == Swept1(s.commands[x], now)
  }

  lemma AddsSwept(s: Supervisor, e: Supervisor, t: Supervisor, now: int, r: Record)
    requires Inv(e) && SweptTo(s, e, now) && t.commands == e.commands[e.nextId := r]
    ensures Adds(s, t, now, e.nextId, r)
  {
    assert Core(e);
    NextIsNew(e);
  }

  /** A structured or unresolved request becomes a rejected record and is declined. */
  lemma RejectedRequest(s: Supervisor, cfg: Config, caller: Caller, clock: Clock, request: Request, env: SubmitEnv)
    requires Inv(s) && Admitted(s, caller, clock, request, env)
    requires request.hasStructured || env.resolution == Unresolved
    ensures var o := Submit(s, cfg, caller, clock, request, env);
            && o.reply == Declined
            && Adds(s, o.s, clock.sweep, s.nextId, Ended(NewRecord(Command, caller, ModeOf(env), Rejected), Rejected))
  {
    hide Core, Staged, NoJob, Admitted, SweptTo, RejectSubmission, Submit, TakenIn, Adds;
    AdmittedBranch(s, cfg, caller, clock, request, env);
    var e := TakenIn(s, caller, clock);
    RejectSubmissionInv(e, caller, ModeOf(env));
    var f := RejectSubmission(e, caller, ModeOf(env));
    AddsSwept(s, e, f.s, clock.sweep, Ended(NewRecord(Command, caller, ModeOf(env), Rejected), Rejected));
  }

  /** Where planning one command leaves its record, and how the planning ends. */
  function PlannedRecord(caller: Caller, mode: Mode, parsed: Option<Intent>, open: bool, digest: string, pose: PoseReply,
                         until: int): (Record, Fault) {
    var new_ := NewRecord(Command, caller, mode, Received);
    if parsed.None? then (Ended(new_, Rejected), Clear)
    else
      var known := new_.(intent := parsed);
      if !open then (Ended(known, Rejected), Clear)
      else
        var valid := known.(fingerprint := Some(digest), state := Validating);
        if !IsPoseQuery(parsed) then (valid.(state := NeedsConfirmation, expiresAt := Some(until)), Clear)
        else
          match pose
          case PoseRaises => (valid, AdapterRaised)
          case NoPose => (Ended(valid, Failed), Clear)
          case PoseKnown => (Ended(valid, Succeeded), Clear)
  }

  lemma UnparsedRecord(e: Supervisor, caller: Caller, mode: Mode)
    ensures var f := Close(Move(Flow(Admit(e, Blank(Command, caller, mode)), Clear), e.nextId, Parsing), e.nextId, Rejected);
            && f.fault == Clear
            && f.s.commands == e.commands[e.nextId := Ended(NewRecord(Command, caller, mode, Received), Rejected)]
  {
  }

  lemma PlanSingleExactly(e: Supervisor, cfg: Config, caller: Caller, mode: Mode, parsed: Option<Intent>, now: int,
                          env: SubmitEnv)
    requires Inv(e) && NoJob(e)
    ensures var f := PlanSingle(e, cfg, caller, mode, parsed, now, env);
            var open := CommandGate(env.runtime, env.sensors, true, mode, false);
            var (r, fault) := PlannedRecord(caller, mode, parsed, open, env.digest, env.pose, now + cfg.window);
            f.fault == fault && f.s.commands == e.commands[e.nextId := r]
  {
    hide Core, Staged, NoJob, Admit, CommandGate, Close, Move, QueryPose, IsPoseQuery, PlanSingle, OpenWindow, Validated, Sends;
    PlanSingleStages(e, cfg, caller, mode, parsed, now, env);
    if parsed.None? {
      UnparsedRecord(e, caller, mode);
    } else {
      var open := CommandGate(env.runtime, env.sensors, true, mode, false);
      ValidatedCore(e, caller, mode, parsed.value, open, env.digest);
      AdmittedRecords(e, Blank(Command, caller, mode));
      var h := Validated(e, caller, mode, parsed.value, open, env.digest);
      assert h.s.commands == e.commands[e.nextId := h.s.commands[e.nextId]];
      if !open {
        CloseTouches(h, e.nextId, Rejected);
      } else if IsPoseQuery(parsed) {
        ValidatedQuery(h, e.nextId, env.pose);
      } else {
        OpenedRecord(h, e.nextId, now + cfg.window);
      }
    }
  }

  lemma ValidatedQuery(h: Flow, id: Id, pose: PoseReply)
    requires h.fault == Clear && id in h.s.commands && h.s.commands[id].state == Validating
    ensures var g := QueryPose(h, id, pose);
            match pose
            case PoseRaises => g.fault == AdapterRaised && g.s == h.s
            case NoPose => g.fault == Clear && g.s.commands == h.s.commands[id := Ended(h.s.commands[id], Failed)]
            case PoseKnown => g.fault == Clear && g.s.commands == h.s.commands[id := Ended(h.s.commands[id], Succeeded)]
  {
  }

  lemma OpenedRecord(h: Flow, id: Id, until: int)
    requires h.fault == Clear && id in h.s.commands && h.s.commands[id].state == Validating
    ensures var g := Move(OpenWindow(h, id, until), id, NeedsConfirmation);
            && g.fault == Clear
            && g.s.commands == h.s.commands[id := h.s.commands[id].(state := NeedsConfirmation, expiresAt := Some(until))]
  {
  }

  /** A single command that is not confirmed in the same call: rejected and declined when it was not parsed
      or its gate is shut; answered at once when it is a pose query; waiting and accepted otherwise. */
  lemma SingleCommandAnswers(s: Supervisor, cfg: Config, caller: Caller, clock: Clock, request: Request, env: SubmitEnv)
    requires Inv(s) && Admitted(s, caller, clock, request, env)
    requires !request.hasStructured && env.resolution.SingleIntent?
    requires !(cfg.simAutoConfirm && ModeOf(env) == Sim)
    ensures var o := Submit(s, cfg, caller, clock, request, env);
            var open := CommandGate(env.runtime, env.sensors, true, ModeOf(env), false);
            var parsed := env.resolution.parsed;
            var (r, fault) := PlannedRecord(caller, ModeOf(env), parsed, open, env.digest, env.pose, clock.stamp + cfg.window);
            && Adds(s, o.s, clock.sweep, s.nextId, r)
            && (o.reply == Accepted <==> parsed.Some? && open && (IsPoseQuery(parsed) ==> env.pose == PoseKnown))
            && (o.reply == Crashed(AdapterRaised) <==> parsed.Some? && open && IsPoseQuery(parsed) && env.pose == PoseRaises)
            && (o.reply == Accepted || o.reply == Crashed(AdapterRaised) || o.reply == Declined)
  {
    hide Core, Staged, NoJob, Admitted, SweptTo, PlanSingle, Submit, TakenIn, Adds, CommandGate, IsPoseQuery, ConfirmInternal;
    AdmittedBranch(s, cfg, caller, clock, request, env);
    var e, mode := TakenIn(s, caller, clock), ModeOf(env);
    var open := CommandGate(env.runtime, env.sensors, true, mode, false);
    var (r, fault) := PlannedRecord(caller, mode, env.resolution.parsed, open, env.digest, env.pose, clock.stamp + cfg.window);
    PlanSingleExactly(e, cfg, caller, mode, env.resolution.parsed, clock.stamp, env);
    var f := PlanSingle(e, cfg, caller, mode, env.resolution.parsed, clock.stamp, env);
    assert f.s.commands[e.nextId] == r;
    assert r.mode == mode;
    AddsSwept(s, e, f.s, clock.sweep, r);
  }

  /** In SIM with auto-confirmation a command that would wait is attempted at once. */
  lemma AutoCommandAnswers(s: Supervisor, cfg: Config, caller: Caller, clock: Clock, request: Request, env: SubmitEnv)
    requires Inv(s) && Admitted(s, caller, clock, request, env) && Honest(env.autoEnv(0).ros)
    requires !request.hasStructured && env.resolution.SingleIntent?
    requires cfg.simAutoConfirm && ModeOf(env) == Sim
    ensures var o := Submit(s, cfg, caller, clock, request, env);
            var open := CommandGate(env.runtime, env.sensors, true, Sim, false);
            var parsed := env.resolution.parsed;
            var (r, fault) := PlannedRecord(caller, Sim, parsed, open, env.digest, env.pose, clock.stamp + cfg.window);
            if r.state != NeedsConfirmation then
              && Adds(s, o.s, clock.sweep, s.nextId, r)
              && o.reply == (if fault != Clear then Crashed(fault) else if r.state == Succeeded then Accepted else Declined)
            else if !GateOpen(r, env.autoEnv(0)) then Adds(s, o.s, clock.sweep, s.nextId, r) && o.reply == Declined
            else
              match AttemptFinal(r, env.autoEnv(0))
              case None =>
                Adds(s, o.s, clock.sweep, s.nextId, r.(state := ExecutionRequested)) && o.reply == Crashed(AdapterRaised)
              case Some(final) =>
                && Adds(s, o.s, clock.sweep, s.nextId, Ended(r, final))
                && o.reply == if final == Succeeded then Accepted else Declined
  {
    hide Core, Staged, NoJob, Admitted, SweptTo, PlanSingle, Submit, TakenIn, Adds, CommandGate, IsPoseQuery, ConfirmInternal,
         GateOpen, AttemptFinal, Sends;
    AdmittedBranch(s, cfg, caller, clock, request, env);
    var e := TakenIn(s, caller, clock);
    var open := CommandGate(env.runtime, env.sensors, true, Sim, false);
    var (r, fault) := PlannedRecord(caller, Sim, env.resolution.parsed, open, env.digest, env.pose, clock.stamp + cfg.window);
    PlanSingleExactly(e, cfg, caller, Sim, env.resolution.parsed, clock.stamp, env);
    PlanSingleInv(e, cfg, caller, Sim, env.resolution.parsed, clock.stamp, env);
    var f := PlanSingle(e, cfg, caller, Sim, env.resolution.parsed, clock.stamp, env);
    assert f.s.commands[e.nextId] == r && r.mode == Sim;
    if r.state != NeedsConfirmation {
      AddsSwept(s, e, f.s, clock.sweep, r);
    } else {
      assert Waiting(f.s, e.nextId) && f.fault == Clear && r.fingerprint.Some?;
      ConfirmInternalCore(f, e.nextId, env.autoEnv(0));
      var g := ConfirmInternal(f, e.nextId, env.autoEnv(0));
      AttemptAdds(s, e, f, g, clock.sweep, r, env.autoEnv(0));
    }
  }

  lemma AttemptAdds(s: Supervisor, e: Supervisor, f: Flow, g: Flow, now: int, r: Record, env: StepEnv)
    requires Inv(e) && SweptTo(s, e, now) && f.s.commands == e.commands[e.nextId := r] && e.nextId in f.s.commands
    requires Attempted(f, g, e.nextId, env) && f.fault == Clear
    ensures if !GateOpen(r, env) then Adds(s, g.s, now, e.nextId, r) && g.fault == Clear
            else
              match AttemptFinal(r, env)
              case None => Adds(s, g.s, now, e.nextId, r.(state := ExecutionRequested)) && g.fault == AdapterRaised
              case Some(final) => Adds(s, g.s, now, e.nextId, Ended(r, final)) && g.fault == Clear
  {
    hide Core, Staged, SweptTo, Adds, GateOpen, AttemptFinal, Sends, SameShape;
    if !GateOpen(r, env) {
      AddsSwept(s, e, g.s, now, r);
    } else {
      var t := g.s.commands[e.nextId];
      assert g.s.commands == e.commands[e.nextId := t];
      AddsSwept(s, e, g.s, now, t);
    }
  }

  // ---- a sequence ----

  /** The swept records, and new ones. */
  ghost predicate Keeps(s: Supervisor, t: Supervisor, now: int) {
    forall x | x in s.commands :: x in t.commands && t.commands[x] == Swept1(s.commands[x], now)
  }

  lemma FoundedKeeps(s: Supervisor, e: Supervisor, t: Supervisor, now: int)
    requires SweptTo(s, e, now) && Founded(e, t, e.nextId)
    ensures Keeps(s, t, now) && e.nextId !in s.commands && e.nextId in t.commands
  {
    hide Sends;
  }

  /** A sequence that does not come to wait: the parser raises and leaves the bare record at PARSING, or
      it is rejected and declined, unparsed or with its steps left at VALIDATING. */
  lemma SequenceTurnedDown(s: Supervisor, cfg: Config, caller: Caller, clock: Clock, request: Request, env: SubmitEnv)
    requires Inv(s) && Admitted(s, caller, clock, request, env) && !request.hasStructured && env.resolution.OrderedSteps?
    requires var steps := env.resolution.steps;
             || env.parserRaises || steps.None?
             || !SequenceGate(env.runtime, env.sensors, ModeOf(env))
             || exists i: nat :: i < |steps.value| && !CommandGate(env.runtime, env.stepSensors(i), true, ModeOf(env), false)
    ensures var o := Submit(s, cfg, caller, clock, request, env);
            var steps, id, new_ := env.resolution.steps, s.nextId, NewRecord(Sequence, caller, ModeOf(env), Parsing);
            && Keeps(s, o.s, clock.sweep) && id !in s.commands && id in o.s.commands
            && if env.parserRaises then o.reply == Crashed(ParserRaised) && o.s.commands[id] == new_
               else
                 && o.reply == Declined && o.s.commands[id].state == Rejected
                 && (steps.None? ==> o.s.commands[id] == Ended(new_, Rejected))
                 && (steps.Some? ==>
                       && o.s.commands[id].children == Ids(id + 1, |steps.value|)
                       && forall i: nat | i < |steps.value| ::
                            var c := o.s.commands[id].children[i];
                            && c in o.s.commands && o.s.commands[c].state == Validating
                            && o.s.commands[c].parent == Some(id) && o.s.commands[c].intent == Some(steps.value[i]))
  {
    hide Core, Staged, NoJob, Admitted, SweptTo, PlanSequence, Submit, TakenIn, Founded, Keeps, SequenceGate, CommandGate,
         ConfirmSequence, Ids, StepsOver;
    AdmittedBranch(s, cfg, caller, clock, request, env);
    var e, mode, steps := TakenIn(s, caller, clock), ModeOf(env), env.resolution.steps;
    PlanSequenceInv(e, cfg, caller, mode, steps, clock.stamp, env);
    var f := PlanSequence(e, cfg, caller, mode, steps, clock.stamp, env);
    FoundedKeeps(s, e, f.s, clock.sweep);
    if env.parserRaises {
    } else if steps.None? {
      UnparsedSequence(e, cfg, caller, mode, clock.stamp, env);
    } else {
      assert !StepGates(env, mode, |steps.value|) || !SequenceGate(env.runtime, env.sensors, mode) by {
        GatesExactly(env, mode, |steps.value|);
      }
      RejectionLeavesSteps(e, cfg, caller, mode, steps.value, clock.stamp, env);
      forall i: nat | i < |steps.value|
        ensures var c := f.s.commands[e.nextId].children[i];
                && c in f.s.commands && f.s.commands[c].state == Validating
                && f.s.commands[c].parent == Some(e.nextId) && f.s.commands[c].intent == Some(steps.value[i])
      {
        MarkedStep(caller, mode, e.nextId, i, steps.value[i], env);
      }
    }
  }

  lemma MarkedStep(caller: Caller, mode: Mode, seqId: Id, i: nat, intent: Intent, env: SubmitEnv)
    ensures var c := Marked(Added(Blank(Sequence, caller, mode), seqId, i, intent), mode, env, i);
            c.state == Validating && c.parent == Some(seqId) && c.intent == Some(intent)
  {
  }

  lemma GatesExactly(env: SubmitEnv, mode: Mode, n: nat)
    ensures StepGates(env, mode, n) <==> forall i: nat | i < n :: CommandGate(env.runtime, env.stepSensors(i), true, mode, false)
  {
    hide CommandGate;
    forall i: nat ensures StepGate(env, mode, i) == CommandGate(env.runtime, env.stepSensors(i), true, mode, false) {
    }
  }

  lemma UnparsedSequence(e: Supervisor, cfg: Config, caller: Caller, mode: Mode, now: int, env: SubmitEnv)
    requires !env.parserRaises
    ensures var f := PlanSequence(e, cfg, caller, mode, None, now, env);
            && f.fault == Clear
            && f.s.commands == e.commands[e.nextId := Ended(NewRecord(Sequence, caller, mode, Parsing), Rejected)]
  {
  }

  /** Step i of a sequence that waits. */
  function WaitingStepOf(caller: Caller, mode: Mode, id: Id, i: nat, intent: Intent, digest: string, until: int): Record {
    NewRecord(Command, caller, mode, NeedsConfirmation).(
      parent := Some(id), stepIndex := i, intent := Some(intent), fingerprint := Some(digest), expiresAt := Some(until))
  }

  /** With every gate open, in literal terms: the parsed intents wait in order under one sequence, in one
      window. */
  ghost predicate WaitsInOrder(t: Supervisor, caller: Caller, mode: Mode, id: Id, intents: seq<Intent>, until: int,
                               env: SubmitEnv) {
    && id in t.commands && |t.commands[id].children| == |intents|
    && t.commands[id] == NewRecord(Sequence, caller, mode, NeedsConfirmation).(
         children := t.commands[id].children, fingerprint := Some(env.digest), expiresAt := Some(until), currentStep := Some(0))
    && forall i: nat | i < |intents| ::
         var c := t.commands[id].children[i];
         c == id + 1 + i && c in t.commands
         && t.commands[c] == WaitingStepOf(caller, mode, id, i, intents[i], env.stepDigest(i), until)
  }

  lemma PlannedWaits(e: Supervisor, t: Supervisor, caller: Caller, mode: Mode, intents: seq<Intent>, until: int,
                     env: SubmitEnv)
    requires Planned(e, t, caller, mode, intents, until, env)
    ensures WaitsInOrder(t, caller, mode, e.nextId, intents, until, env)
  {
    var id := e.nextId;
    assert StepIs(t, id, WaitingSequence(caller, mode, Ids(id + 1, |intents|), env.digest, until));
    forall i: nat | i < |intents|
      ensures var c := t.commands[id].children[i];
              c == id + 1 + i && c in t.commands
              && t.commands[c] == WaitingStepOf(caller, mode, id, i, intents[i], env.stepDigest(i), until)
    {
      assert StepIs(t, id + 1 + i, WaitingStep(caller, mode, id, i, intents[i], env.stepDigest(i), until));
    }
  }

  /** Every gate of the sequence and its steps is open. */
  ghost predicate AllGatesOpen(env: SubmitEnv, n: nat) {
    && SequenceGate(env.runtime, env.sensors, ModeOf(env))
    && forall i: nat | i < n :: CommandGate(env.runtime, env.stepSensors(i), true, ModeOf(env), false)
  }

  /** A sequence behind open gates waits as parsed and is accepted; in SIM with auto-confirmation the call
      goes on as the confirmation of that sequence, by the same caller and with its own fingerprint. */
  lemma SequenceAnswers(s: Supervisor, cfg: Config, caller: Caller, clock: Clock, request: Request, env: SubmitEnv)
    requires Inv(s) && Admitted(s, caller, clock, request, env) && !request.hasStructured && env.resolution.OrderedSteps?
    requires !env.parserRaises && env.resolution.steps.Some? && AllGatesOpen(env, |env.resolution.steps.value|)
    ensures var o := Submit(s, cfg, caller, clock, request, env);
            exists t: Supervisor ::
              && Inv(t) && Keeps(s, t, clock.sweep)
              && WaitsInOrder(t, caller, ModeOf(env), s.nextId, env.resolution.steps.value, clock.stamp + cfg.window, env)
              && o == if cfg.simAutoConfirm && ModeOf(env) == Sim
                      then ConfirmSequence(t, caller, env.autoClock, s.nextId, env.digest, env.autoEnv)
                      else Outcome(t, Accepted)
  {
    hide Core, Staged, NoJob, Admitted, SweptTo, PlanSequence, Submit, TakenIn, Founded, Keeps, SequenceGate, CommandGate,
         ConfirmSequence, Planned;
    AdmittedBranch(s, cfg, caller, clock, request, env);
    var e, mode, intents := TakenIn(s, caller, clock), ModeOf(env), env.resolution.steps.value;
    PlanSequenceInv(e, cfg, caller, mode, Some(intents), clock.stamp, env);
    GatesExactly(env, mode, |intents|);
    PlanWaitsAsParsed(e, cfg, caller, mode, intents, clock.stamp, env);
    var f := PlanSequence(e, cfg, caller, mode, Some(intents), clock.stamp, env);
    FoundedKeeps(s, e, f.s, clock.sweep);
    PlannedWaits(e, f.s, caller, mode, intents, clock.stamp + cfg.window, env);
    assert env.resolution.steps == Some(intents);
  }

  // ---- the intake, put together ----

  /** A request adds a record exactly when it is admitted. */
  lemma IntakeExactly(s: Supervisor, cfg: Config, caller: Caller, clock: Clock, request: Request, env: SubmitEnv)
    requires Inv(s) && forall j: nat :: Honest(env.autoEnv(j).ros)
    ensures var o := Submit(s, cfg, caller, clock, request, env);
            && s.nextId !in s.commands
            && (s.nextId in o.s.commands <==> Admitted(s, caller, clock, request, env))
  {
    hide Core, Staged, NoJob, Admitted, SweptTo, PlanSequence, PlanSingle, Submit, TakenIn, Founded, SequenceGate, CommandGate,
         ConfirmSequence, ConfirmInternal, SubmitSequence, SubmitSingle, RejectSubmission;
    assert Core(s);
    NextIsNew(s);
    if !Admitted(s, caller, clock, request, env) {
      TurnedDown(s, cfg, caller, clock, request, env);
      SameRecords(s, Submit(s, cfg, caller, clock, request, env).s, clock.sweep);
    } else {
      AdmittedBranch(s, cfg, caller, clock, request, env);
      AdmittedAdds(s, cfg, caller, clock, request, env);
    }
  }

  lemma SameRecords(s: Supervisor, t: Supervisor, now: int)
    requires SweptTo(s, t, now)
    ensures t.commands.Keys == s.commands.Keys
  {
  }

  lemma AdmittedAdds(s: Supervisor, cfg: Config, caller: Caller, clock: Clock, request: Request, env: SubmitEnv)
    requires Inv(s) && Admitted(s, caller, clock, request, env) && forall j: nat :: Honest(env.autoEnv(j).ros)
    ensures s.nextId in Submit(s, cfg, caller, clock, request, env).s.commands
  {
    hide Core, Staged, NoJob, SweptTo, Submit, SequenceGate, CommandGate, GateOpen, AttemptFinal, PlannedRecord, WaitsInOrder,
         HoldsLease, NoJobLeft;
    if request.hasStructured || env.resolution == Unresolved {
      RejectedRequest(s, cfg, caller, clock, request, env);
    } else if env.resolution.SingleIntent? {
      if cfg.simAutoConfirm && ModeOf(env) == Sim {
        AutoCommandAnswers(s, cfg, caller, clock, request, env);
      } else {
        SingleCommandAnswers(s, cfg, caller, clock, request, env);
      }
    } else {
      SequenceAdds(s, cfg, caller, clock, request, env);
    }
  }

  lemma SequenceAdds(s: Supervisor, cfg: Config, caller: Caller, clock: Clock, request: Request, env: SubmitEnv)
    requires Inv(s) && Admitted(s, caller, clock, request, env) && forall j: nat :: Honest(env.autoEnv(j).ros)
    requires !request.hasStructured && env.resolution.OrderedSteps?
    ensures s.nextId in Submit(s, cfg, caller, clock, request, env).s.commands
  {
    hide Core, Staged, NoJob, Admitted, SweptTo, Submit, SequenceGate, CommandGate;
    var steps := env.resolution.steps;
    if env.parserRaises || steps.None? || !AllGatesOpen(env, |steps.value|) {
      SequenceTurnedDown(s, cfg, caller, clock, request, env);
    } else {
      SequenceAnswers(s, cfg, caller, clock, request, env);
      var t: Supervisor :| Inv(t) && Keeps(s, t, clock.sweep)
        && WaitsInOrder(t, caller, ModeOf(env), s.nextId, steps.value, clock.stamp + cfg.window, env)
        && Submit(s, cfg, caller, clock, request, env) ==
             if cfg.simAutoConfirm && ModeOf(env) == Sim
             then ConfirmSequence(t, caller, env.autoClock, s.nextId, env.digest, env.autoEnv)
             else Outcome(t, Accepted);
      ConfirmKeepsRecords(t, caller, env.autoClock, s.nextId, env.digest, env.autoEnv);
    }
  }

  /** Confirming a sequence neither adds nor removes records. */
  lemma ConfirmKeepsRecords(t: Supervisor, caller: Caller, clock: Clock, id: Id, fingerprint: string, env: nat -> StepEnv)
    requires Inv(t) && forall j: nat :: Honest(env(j).ros)
    ensures ConfirmSequence(t, caller, clock, id, fingerprint, env).s.commands.Keys == t.commands.Keys
  {
    hide Inv, ConfirmSequence, Entitled, MarchSteps, MarchEnd, Handed, Sends;
    EntitledIsAuthorised(t, caller, clock, id, fingerprint, Sequence);
    if Entitled(t, caller, clock, id, fingerprint, Sequence) {
      ConfirmSequenceInv(t, caller, clock, id, fingerprint, env);
    } else {
      RefusedConfirmSequence(t, caller, clock, id, fingerprint, env);
    }
  }
}
