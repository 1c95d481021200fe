/** Between calls every command that waits for confirmation has an intent and a mode its gate can
    accept: only a passed gate brings a record there. */
module WaitingRecords {
  import opened Wrappers
  import opened Lifecycle
  import opened Validation
  import opened SupervisorModel
  import opened SupervisorInvariants
  import opened SupervisorCalls
  import opened SequenceRuns
  import opened CallEffects
  import opened Submissions
  import opened PlannedSequences
  import opened SupervisorRuns

  /** Some reading of the gate lets the record through. */
  predicate Runnable(r: Record) {
    r.intent.Some? && r.mode != Unknown
  }

  predicate AwaitsConfirmation(r: Record) {
    r.kind == Command && r.state == NeedsConfirmation
  }

  ghost predicate WaitersRunnable(s: Supervisor) {
    forall id | id in s.commands && AwaitsConfirmation(s.commands[id]) :: Runnable(s.commands[id])
  }

  /** Every command that waits did so before, unchanged. */
  ghost predicate NoNewWaiter(s: Supervisor, t: Supervisor) {
    forall id | id in t.commands && AwaitsConfirmation(t.commands[id]) ::
      id in s.commands && t.commands[id] == s.commands[id]
  }

  lemma NoNewTrans(s: Supervisor, t: Supervisor, u: Supervisor)
    requires NoNewWaiter(s, t) && NoNewWaiter(t, u)
    ensures NoNewWaiter(s, u)
  {
  }

  lemma NoNewKeeps(s: Supervisor, t: Supervisor)
    requires WaitersRunnable(s) && NoNewWaiter(s, t)
    ensures WaitersRunnable(t)
  {
  }

  /** One record changed, and does not wait any more or is as it was. */
  lemma TouchNoNew(s: Supervisor, t: Supervisor, id: Id)
    requires OnlyTouches(s, t, id) && (t.commands[id] == s.commands[id] || !AwaitsConfirmation(t.commands[id]))
    ensures NoNewWaiter(s, t)
  {
  }

  lemma SweptNoNew(s: Supervisor, t: Supervisor, now: int)
    requires Swept(s, t, now)
    ensures NoNewWaiter(s, t)
  {
    hide Sends;
  }

  lemma EnterNoNew(s: Supervisor, caller: Caller, clock: Clock, id: Id)
    requires Inv(s)
    ensures NoNewWaiter(s, Enter(s, caller, clock, id).s)
  {
    hide Inv, Enter, Sends;
    EnterInv(s, caller, clock, id);
    SweptNoNew(s, Enter(s, caller, clock, id).s.(lock := s.lock), clock.sweep);
  }

  lemma CheckWaitingNoNew(s: Supervisor, id: Id, fingerprint: string, now: int)
    requires Inv(s) && id in s.commands
    ensures NoNewWaiter(s, CheckWaiting(s, id, fingerprint, now).s)
  {
    hide Core, Staged, Close;
    var r := s.commands[id];
    if r.state == NeedsConfirmation && WindowClosed(r, now) {
      CloseTouches(Flow(s, Clear), id, Expired);
      TouchNoNew(s, Close(Flow(s, Clear), id, Expired).s, id);
    }
  }

  lemma AttemptNoNew(f: Flow, id: Id, env: StepEnv)
    requires Core(f.s) && f.fault == Clear && Waiting(f.s, id) && ParentRuns(f.s, id) && Honest(env.ros)
    ensures NoNewWaiter(f.s, ConfirmInternal(f, id, env).s)
  {
    hide Core, Sends, GateOpen, ConfirmInternal, AttemptFinal, IsPoseQuery;
    ConfirmInternalCore(f, id, env);
  }

  lemma ConfirmCommandNoNew(s: Supervisor, caller: Caller, clock: Clock, id: Id, fingerprint: string, env: StepEnv)
    requires Inv(s) && Honest(env.ros)
    ensures NoNewWaiter(s, ConfirmCommand(s, caller, clock, id, fingerprint, env).s)
  {
    hide Core, Staged, Enter, CheckWaiting, ConfirmInternal, NoNewWaiter;
    var o := Enter(s, caller, clock, id);
    EnterInv(s, caller, clock, id);
    EnterNoNew(s, caller, clock, id);
    if o.reply == Accepted && o.s.commands[id].kind == Command && o.s.commands[id].parent.None? {
      var w := CheckWaiting(o.s, id, fingerprint, clock.stamp);
      CheckWaitingInv(o.s, id, fingerprint, clock.stamp);
      CheckWaitingNoNew(o.s, id, fingerprint, clock.stamp);
      NoNewTrans(s, o.s, w.s);
      if w.reply == Accepted {
        AttemptNoNew(Flow(w.s, Clear), id, env);
        NoNewTrans(s, w.s, ConfirmInternal(Flow(w.s, Clear), id, env).s);
      }
    }
  }

  /** What an authorised confirmation leaves of a step: over, in flight, or as it was. */
  lemma RanStep(s: Supervisor, g: Flow, id: Id, env: nat -> StepEnv, j: nat)
    requires id in s.commands && (forall c | c in s.commands[id].children :: c in s.commands)
    requires j < |s.commands[id].children|
    requires SequenceRan(s, g, id, s.commands[id].children, StepRecords(s, s.commands[id].children), env)
    ensures var c := s.commands[id].children[j];
            c in g.s.commands && (g.s.commands[c] == s.commands[c] || !AwaitsConfirmation(g.s.commands[c]))
  {
    hide Sends, GateOpen, Handed, IsPoseQuery, AttemptFinal, IsIoSet, StepRecords, SameShape;
    var steps := s.commands[id].children;
    var plan := StepRecords(s, steps);
    assert plan[j] == s.commands[steps[j]] by { RecordOf(s, steps, j); }
    if j == FirstStop(plan, 0, env) {
      assert Stopped(g.s, g.fault, id, steps, plan, j, env(j));
    }
  }

  lemma RecordOf(s: Supervisor, steps: seq<Id>, j: nat)
    requires (forall c | c in steps :: c in s.commands) && j < |steps|
    ensures steps[j] in s.commands && StepRecords(s, steps)[j] == s.commands[steps[j]]
  {
    assert steps[j] in steps;
  }

  lemma RanNoNew(s: Supervisor, g: Flow, id: Id, env: nat -> StepEnv)
    requires Inv(s) && Waiting(s, id) && s.commands[id].kind == Sequence
    requires forall c | c in s.commands[id].children :: c in s.commands
    requires SequenceRan(s, g, id, s.commands[id].children, StepRecords(s, s.commands[id].children), env)
    ensures NoNewWaiter(s, g.s)
  {
    hide Core, Staged, Sends, Handed, MarchSteps, MarchEnd;
    FamiliesOf(s);
    forall x | x in g.s.commands && AwaitsConfirmation(g.s.commands[x])
      ensures x in s.commands && g.s.commands[x] == s.commands[x]
    {
      if s.commands[x].parent == Some(id) {
        assert Linked(s, x);
        RanStep(s, g, id, env, s.commands[x].stepIndex);
      }
    }
  }

  lemma ConfirmSequenceNoNew(s: Supervisor, caller: Caller, clock: Clock, id: Id, fingerprint: string,
                             env: nat -> StepEnv)
    requires Inv(s) && forall j: nat :: Honest(env(j).ros)
    ensures NoNewWaiter(s, ConfirmSequence(s, caller, clock, id, fingerprint, env).s)
  {
    hide Core, Staged, Sends, StartSequence, RunSteps, SequenceRan, Enter, CheckWaiting, NoNewWaiter;
    var o := Enter(s, caller, clock, id);
    EnterNoNew(s, caller, clock, id);
    ConfirmSequenceEntered(s, caller, clock, id, fingerprint);
    if o.reply == Accepted && o.s.commands[id].kind == Sequence {
      var w := CheckWaiting(o.s, id, fingerprint, clock.stamp);
      CheckWaitingInv(o.s, id, fingerprint, clock.stamp);
      CheckWaitingNoNew(o.s, id, fingerprint, clock.stamp);
      NoNewTrans(s, o.s, w.s);
      if w.reply == Accepted {
        SequenceRanInv(w.s, id, env);
        var g := RunSteps(StartSequence(Flow(w.s, Clear), id), id, w.s.commands[id].children, 0, env);
        RanNoNew(w.s, g, id, env);
        NoNewTrans(s, w.s, g.s);
      }
    }
  }

  lemma CancelCommandNoNew(s: Supervisor, caller: Caller, clock: Clock, id: Id, abortOk: bool)
    requires Inv(s)
    ensures NoNewWaiter(s, CancelCommand(s, caller, clock, id, abortOk).s)
  {
    hide Core, Staged, Enter, Close, NoNewWaiter;
    var o := Enter(s, caller, clock, id);
    EnterInv(s, caller, clock, id);
    EnterNoNew(s, caller, clock, id);
    if o.reply == Accepted && !Terminal(o.s.commands[id].state) {
      var g := Close(Flow(o.s, Clear), id, Cancelled);
      EveryStateCancels(o.s.commands[id].state);
      CloseTouches(Flow(o.s, Clear), id, Cancelled);
      TouchNoNew(o.s, g.s, id);
      NoNewTrans(s, o.s, g.s);
    }
  }

  lemma JobCancelledNoNew(s: Supervisor, t: Supervisor, id: Id)
    requires Families(s) && id in s.commands && s.commands[id].kind == Sequence && JobCancelled(s, t, id)
    ensures NoNewWaiter(s, t)
  {
    hide Sends;
    forall x | x in t.commands && AwaitsConfirmation(t.commands[x]) ensures t.commands[x] == s.commands[x] {
      if s.commands[x].parent == Some(id) {
        assert Linked(s, x);
        assert x in s.commands[id].children;
      }
    }
  }

  lemma CancelSequenceNoNew(s: Supervisor, caller: Caller, clock: Clock, id: Id, abortOk: bool)
    requires Inv(s)
    ensures NoNewWaiter(s, CancelSequence(s, caller, clock, id, abortOk).s)
  {
    hide Core, Staged, Enter, CancelJob, NoNewWaiter, JobCancelled, CurrentStepInFlight;
    var o := Enter(s, caller, clock, id);
    EnterInv(s, caller, clock, id);
    EnterNoNew(s, caller, clock, id);
    if o.reply == Accepted && o.s.commands[id].kind == Sequence && !Terminal(o.s.commands[id].state) {
      CancelJobCore(o.s, id);
      FamiliesOf(o.s);
      JobCancelledNoNew(o.s, CancelJob(o.s, id).s, id);
      NoNewTrans(s, o.s, CancelJob(o.s, id).s);
    }
  }

  // ---- submissions ----

  /** Only the new record may be a new waiter, and then it is runnable. */
  lemma PlanSingleWaiters(s: Supervisor, cfg: Config, caller: Caller, mode: Mode, parsed: Option<Intent>, now: int,
                          env: SubmitEnv)
    requires Inv(s) && NoJob(s) && WaitersRunnable(s)
    ensures WaitersRunnable(PlanSingle(s, cfg, caller, mode, parsed, now, env).s)
  {
    hide Inv, NoJob, PlanSingle, CommandGate, WaitingForm;
    var f := PlanSingle(s, cfg, caller, mode, parsed, now, env);
    PlanSingleInv(s, cfg, caller, mode, parsed, now, env);
    if Waiting(f.s, s.nextId) {
      CommandGateExactly(env.runtime, env.sensors, true, mode, false);
      WaitingFormRuns(caller, mode, parsed.value, env.digest, now + cfg.window);
    }
  }

  lemma WaitingFormRuns(caller: Caller, mode: Mode, intent: Intent, digest: string, until: int)
    requires mode != Unknown
    ensures Runnable(WaitingForm(caller, mode, intent, digest, until))
  {
  }

  lemma SubmitSingleWaiters(s: Supervisor, cfg: Config, caller: Caller, mode: Mode, parsed: Option<Intent>, now: int,
                            env: SubmitEnv)
    requires Inv(s) && NoJob(s) && WaitersRunnable(s) && Honest(env.autoEnv(0).ros)
    ensures WaitersRunnable(SubmitSingle(s, cfg, caller, mode, parsed, now, env).s)
  {
    hide Core, Staged, Sends, NoJob, PlanSingle, CommandGate, ConfirmInternal, WaitersRunnable;
    var f := PlanSingle(s, cfg, caller, mode, parsed, now, env);
    PlanSingleInv(s, cfg, caller, mode, parsed, now, env);
    PlanSingleWaiters(s, cfg, caller, mode, parsed, now, env);
    if f.fault == Clear && Waiting(f.s, s.nextId) && AutoConfirms(f.s, cfg, s.nextId) {
      AttemptNoNew(f, s.nextId, env.autoEnv(0));
      NoNewKeeps(f.s, ConfirmInternal(f, s.nextId, env.autoEnv(0)).s);
    }
  }

  /** The records of a planned sequence that are new: the sequence, and its steps as planned. */
  ghost predicate NewStepsRunnable(s: Supervisor, t: Supervisor) {
    forall x | x in t.commands && x !in s.commands && AwaitsConfirmation(t.commands[x]) :: Runnable(t.commands[x])
  }

  lemma FoundedWaiters(s: Supervisor, t: Supervisor, id: Id)
    requires WaitersRunnable(s) && Founded(s, t, id) && NewStepsRunnable(s, t)
    ensures WaitersRunnable(t)
  {
    hide Sends;
  }

  /** A new record of a planned sequence is the sequence or one of its listed steps. */
  lemma NewIsStep(s: Supervisor, t: Supervisor, id: Id, x: Id)
    requires Inv(t) && Founded(s, t, id) && x in t.commands && x !in s.commands && x != id
    ensures x in t.commands[id].children
  {
    hide Sound, SingleJob, Finals, Staged, Sends;
    assert Linked(t, x);
  }

  lemma PlannedStepRuns(s: Supervisor, t: Supervisor, caller: Caller, mode: Mode, intents: seq<Intent>, until: int,
                        env: SubmitEnv, x: Id)
    requires mode != Unknown && Planned(s, t, caller, mode, intents, until, env)
    requires x in Ids(s.nextId + 1, |intents|)
    ensures x in t.commands && Runnable(t.commands[x])
  {
    var i: nat :| i < |intents| && Ids(s.nextId + 1, |intents|)[i] == x;
    assert StepIs(t, s.nextId + 1 + i, WaitingStep(caller, mode, s.nextId, i, intents[i], env.stepDigest(i), until));
  }

  lemma PlannedLists(s: Supervisor, t: Supervisor, caller: Caller, mode: Mode, intents: seq<Intent>, until: int,
                     env: SubmitEnv)
    requires Planned(s, t, caller, mode, intents, until, env)
    ensures s.nextId in t.commands && t.commands[s.nextId].kind == Sequence
    ensures t.commands[s.nextId].children == Ids(s.nextId + 1, |intents|)
  {
    hide WaitingStep;
    assert StepIs(t, s.nextId, WaitingSequence(caller, mode, Ids(s.nextId + 1, |intents|), env.digest, until));
  }

  lemma OpenPlanWaiters(s: Supervisor, cfg: Config, caller: Caller, mode: Mode, intents: seq<Intent>, now: int,
                        env: SubmitEnv)
    requires Inv(s) && NoJob(s)
    requires !env.parserRaises && SequenceGate(env.runtime, env.sensors, mode) && StepGates(env, mode, |intents|)
    ensures NewStepsRunnable(s, PlanSequence(s, cfg, caller, mode, Some(intents), now, env).s)
  {
    hide Inv, NoJob, PlanSequence, SequenceGate, StepGates, CommandGate, Founded, Planned, Runnable, Ids;
    var id, until := s.nextId, now + cfg.window;
    var t := PlanSequence(s, cfg, caller, mode, Some(intents), now, env).s;
    PlanSequenceInv(s, cfg, caller, mode, Some(intents), now, env);
    PlanWaitsAsParsed(s, cfg, caller, mode, intents, now, env);
    SequenceGateIsStrictest(env.runtime, env.sensors, mode, true);
    CommandGateExactly(env.runtime, env.sensors, true, mode, true);
    PlannedLists(s, t, caller, mode, intents, until, env);
    forall x | x in t.commands && x !in s.commands && AwaitsConfirmation(t.commands[x]) ensures Runnable(t.commands[x]) {
      NewIsStep(s, t, id, x);
      PlannedStepRuns(s, t, caller, mode, intents, until, env, x);
    }
  }

  lemma ShutPlanWaiters(s: Supervisor, cfg: Config, caller: Caller, mode: Mode, intents: seq<Intent>, now: int,
                        env: SubmitEnv)
    requires Inv(s) && NoJob(s)
    requires !env.parserRaises && !(SequenceGate(env.runtime, env.sensors, mode) && StepGates(env, mode, |intents|))
    ensures NewStepsRunnable(s, PlanSequence(s, cfg, caller, mode, Some(intents), now, env).s)
  {
    hide Inv, NoJob, PlanSequence, SequenceGate, StepGates, StepGate, Founded, Marked, Added, StepsOver, Runnable, Ids;
    var id := s.nextId;
    var t := PlanSequence(s, cfg, caller, mode, Some(intents), now, env).s;
    PlanSequenceInv(s, cfg, caller, mode, Some(intents), now, env);
    RejectionLeavesSteps(s, cfg, caller, mode, intents, now, env);
    var steps := Ids(id + 1, |intents|);
    forall x | x in t.commands && x !in s.commands ensures !AwaitsConfirmation(t.commands[x]) {
      if x != id {
        NewIsStep(s, t, id, x);
        var i: nat :| i < |steps| && steps[i] == x;
      }
    }
  }

  lemma UnparsedPlanWaiters(s: Supervisor, cfg: Config, caller: Caller, mode: Mode, intents: Option<seq<Intent>>, now: int,
                            env: SubmitEnv)
    requires Inv(s) && NoJob(s) && (env.parserRaises || intents.None?)
    ensures NewStepsRunnable(s, PlanSequence(s, cfg, caller, mode, intents, now, env).s)
  {
    hide Inv, NoJob;
  }

  lemma PlanSequenceWaiters(s: Supervisor, cfg: Config, caller: Caller, mode: Mode, intents: Option<seq<Intent>>,
                            now: int, env: SubmitEnv)
    requires Inv(s) && NoJob(s) && WaitersRunnable(s)
    ensures WaitersRunnable(PlanSequence(s, cfg, caller, mode, intents, now, env).s)
  {
    hide Inv, NoJob, PlanSequence, Founded, SequenceGate, StepGates, NewStepsRunnable, WaitersRunnable;
    PlanSequenceInv(s, cfg, caller, mode, intents, now, env);
    if env.parserRaises || intents.None? {
      UnparsedPlanWaiters(s, cfg, caller, mode, intents, now, env);
    } else if SequenceGate(env.runtime, env.sensors, mode) && StepGates(env, mode, |intents.value|) {
      OpenPlanWaiters(s, cfg, caller, mode, intents.value, now, env);
    } else {
      ShutPlanWaiters(s, cfg, caller, mode, intents.value, now, env);
    }
    FoundedWaiters(s, PlanSequence(s, cfg, caller, mode, intents, now, env).s, s.nextId);
  }

  lemma SubmitSequenceWaiters(s: Supervisor, cfg: Config, caller: Caller, mode: Mode, intents: Option<seq<Intent>>,
                              now: int, env: SubmitEnv)
    requires Inv(s) && NoJob(s) && WaitersRunnable(s) && forall j: nat :: Honest(env.autoEnv(j).ros)
    ensures WaitersRunnable(SubmitSequence(s, cfg, caller, mode, intents, now, env).s)
  {
    hide Inv, NoJob, PlanSequence, ConfirmSequence, WaitersRunnable, Founded;
    var f := PlanSequence(s, cfg, caller, mode, intents, now, env);
    PlanSequenceInv(s, cfg, caller, mode, intents, now, env);
    PlanSequenceWaiters(s, cfg, caller, mode, intents, now, env);
    if f.fault == Clear && Waiting(f.s, s.nextId) && AutoConfirms(f.s, cfg, s.nextId) {
      var fp := f.s.commands[s.nextId].fingerprint.value;
      ConfirmSequenceNoNew(f.s, caller, env.autoClock, s.nextId, fp, env.autoEnv);
      NoNewKeeps(f.s, ConfirmSequence(f.s, caller, env.autoClock, s.nextId, fp, env.autoEnv).s);
    }
  }

  lemma RejectNoNew(s: Supervisor, caller: Caller, mode: Mode)
    requires Inv(s) && NoJob(s)
    ensures NoNewWaiter(s, RejectSubmission(s, caller, mode).s)
  {
    hide Inv, NoJob, RejectSubmission;
    RejectSubmissionInv(s, caller, mode);
  }

  lemma SubmitWaiters(s: Supervisor, cfg: Config, c: Call)
    requires Inv(s) && WaitersRunnable(s) && c.SubmitCall? && HonestCall(c)
    ensures WaitersRunnable(Step(s, cfg, c).s)
  {
    hide Inv, NoJob, Sends, JobActive, LeaseCheck, ExpirePending, SubmitSingle, SubmitSequence, RejectSubmission,
         WaitersRunnable;
    var env, mode := c.submission, SubmitMode(c.submission);
    var f := ExpirePending(s, c.clock.sweep);
    var (s1, granted) := LeaseCheck(f.s, c.caller, c.clock.lease);
    SubmitGates(s, cfg, c.caller, c.clock, c.request, env);
    EnteredWaiters(s, c.caller, c.clock);
    if granted && !JobActive(s1) {
      RejectNoNew(s1, c.caller, mode);
      NoNewKeeps(s1, RejectSubmission(s1, c.caller, mode).s);
      if env.resolution.SingleIntent? {
        SubmitSingleWaiters(s1, cfg, c.caller, mode, env.resolution.parsed, c.clock.stamp, env);
      } else if env.resolution.OrderedSteps? {
        SubmitSequenceWaiters(s1, cfg, c.caller, mode, env.resolution.steps, c.clock.stamp, env);
      }
    }
  }

  lemma EnteredWaiters(s: Supervisor, caller: Caller, clock: Clock)
    requires Inv(s) && WaitersRunnable(s)
    ensures WaitersRunnable(ExpirePending(s, clock.sweep).s)
    ensures WaitersRunnable(LeaseCheck(ExpirePending(s, clock.sweep).s, caller, clock.lease).0)
  {
    hide Inv, ExpirePending, Sends;
    SweepInv(s, clock.sweep);
    SweptNoNew(s, ExpirePending(s, clock.sweep).s, clock.sweep);
    NoNewKeeps(s, ExpirePending(s, clock.sweep).s);
  }

  // ---- runs ----

  lemma StepWaiters(s: Supervisor, cfg: Config, c: Call)
    requires Inv(s) && WaitersRunnable(s) && HonestCall(c)
    ensures WaitersRunnable(Step(s, cfg, c).s)
  {
    hide Inv, Sends, Submit, ConfirmCommand, ConfirmSequence, CancelCommand, CancelSequence, ExpirePending;
    match c
    case SubmitCall(_, _, _, _) => SubmitWaiters(s, cfg, c);
    case ConfirmCommandCall(caller, clock, id, fp, env) =>
      ConfirmCommandNoNew(s, caller, clock, id, fp, env);
      NoNewKeeps(s, Step(s, cfg, c).s);
    case ConfirmSequenceCall(caller, clock, id, fp, env) =>
      ConfirmSequenceNoNew(s, caller, clock, id, fp, env);
      NoNewKeeps(s, Step(s, cfg, c).s);
    case CancelCommandCall(caller, clock, id, ok) =>
      CancelCommandNoNew(s, caller, clock, id, ok);
      NoNewKeeps(s, Step(s, cfg, c).s);
    case CancelSequenceCall(caller, clock, id, ok) =>
      CancelSequenceNoNew(s, caller, clock, id, ok);
      NoNewKeeps(s, Step(s, cfg, c).s);
    case PollCall(now) =>
      SweepInv(s, now);
      SweptNoNew(s, ExpirePending(s, now).s, now);
      NoNewKeeps(s, ExpirePending(s, now).s);
    case LeaseCall(_, _) =>
  }

  /** After every honest run each waiting command can pass its gate under some reading. */
  lemma {:induction false} RunWaiters(ttl: int, cfg: Config, calls: seq<Call>)
    requires HonestRun(calls)
    ensures WaitersRunnable(Run(Initial(ttl), cfg, calls))
    decreases |calls|
  {
    hide Inv, HonestCall, Step;
    if calls != [] {
      var front := calls[..|calls| - 1];
      RunWaiters(ttl, cfg, front);
      RunInv(ttl, cfg, front);
      assert calls[|calls| - 1] in calls;
      StepWaiters(Run(Initial(ttl), cfg, front), cfg, calls[|calls| - 1]);
    }
  }
}
