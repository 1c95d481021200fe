/** What each service call answers and does to the records, in terms of the request, the lock's lease
    and the fields of the records alone. */
module CallAnswers {
  import opened Wrappers
  import opened Lifecycle
  import opened Validation
  import opened SupervisorModel
  import opened SupervisorInvariants
  import opened SupervisorCalls
  import opened SequenceRuns
  import opened CallEffects

  // ---- the lease and the sweep ----

  /** The caller presents the token of the lease in the lock, as its session and operator, in time. */
  predicate HoldsLease(s: Supervisor, caller: Caller, now: int) {
    && s.lock.active.Some? && now < s.lock.active.value.expiresAt
    && caller.sessionId == s.lock.active.value.sessionId && caller.operatorId == s.lock.active.value.operatorId
    && caller.token == Some(s.lock.active.value.token)
  }

  /** The lease check grants exactly that, and only ever drops a lease that has run out. */
  lemma LeaseGrantedExactly(s: Supervisor, caller: Caller, now: int)
    ensures var (t, granted) := LeaseCheck(s, caller, now);
            && (granted <==> HoldsLease(s, caller, now))
            && t == s.(lock := t.lock)
            && (t.lock == s.lock || (t.lock == s.lock.(active := None) && s.lock.active.Some?
                                     && s.lock.active.value.expiresAt <= now))
  {
  }

  /** A waiting record of its own, not a step, whose window has closed. */
  predicate Lapsed(r: Record, now: int) {
    r.parent == None && r.state == NeedsConfirmation && r.expiresAt.Some? && r.expiresAt.value <= now
  }

  function Swept1(r: Record, now: int): Record {
    if Lapsed(r, now) then r.(state := Expired, finalState := Some(Expired)) else r
  }

  /** The records after the sweep every call begins with. */
  ghost predicate SweptTo(s: Supervisor, t: Supervisor, now: int) {
    && t.commands.Keys == s.commands.Keys && forall x | x in s.commands :: t.commands[x] == Swept1(s.commands[x], now)
  }

  lemma SweepsExactly(s: Supervisor, now: int)
    requires Inv(s)
    ensures var f := ExpirePending(s, now); f.fault == Clear && Inv(f.s) && SweptTo(s, f.s, now)
    ensures ExpirePending(s, now).s.lock == s.lock && ExpirePending(s, now).s.nextId == s.nextId
    ensures ExpirePending(s, now).s.activeCommand == s.activeCommand
    ensures ExpirePending(s, now).s.activeSequence == s.activeSequence
  {
    hide Inv, Sends, ExpirePending;
    SweepInv(s, now);
  }

  predicate OwnedBy(r: Record, caller: Caller) {
    r.sessionId == caller.sessionId && r.operatorId == caller.operatorId
  }

  /** The request is allowed in: the live lease, and a record of its own. */
  predicate MayTouch(s: Supervisor, caller: Caller, clock: Clock, id: Id) {
    HoldsLease(s, caller, clock.lease) && id in s.commands && OwnedBy(s.commands[id], caller)
  }

  /** Every confirm and cancel call: no lease or somebody else's record is forbidden, an unknown id is not
      found, and nothing but the sweep happens before. */
  lemma EnterExactly(s: Supervisor, caller: Caller, clock: Clock, id: Id)
    requires Inv(s)
    ensures var o := Enter(s, caller, clock, id);
            && Inv(o.s) && SweptTo(s, o.s, clock.sweep)
            && o.s.activeCommand == s.activeCommand && o.s.activeSequence == s.activeSequence && o.s.nextId == s.nextId
            && (o.reply == Accepted <==> MayTouch(s, caller, clock, id))
            && (o.reply == NotFound <==> HoldsLease(s, caller, clock.lease) && id !in s.commands)
            && (o.reply == Forbidden <==>
                  !HoldsLease(s, caller, clock.lease) || (id in s.commands && !OwnedBy(s.commands[id], caller)))
  {
    hide Inv, Sends, ExpirePending, LeaseCheck;
    EnterInv(s, caller, clock, id);
    SweepsExactly(s, clock.sweep);
    var e := ExpirePending(s, clock.sweep).s;
    LeaseGrantedExactly(e, caller, clock.lease);
  }

  // ---- confirmations ----

  /** A confirmation of the record takes effect. */
  predicate Entitled(s: Supervisor, caller: Caller, clock: Clock, id: Id, fingerprint: string, kind: Kind) {
    && MayTouch(s, caller, clock, id)
    && var r := s.commands[id];
       && r.kind == kind && r.parent == None && r.state == NeedsConfirmation && r.fingerprint == Some(fingerprint)
       && r.expiresAt.Some? && clock.sweep < r.expiresAt.value && clock.stamp < r.expiresAt.value
  }

  lemma EntitledIsAuthorised(s: Supervisor, caller: Caller, clock: Clock, id: Id, fingerprint: string, kind: Kind)
    ensures Entitled(s, caller, clock, id, fingerprint, kind) <==> Authorised(s, caller, clock, id, fingerprint, kind)
  {
    hide LeaseCheck;
    LeaseGrantedExactly(s, caller, clock.lease);
  }

  /** A confirmation that is turned away although the caller may touch the record: the record expires if it
      still waits and its window closed between sweep and check; nothing else happens. */
  ghost predicate TurnedAway(s: Supervisor, t: Supervisor, clock: Clock, id: Id, fits: bool) {
    && t.commands.Keys == s.commands.Keys
    && forall x | x in s.commands ::
         t.commands[x] ==
           (if x == id && fits && s.commands[x].state == NeedsConfirmation
               && (s.commands[x].expiresAt.None? || s.commands[x].expiresAt.value <= clock.stamp)
            then s.commands[x].(state := Expired, finalState := Some(Expired))
            else Swept1(s.commands[x], clock.sweep))
  }

  lemma CheckTurnsAway(s: Supervisor, e: Supervisor, clock: Clock, id: Id, fingerprint: string)
    requires Inv(e) && SweptTo(s, e, clock.sweep) && id in s.commands && s.commands[id].parent.None?
    ensures var w := CheckWaiting(e, id, fingerprint, clock.stamp);
            && (w.reply == Accepted <==>
                  && s.commands[id].state == NeedsConfirmation && s.commands[id].fingerprint == Some(fingerprint)
                  && s.commands[id].expiresAt.Some? && clock.sweep < s.commands[id].expiresAt.value
                  && clock.stamp < s.commands[id].expiresAt.value)
            && (w.reply != Accepted ==> w.reply == Conflict && TurnedAway(s, w.s, clock, id, true))
  {
    hide Core, Staged, Close;
    if e.commands[id].state == NeedsConfirmation && WindowClosed(e.commands[id], clock.stamp) {
      CloseTouches(Flow(e, Clear), id, Expired);
    }
  }

  /** The answers of `confirm_command` to a call that does not take effect, and all it then does. */
  lemma RefusedConfirmCommand(s: Supervisor, caller: Caller, clock: Clock, id: Id, fingerprint: string, env: StepEnv)
    requires Inv(s) && !Entitled(s, caller, clock, id, fingerprint, Command)
    ensures var o := ConfirmCommand(s, caller, clock, id, fingerprint, env);
            if !HoldsLease(s, caller, clock.lease) || (id in s.commands && !OwnedBy(s.commands[id], caller)) then
              o.reply == Forbidden && SweptTo(s, o.s, clock.sweep)
            else if id !in s.commands then o.reply == NotFound && SweptTo(s, o.s, clock.sweep)
            else
              var fits := s.commands[id].kind == Command && s.commands[id].parent == None;
              o.reply == Conflict && TurnedAway(s, o.s, clock, id, fits)
  {
    hide Inv, Enter, CheckWaiting, ConfirmInternal;
    EnterExactly(s, caller, clock, id);
    var o := Enter(s, caller, clock, id);
    if o.reply == Accepted && s.commands[id].kind == Command && s.commands[id].parent == None {
      CheckTurnsAway(s, o.s, clock, id, fingerprint);
    }
  }

  /** The answers of `confirm_sequence` to a call that does not take effect, and all it then does. */
  lemma RefusedConfirmSequence(s: Supervisor, caller: Caller, clock: Clock, id: Id, fingerprint: string,
                               env: nat -> StepEnv)
    requires Inv(s) && !Entitled(s, caller, clock, id, fingerprint, Sequence)
    ensures var o := ConfirmSequence(s, caller, clock, id, fingerprint, env);
            if !HoldsLease(s, caller, clock.lease) || (id in s.commands && !OwnedBy(s.commands[id], caller)) then
              o.reply == Forbidden && SweptTo(s, o.s, clock.sweep)
            else if id !in s.commands || s.commands[id].kind != Sequence then
              o.reply == NotFound && SweptTo(s, o.s, clock.sweep)
            else o.reply == Conflict && TurnedAway(s, o.s, clock, id, true)
  {
    hide Core, Staged, Enter, CheckWaiting, RunSteps, StartSequence;
    EnterExactly(s, caller, clock, id);
    var o := Enter(s, caller, clock, id);
    if o.reply == Accepted && s.commands[id].kind == Sequence {
      SequenceHasNoParent(s, id);
      CheckTurnsAway(s, o.s, clock, id, fingerprint);
    }
  }

  // ---- what a step's attempt reads, field by field ----

  /** The gate run before execution. */
  lemma StepGateExactly(r: Record, env: StepEnv)
    ensures GateOpen(r, env) <==>
            && r.intent.Some? && ModeServes(env.runtime, r.mode)
            && FreshBut(env.sensors.sources,
                        ["llm_debug", "llm_command", "review_intent_service", "gateway_status", "supervisor_alerts"])
            && (env.sensors.preflight.accepted || env.sensors.preflight.reasons == [])
  {
    hide CommandGate;
    ExecutionGateExactly(env.runtime, env.sensors, r.intent.Some?, r.mode);
  }

  /** A pose query is what its normalised primitive says, and its action where nothing was normalised. */
  lemma PoseQueryExactly(intent: Option<Intent>)
    ensures IsPoseQuery(intent) <==>
            || (intent.Some? && intent.value.primitive == Some(GetPose))
            || (intent.Some? && intent.value.primitive == None && intent.value.action == GetPose)
  {
  }

  /** The final state an attempt behind an open gate leads to. */
  lemma AttemptFinalExactly(r: Record, env: StepEnv)
    ensures var query := IsPoseQuery(r.intent);
            && (AttemptFinal(r, env) == Some(Succeeded) <==>
                  if query then env.pose == PoseKnown else env.ros.RosReturns? && env.ros.status == StatusSucceeded)
            && (AttemptFinal(r, env) == Some(Cancelled) <==>
                  !query && env.ros.RosReturns? && env.ros.status == StatusCancelled)
            && (AttemptFinal(r, env) == Some(Failed) <==>
                  if query then env.pose == NoPose else env.ros.RosReturns? && env.ros.status == StatusOther)
            && (AttemptFinal(r, env) == None <==> if query then env.pose == PoseRaises else env.ros == RosRaises)
  {
    hide IsPoseQuery;
  }

  // ---- the answer of a confirmation that takes effect ----

  /** An authorised confirmation of a sequence is accepted exactly when every step passes its gate and
      succeeds, crashes exactly when a service call of the step at which it stops raises, and declines at
      every other stop. */
  lemma ConfirmSequenceAnswers(s: Supervisor, caller: Caller, clock: Clock, id: Id, fingerprint: string,
                               env: nat -> StepEnv)
    requires Inv(s) && (forall j: nat :: Honest(env(j).ros))
    requires Entitled(s, caller, clock, id, fingerprint, Sequence)
    ensures forall c | c in s.commands[id].children :: c in s.commands
    ensures var reply := ConfirmSequence(s, caller, clock, id, fingerprint, env).reply;
            var plan := StepRecords(s, s.commands[id].children);
            var k := FirstStop(plan, 0, env);
            && (reply == Accepted <==>
                  forall j: nat | j < |plan| :: GateOpen(plan[j], env(j)) && AttemptFinal(plan[j], env(j)) == Some(Succeeded))
            && (reply == Crashed(AdapterRaised) <==>
                  k < |plan| && GateOpen(plan[k], env(k)) && AttemptFinal(plan[k], env(k)) == None)
            && (reply == Declined <==>
                  k < |plan| && !(GateOpen(plan[k], env(k)) && AttemptFinal(plan[k], env(k)) == None))
            && (reply == Accepted || reply == Crashed(AdapterRaised) || reply == Declined)
  {
    hide Core, Staged, Sends, StartSequence, RunSteps, Enter, CheckWaiting, Authorised, GateOpen, AttemptFinal, Handed,
         MarchSteps, Entitled, IsIoSet;
    EntitledIsAuthorised(s, caller, clock, id, fingerprint, Sequence);
    ConfirmSequenceEntered(s, caller, clock, id, fingerprint);
    var o := Enter(s, caller, clock, id);
    AuthorisedWaits(s, o.s, caller, clock, id, fingerprint);
    SequenceRanInv(o.s, id, env);
    var steps := s.commands[id].children;
    var g := RunSteps(StartSequence(Flow(o.s, Clear), id), id, steps, 0, env);
    SequenceRanBefore(s, o.s, g, id, env);
    assert ConfirmSequence(s, caller, clock, id, fingerprint, env) == Verdict(g, id);
    var plan := StepRecords(s, steps);
    StopDecides(g, id, steps, plan, env);
    NoStopExactly(plan, env);
  }

  /** What the confirmation leaves of a sequence that did not crash: SUCCEEDED, or the stopping step's
      outcome, FAILED where its gate was shut.  Manual recovery is asked for exactly when a step at or before
      the stop had IO_SET for its action. */
  lemma ConfirmSequenceLeaves(s: Supervisor, caller: Caller, clock: Clock, id: Id, fingerprint: string,
                              env: nat -> StepEnv)
    requires Inv(s) && (forall j: nat :: Honest(env(j).ros))
    requires Entitled(s, caller, clock, id, fingerprint, Sequence)
    ensures forall c | c in s.commands[id].children :: c in s.commands
    ensures var o := ConfirmSequence(s, caller, clock, id, fingerprint, env);
            var plan := StepRecords(s, s.commands[id].children);
            var k := FirstStop(plan, 0, env);
            && id in o.s.commands
            && var r := o.s.commands[id];
               && (o.reply == Accepted ==> r.state == Succeeded && r.finalState == Some(Succeeded))
               && (o.reply == Declined ==>
                     && k < |plan|
                     && r.finalState == (if GateOpen(plan[k], env(k)) then AttemptFinal(plan[k], env(k)) else None)
                     && r.state == (if r.finalState.Some? then r.finalState.value else Failed)
                     && (r.manualRecovery <==>
                           exists j | 0 <= j <= k :: plan[j].intent.Some? && plan[j].intent.value.action == IoSet))
  {
    hide Core, Staged, Sends, StartSequence, RunSteps, Enter, CheckWaiting, Authorised, GateOpen, AttemptFinal, Handed,
         MarchSteps, Entitled;
    EntitledIsAuthorised(s, caller, clock, id, fingerprint, Sequence);
    ConfirmSequenceEntered(s, caller, clock, id, fingerprint);
    var o := Enter(s, caller, clock, id);
    AuthorisedWaits(s, o.s, caller, clock, id, fingerprint);
    SequenceRanInv(o.s, id, env);
    var steps := s.commands[id].children;
    var g := RunSteps(StartSequence(Flow(o.s, Clear), id), id, steps, 0, env);
    SequenceRanBefore(s, o.s, g, id, env);
    assert ConfirmSequence(s, caller, clock, id, fingerprint, env) == Verdict(g, id);
    StopLeaves(g, id, steps, StepRecords(s, steps), env);
  }

  lemma StopLeaves(g: Flow, id: Id, steps: seq<Id>, plan: seq<Record>, env: nat -> StepEnv)
    requires |plan| == |steps| && id in g.s.commands
    requires var k := FirstStop(plan, 0, env); (k < |steps| ==> steps[k] in g.s.commands) && MarchEnd(g, id, steps, plan, k, env)
    ensures var k := FirstStop(plan, 0, env);
            var r := g.s.commands[id];
            && (k == |plan| ==> g.fault == Clear && r.state == Succeeded && r.finalState == Some(Succeeded))
            && (k < |plan| && g.fault == Clear ==>
                  && r.finalState != Some(Succeeded)
                  && r.finalState == (if GateOpen(plan[k], env(k)) then AttemptFinal(plan[k], env(k)) else None)
                  && r.state == (if r.finalState.Some? then r.finalState.value else Failed)
                  && (r.manualRecovery <==>
                        exists j | 0 <= j <= k :: plan[j].intent.Some? && plan[j].intent.value.action == IoSet))
  {
    hide GateOpen, AttemptFinal;
    var k := FirstStop(plan, 0, env);
    if k < |plan| {
      assert !Succeeds(plan[k], env(k));
      IoSetAmong(plan, k);
    }
  }

  lemma IoSetAmong(plan: seq<Record>, k: nat)
    requires k < |plan|
    ensures (exists j | 0 <= j <= k :: IsIoSet(plan[j])) <==>
            (exists j | 0 <= j <= k :: plan[j].intent.Some? && plan[j].intent.value.action == IoSet)
  {
    if j :| 0 <= j <= k && IsIoSet(plan[j]) {
      assert plan[j].intent.Some? && plan[j].intent.value.action == IoSet;
    }
    if j :| 0 <= j <= k && plan[j].intent.Some? && plan[j].intent.value.action == IoSet {
      assert IsIoSet(plan[j]);
    }
  }

  lemma AuthorisedWaits(s: Supervisor, e: Supervisor, caller: Caller, clock: Clock, id: Id, fingerprint: string)
    requires Authorised(s, caller, clock, id, fingerprint, Sequence) && e.commands == s.commands
    ensures Waiting(e, id) && e.commands[id].kind == Sequence
  {
  }

  /** What the stop of the march makes of the sequence's final state and the fault. */
  lemma StopDecides(g: Flow, id: Id, steps: seq<Id>, plan: seq<Record>, env: nat -> StepEnv)
    requires |plan| == |steps| && id in g.s.commands
    requires var k := FirstStop(plan, 0, env); (k < |steps| ==> steps[k] in g.s.commands) && MarchEnd(g, id, steps, plan, k, env)
    ensures var k := FirstStop(plan, 0, env);
            var raised := k < |plan| && GateOpen(plan[k], env(k)) && AttemptFinal(plan[k], env(k)) == None;
            && g.fault == (if raised then AdapterRaised else Clear)
            && (!raised ==> (g.s.commands[id].finalState == Some(Succeeded) <==> k == |plan|))
  {
    hide GateOpen, AttemptFinal, IsIoSet;
    var k := FirstStop(plan, 0, env);
    if k < |plan| {
      assert !Succeeds(plan[k], env(k));
    }
  }

  lemma NoStopExactly(plan: seq<Record>, env: nat -> StepEnv)
    ensures FirstStop(plan, 0, env) == |plan| <==>
            forall j: nat | j < |plan| :: GateOpen(plan[j], env(j)) && AttemptFinal(plan[j], env(j)) == Some(Succeeded)
  {
    hide GateOpen, AttemptFinal;
    var k := FirstStop(plan, 0, env);
    if k == |plan| {
      forall j: nat | j < |plan| ensures GateOpen(plan[j], env(j)) && AttemptFinal(plan[j], env(j)) == Some(Succeeded) {
        assert Succeeds(plan[j], env(j));
      }
    } else {
      assert !Succeeds(plan[k], env(k));
    }
  }

  // ---- cancellations ----

  /** The supervisor's active command is a step of the sequence that is at the execution boundary. */
  predicate StepInFlight(s: Supervisor, id: Id) {
    && s.activeCommand.Some? && s.activeCommand.value in s.commands
    && var c := s.commands[s.activeCommand.value];
       c.parent == Some(id) && (c.state == ExecutionRequested || c.state == Executing)
  }

  predicate OverState(state: State) {
    state == Succeeded || state == Failed || state == Rejected || state == Cancelled || state == Expired
  }

  /** `cancel_sequence` answers: forbidden and not found as at every entry, a record that is no sequence is
      not found, and a sequence that is not over is refused exactly when its active step is at the execution
      boundary and the abort fails.  A refusal does nothing beyond the sweep. */
  lemma CancelSequenceAnswers(s: Supervisor, caller: Caller, clock: Clock, id: Id, abortOk: bool)
    requires Inv(s)
    ensures var o := CancelSequence(s, caller, clock, id, abortOk);
            var mine := MayTouch(s, caller, clock, id) && s.commands[id].kind == Sequence;
            var over := mine && OverState(Swept1(s.commands[id], clock.sweep).state);
            && (o.reply == Accepted <==> mine && (over || !StepInFlight(s, id) || abortOk))
            && (o.reply == Conflict <==> mine && !over && StepInFlight(s, id) && !abortOk)
            && (o.reply == NotFound <==>
                  || (HoldsLease(s, caller, clock.lease) && id !in s.commands)
                  || (MayTouch(s, caller, clock, id) && s.commands[id].kind != Sequence))
            && (o.reply == Forbidden <==>
                  !HoldsLease(s, caller, clock.lease) || (id in s.commands && !OwnedBy(s.commands[id], caller)))
            && (o.reply != Accepted || over ==> SweptTo(s, o.s, clock.sweep))
            && (mine && !over && o.reply == Accepted ==>
                  && id in o.s.commands && o.s.commands[id].state == Cancelled
                  && forall c | c in s.commands[id].children :: c in o.s.commands && OverState(o.s.commands[c].state))
  {
    hide Core, Staged, Enter, CancelJob, Sends;
    EnterExactly(s, caller, clock, id);
    var o := Enter(s, caller, clock, id);
    if o.reply == Accepted && s.commands[id].kind == Sequence {
      FlightSwept(s, o.s, clock.sweep, id);
      if !Terminal(o.s.commands[id].state) {
        CancelJobCore(o.s, id);
      }
    }
  }

  lemma FlightSwept(s: Supervisor, e: Supervisor, now: int, id: Id)
    requires SweptTo(s, e, now) && e.activeCommand == s.activeCommand
    ensures CurrentStepInFlight(e, id) <==> StepInFlight(s, id)
  {
  }

  /** `cancel_command` answers by the same tests on the record itself; a step is refused. */
  lemma CancelCommandAnswers(s: Supervisor, caller: Caller, clock: Clock, id: Id, abortOk: bool)
    requires Inv(s)
    ensures var o := CancelCommand(s, caller, clock, id, abortOk);
            var mine := MayTouch(s, caller, clock, id) && s.commands[id].parent == None;
            var over := mine && OverState(Swept1(s.commands[id], clock.sweep).state);
            var flying := mine && (s.commands[id].state == ExecutionRequested || s.commands[id].state == Executing);
            && (o.reply == Accepted <==> mine && (over || !flying || abortOk))
            && (o.reply == Conflict <==>
                  || (MayTouch(s, caller, clock, id) && s.commands[id].parent != None)
                  || (mine && flying && !abortOk))
            && (o.reply == NotFound <==> HoldsLease(s, caller, clock.lease) && id !in s.commands)
            && (o.reply == Forbidden <==>
                  !HoldsLease(s, caller, clock.lease) || (id in s.commands && !OwnedBy(s.commands[id], caller)))
            && (o.reply != Accepted || over ==> SweptTo(s, o.s, clock.sweep))
            && (o.reply == Accepted && !over ==>
                  && id in o.s.commands
                  && o.s.commands[id] == s.commands[id].(state := Cancelled, finalState := Some(Cancelled))
                  && forall x | x in s.commands && x != id :: x in o.s.commands
                       && o.s.commands[x] == Swept1(s.commands[x], clock.sweep))
  {
    hide Core, Staged, Enter, Close, Sends;
    EnterExactly(s, caller, clock, id);
    var o := Enter(s, caller, clock, id);
    if o.reply == Accepted && !Terminal(o.s.commands[id].state) {
      EveryStateCancels(o.s.commands[id].state);
      CloseTouches(Flow(o.s, Clear), id, Cancelled);
    }
  }
}
