/** A submission keeps the invariant, whatever the router, the parser and the gates answer
    (hmi/backend/services/supervisor_submission.py). */
module Submissions {
  import opened Wrappers
  import opened Lifecycle
  import opened Validation
  import opened SupervisorModel
  import opened SupervisorInvariants
  import opened SupervisorCalls
  import opened SequenceRuns
  import opened CallEffects

  /** Every record without a parent is over. */
  ghost predicate NoJob(s: Supervisor) {
    forall id | id in s.commands && s.commands[id].parent.None? :: Terminal(s.commands[id].state)
  }

  /** The check before a submission sees every job there is. */
  lemma IdleMeansNoJob(s: Supervisor)
    requires Core(s)
    ensures !JobActive(s) ==> NoJob(s)
  {
    forall id | id in s.commands && s.commands[id].parent.None?
        && !Terminal(s.commands[id].state) ensures JobActive(s) {
      assert Named(s, id);
    }
  }

  lemma AdmitFamilies(s: Supervisor, r: Record)
    requires Numbered(s) && Families(s) && r.parent.None? && r.children == []
    ensures Families(Admit(s, r))
  {
    var t := Admit(s, r);
    forall x | x in t.commands ensures Linked(t, x) {
      if x != s.nextId {
        assert Linked(s, x);
      }
    }
  }

  lemma AdmitStaged(s: Supervisor, r: Record)
    requires Numbered(s) && Staged(s) && Families(s) && r.state == Received
    ensures Staged(Admit(s, r))
  {
    var t := Admit(s, r);
    forall x | x in t.commands && t.commands[x].kind == Sequence && t.commands[x].state == NeedsConfirmation
      ensures StepsWait(t, x)
    {
      assert StepsWait(s, x);
      assert Linked(s, x);
    }
  }

  lemma AdmitInv(s: Supervisor, kind: Kind, caller: Caller, mode: Mode)
    requires Inv(s) && NoJob(s)
    ensures var t := Admit(s, Blank(kind, caller, mode));
            && Inv(t) && s.nextId !in s.commands && t.commands == s.commands[s.nextId := Blank(kind, caller, mode)]
            && t.nextId == s.nextId + 1 && t.lock == s.lock && Sends(t.history) == Sends(s.history)
            && (kind == Sequence ==> t.activeSequence == Some(s.nextId))
  {
    hide Sends, Rows, Audited, Dispatched, Ordered, Contiguous, Families, Staged;
    var r := Blank(kind, caller, mode);
    var t := Admit(s, r);
    assert Sound(s);
    InsertSound(s, r);
    AdmitSound(Insert(s, r), t);
    AdmitFamilies(s, r);
    AdmitStaged(s, r);
    assert SingleJob(t);
  }

  lemma AdmitSound(s: Supervisor, t: Supervisor)
    requires Sound(s) && t == s.(activeCommand := t.activeCommand, activeSequence := t.activeSequence)
    ensures Sound(t)
  {
  }

  // ---- one command ----

  lemma AdmittedRecords(s: Supervisor, r: Record)
    ensures Admit(s, r).commands == s.commands[s.nextId := r]
  {
  }

  lemma RejectSubmissionInv(s: Supervisor, caller: Caller, mode: Mode)
    requires Inv(s) && NoJob(s)
    ensures var f := RejectSubmission(s, caller, mode);
            && Inv(f.s) && f.fault == Clear && Sends(f.s.history) == Sends(s.history)
            && f.s.commands == s.commands[s.nextId := Done(Blank(Command, caller, mode), Rejected)]
  {
    hide Core, Staged, Sends, Admit, Close;
    var t := Admit(s, Blank(Command, caller, mode));
    AdmitInv(s, Command, caller, mode);
    AdmittedRecords(s, Blank(Command, caller, mode));
    CloseCore(Flow(t, Clear), s.nextId, Rejected);
    FamiliesOf(t);
    StagedTouch(t, RejectSubmission(s, caller, mode).s, s.nextId);
  }

  /** The record walked to VALIDATING with its intent and the verdict on its plan. */
  function Validated(s: Supervisor, caller: Caller, mode: Mode, intent: Intent, accepted: bool, digest: string): Flow {
    var id := s.nextId;
    SetFingerprint(Move(SetIntent(Move(Flow(Admit(s, Blank(Command, caller, mode)), Clear), id, Parsing), id, intent),
                        id, Validating), id, accepted, digest)
  }

  lemma ValidatedCore(s: Supervisor, caller: Caller, mode: Mode, intent: Intent, accepted: bool, digest: string)
    requires Inv(s) && NoJob(s)
    ensures var t := Admit(s, Blank(Command, caller, mode));
            var f := Validated(s, caller, mode, intent, accepted, digest);
            && Core(f.s) && f.fault == Clear && OnlyTouches(t, f.s, s.nextId)
            && f.s.commands[s.nextId] == Blank(Command, caller, mode).(
                 intent := Some(intent), state := Validating, fingerprint := if accepted then Some(digest) else None)
            && Sends(f.s.history) == Sends(s.history)
  {
    hide Core, Staged, Sends, Admit;
    var id := s.nextId;
    var t := Admit(s, Blank(Command, caller, mode));
    AdmitInv(s, Command, caller, mode);
    var f1 := Move(Flow(t, Clear), id, Parsing);
    MoveCore(Flow(t, Clear), id, Parsing);
    var f2 := SetIntent(f1, id, intent);
    PutCore(f1.s, id, f2.s.commands[id]);
    TouchTrans(t, f1.s, f2.s, id);
    var f3 := Move(f2, id, Validating);
    MoveCore(f2, id, Validating);
    TouchTrans(t, f2.s, f3.s, id);
    var f4 := SetFingerprint(f3, id, accepted, digest);
    PutCore(f3.s, id, f4.s.commands[id]);
    TouchTrans(t, f3.s, f4.s, id);
  }

  /** The record as it waits for confirmation. */
  function WaitingForm(caller: Caller, mode: Mode, intent: Intent, digest: string, until: int): Record {
    Blank(Command, caller, mode).(intent := Some(intent), state := NeedsConfirmation,
                                  fingerprint := Some(digest), expiresAt := Some(until))
  }

  /** A new record that cannot be parsed. */
  lemma RejectedUnparsed(t: Supervisor, id: Id)
    requires Inv(t) && id in t.commands && t.commands[id].state == Received
    requires t.commands[id].parent.None? && t.commands[id].kind == Command
    ensures var g := Close(Move(Flow(t, Clear), id, Parsing), id, Rejected);
            && Inv(g.s) && g.fault == Clear && Sends(g.s.history) == Sends(t.history)
            && OnlyTouches(t, g.s, id) && g.s.commands[id].state == Rejected
  {
    hide Core, Staged, Families, Sends, Move, Close, SameShape;
    FamiliesOf(t);
    MoveCore(Flow(t, Clear), id, Parsing);
    var m := Move(Flow(t, Clear), id, Parsing);
    CloseCore(m, id, Rejected);
    TouchTrans(t, m.s, Close(m, id, Rejected).s, id);
    StagedTouch(t, Close(m, id, Rejected).s, id);
  }

  /** The stages of planning one command. */
  lemma PlanSingleStages(s: Supervisor, cfg: Config, caller: Caller, mode: Mode, parsed: Option<Intent>, now: int,
                         env: SubmitEnv)
    ensures var id, t := s.nextId, Admit(s, Blank(Command, caller, mode));
            var accepted := CommandGate(env.runtime, env.sensors, true, mode, false);
            PlanSingle(s, cfg, caller, mode, parsed, now, env) ==
              if parsed.None? then Close(Move(Flow(t, Clear), id, Parsing), id, Rejected)
              else
                var h := Validated(s, caller, mode, parsed.value, accepted, env.digest);
                if !accepted then Close(h, id, Rejected)
                else if IsPoseQuery(parsed) then QueryPose(h, id, env.pose)
                else Move(OpenWindow(h, id, now + cfg.window), id, NeedsConfirmation)
  {
    hide Admit, CommandGate, Close, Move, SetIntent, SetFingerprint, QueryPose, IsPoseQuery, OpenWindow;
  }

  lemma PlanSingleCore(s: Supervisor, cfg: Config, caller: Caller, mode: Mode, parsed: Option<Intent>, now: int,
                       env: SubmitEnv)
    requires Inv(s) && NoJob(s)
    ensures var f := PlanSingle(s, cfg, caller, mode, parsed, now, env);
            && Inv(f.s) && (f.fault == Clear || f.fault == AdapterRaised)
            && Sends(f.s.history) == Sends(s.history) && OnlyTouches(Admit(s, Blank(Command, caller, mode)), f.s, s.nextId)
            && (Waiting(f.s, s.nextId) ==>
                  && parsed.Some? && CommandGate(env.runtime, env.sensors, true, mode, false)
                  && f.s.commands[s.nextId] == WaitingForm(caller, mode, parsed.value, env.digest, now + cfg.window))
  {
    hide Core, Staged, Families, Sends, Admit, CommandGate, Close, Move, QueryPose, IsPoseQuery, OnlyTouches, PlanSingle,
         OpenWindow, Validated;
    var id := s.nextId;
    var t := Admit(s, Blank(Command, caller, mode));
    AdmitInv(s, Command, caller, mode);
    PlanSingleStages(s, cfg, caller, mode, parsed, now, env);
    if parsed.None? {
      RejectedUnparsed(t, id);
    } else {
      var accepted := CommandGate(env.runtime, env.sensors, true, mode, false);
      var h := Validated(s, caller, mode, parsed.value, accepted, env.digest);
      ValidatedCore(s, caller, mode, parsed.value, accepted, env.digest);
      AfterValidation(t, h, PlanSingle(s, cfg, caller, mode, parsed, now, env), id, now + cfg.window, accepted,
                      IsPoseQuery(parsed), env.pose);
    }
  }

  lemma PlanSingleInv(s: Supervisor, cfg: Config, caller: Caller, mode: Mode, parsed: Option<Intent>, now: int,
                      env: SubmitEnv)
    requires Inv(s) && NoJob(s)
    ensures var f := PlanSingle(s, cfg, caller, mode, parsed, now, env);
            && Inv(f.s) && (f.fault == Clear || f.fault == AdapterRaised)
            && Sends(f.s.history) == Sends(s.history) && s.nextId !in s.commands
            && f.s.commands.Keys == s.commands.Keys + {s.nextId}
            && (forall x | x in s.commands :: f.s.commands[x] == s.commands[x])
            && (Waiting(f.s, s.nextId) ==>
                  && parsed.Some? && CommandGate(env.runtime, env.sensors, true, mode, false)
                  && f.s.commands[s.nextId] == WaitingForm(caller, mode, parsed.value, env.digest, now + cfg.window))
  {
    hide Core, Staged, Sends, Admit, CommandGate, PlanSingle, SameShape, WaitingForm;
    PlanSingleCore(s, cfg, caller, mode, parsed, now, env);
    AdmittedRecords(s, Blank(Command, caller, mode));
    assert Core(s);
    NextIsNew(s);
  }

  lemma AfterValidation(t: Supervisor, h: Flow, f: Flow, id: Id, until: int, accepted: bool, query: bool,
                        pose: PoseReply)
    requires Inv(t) && Core(h.s) && h.fault == Clear && OnlyTouches(t, h.s, id)
    requires t.commands[id].parent.None? && t.commands[id].kind == Command && h.s.commands[id].state == Validating
    requires f == if !accepted then Close(h, id, Rejected)
                  else if query then QueryPose(h, id, pose)
                  else Move(OpenWindow(h, id, until), id, NeedsConfirmation)
    ensures Inv(f.s) && (f.fault == Clear || f.fault == AdapterRaised) && Sends(f.s.history) == Sends(h.s.history)
    ensures OnlyTouches(t, f.s, id)
    ensures Waiting(f.s, id) ==>
              accepted && !query && f.s.commands[id] == h.s.commands[id].(expiresAt := Some(until), state := NeedsConfirmation)
  {
    hide Core, Staged, Sends, Close, QueryPose;
    FamiliesOf(t);
    if !accepted {
      CloseCore(h, id, Rejected);
    } else if query {
      QueryPoseCore(h, id, pose);
      TouchSelf(h.s, id);
    } else {
      var w := OpenWindow(h, id, until);
      PutCore(h.s, id, w.s.commands[id]);
      MoveCore(w, id, NeedsConfirmation);
      TouchTrans(h.s, w.s, f.s, id);
    }
    TouchTrans(t, h.s, f.s, id);
    StagedTouch(t, f.s, id);
  }

  lemma SubmitSingleInv(s: Supervisor, cfg: Config, caller: Caller, mode: Mode, parsed: Option<Intent>,
                        now: int, env: SubmitEnv)
    requires Inv(s) && NoJob(s) && Honest(env.autoEnv(0).ros)
    ensures var o := SubmitSingle(s, cfg, caller, mode, parsed, now, env);
            && Inv(o.s) && o.reply != Crashed(InvalidTransition) && o.reply != Crashed(MissingKey)
            && (Sends(o.s.history) == Sends(s.history)
                || (Sends(o.s.history) == Sends(s.history) + [s.nextId]
                    && cfg.simAutoConfirm && mode == Sim && parsed.Some?
                    && CommandGate(env.runtime, env.sensors, true, mode, false)
                    && CommandGate(env.autoEnv(0).runtime, env.autoEnv(0).sensors, true, mode, true)))
  {
    hide Core, Staged, Sends, Families, CommandGate, PlanSingle, ConfirmInternal, IsPoseQuery, AttemptFinal;
    var id := s.nextId;
    var f := PlanSingle(s, cfg, caller, mode, parsed, now, env);
    PlanSingleInv(s, cfg, caller, mode, parsed, now, env);
    if f.fault == Clear && Waiting(f.s, id) && AutoConfirms(f.s, cfg, id) {
      ConfirmInternalCore(f, id, env.autoEnv(0));
      if GateOpen(f.s.commands[id], env.autoEnv(0)) {
        FamiliesOf(f.s);
        StagedTouch(f.s, ConfirmInternal(f, id, env.autoEnv(0)).s, id);
      }
    }
  }

  // ---- a sequence ----

  /** Only the sequence's record and steps added after s differ from s. */
  ghost predicate Growing(s: Supervisor, t: Supervisor, seqId: Id, n: nat) {
    && seqId in s.commands && seqId in t.commands
    && |t.commands[seqId].children| == n
    && SameButChildren(s.commands[seqId], t.commands[seqId])
    && (forall x | x in s.commands && x != seqId :: x in t.commands && t.commands[x] == s.commands[x])
    && (forall x | x in t.commands && x !in s.commands :: t.commands[x].parent == Some(seqId))
    && (forall c | c in t.commands[seqId].children :: c !in s.commands && c in t.commands && t.commands[c].state == Validating)
    && t.activeSequence == s.activeSequence && t.lock == s.lock
    && Sends(t.history) == Sends(s.history)
  }

  ghost predicate SameButChildren(a: Record, b: Record) {
    && a.kind == b.kind && a.sessionId == b.sessionId && a.operatorId == b.operatorId && a.mode == b.mode
    && a.parent == b.parent && a.stepIndex == b.stepIndex
  }

  lemma GrowFamilies(s: Supervisor, seqId: Id, i: nat, intent: Intent)
    requires Numbered(s) && Families(s) && seqId in s.commands
    requires s.commands[seqId].kind == Sequence && |s.commands[seqId].children| == i
    ensures Families(Grow(s, seqId, i, intent))
  {
    var t := Grow(s, seqId, i, intent);
    forall x | x in t.commands ensures Linked(t, x) {
      assert Linked(s, seqId);
      if x != s.nextId {
        assert Linked(s, x);
      }
    }
  }

  lemma GrowCore(s: Supervisor, seqId: Id, i: nat, intent: Intent)
    requires Core(s) && seqId in s.commands && s.commands[seqId].kind == Sequence && !Terminal(s.commands[seqId].state)
    requires |s.commands[seqId].children| == i
    ensures Core(Grow(s, seqId, i, intent)) && s.nextId !in s.commands
    ensures Sends(Grow(s, seqId, i, intent).history) == Sends(s.history)
  {
    hide Sends, Rows, Audited, Dispatched, Ordered, Contiguous, Families;
    var p := s.commands[seqId];
    var q := Put(s, seqId, p.(children := p.children + [s.nextId]));
    assert Sound(q) by { PutSound(s, seqId, q.commands[seqId]); }
    var t := Grow(s, seqId, i, intent);
    InsertSound(q, StepRecord(p, seqId, i, intent));
    GrowFamilies(s, seqId, i, intent);
    GrowJob(s, t, seqId);
    assert Finalised(p);
    assert Finals(t);
  }

  lemma GrowJob(s: Supervisor, t: Supervisor, seqId: Id)
    requires SingleJob(s) && seqId in s.commands && seqId in t.commands
    requires forall x | x in t.commands && t.commands[x].parent.None? ::
               x in s.commands && s.commands[x].parent.None? && s.commands[x].kind == t.commands[x].kind
                   && s.commands[x].state == t.commands[x].state
    requires t.activeCommand == s.activeCommand && t.activeSequence == s.activeSequence
    ensures SingleJob(t)
  {
    forall x | x in t.commands && t.commands[x].parent.None? && !Terminal(t.commands[x].state) ensures Named(t, x) {
      assert Named(s, x);
    }
  }

  lemma AddStepCore(f: Flow, seqId: Id, i: nat, intent: Intent)
    requires Core(f.s) && f.fault == Clear && seqId in f.s.commands && f.s.commands[seqId].kind == Sequence
    requires f.s.commands[seqId].state == Parsing && |f.s.commands[seqId].children| == i
    ensures var g := AddStep(f, seqId, i, intent);
            var p := f.s.commands[seqId];
            && Core(g.s) && g.fault == Clear && f.s.nextId !in f.s.commands
            && g.s.commands == f.s.commands[seqId := p.(children := p.children + [f.s.nextId])]
                                           [f.s.nextId := StepRecord(p, seqId, i, intent).(state := Validating)]
            && g.s.activeSequence == f.s.activeSequence && g.s.lock == f.s.lock
            && Sends(g.s.history) == Sends(f.s.history)
  {
    hide Core, Sends, Insert;
    var id := f.s.nextId;
    var t := Grow(f.s, seqId, i, intent);
    GrowCore(f.s, seqId, i, intent);
    GrownRecords(f.s, seqId, i, intent);
    MoveCore(Flow(t, Clear), id, Parsing);
    var m := Move(Flow(t, Clear), id, Parsing);
    MoveCore(m, id, Validating);
    TouchTrans(t, m.s, Move(m, id, Validating).s, id);
    assert AddStep(f, seqId, i, intent) == Move(m, id, Validating);
  }

  lemma GrownRecords(s: Supervisor, seqId: Id, i: nat, intent: Intent)
    requires seqId in s.commands
    ensures var t := Grow(s, seqId, i, intent);
            var p := s.commands[seqId];
            && t.commands == s.commands[seqId := p.(children := p.children + [s.nextId])][s.nextId := StepRecord(p, seqId, i, intent)]
            && t.activeSequence == s.activeSequence && t.lock == s.lock
  {
  }

  lemma {:induction false} AddStepsCore(f: Flow, seqId: Id, intents: seq<Intent>)
    requires Core(f.s) && f.fault == Clear && seqId in f.s.commands && f.s.commands[seqId].kind == Sequence
    requires f.s.commands[seqId].state == Parsing && f.s.commands[seqId].children == []
    ensures var g := AddSteps(f, seqId, intents);
            && Core(g.s) && g.fault == Clear && Growing(f.s, g.s, seqId, |intents|)
            && g.s.commands[seqId].state == Parsing
    decreases |intents|
  {
    hide Core, Sends, AddStep, Growing;
    if intents == [] {
      GrowingNothing(f.s, seqId);
    } else {
      var n := |intents| - 1;
      var m := AddSteps(f, seqId, intents[..n]);
      AddStepsCore(f, seqId, intents[..n]);
      GrownListed(f.s, m.s, seqId, n);
      AddStepCore(m, seqId, n, intents[n]);
      GrowingSnoc(f.s, m.s, AddSteps(f, seqId, intents).s, seqId, n, intents[n]);
    }
  }

  lemma GrowingNothing(s: Supervisor, seqId: Id)
    requires seqId in s.commands && s.commands[seqId].children == []
    ensures Growing(s, s, seqId, 0)
  {
  }

  lemma GrownListed(s: Supervisor, t: Supervisor, seqId: Id, n: nat)
    requires Growing(s, t, seqId, n)
    ensures seqId in s.commands && seqId in t.commands && |t.commands[seqId].children| == n
    ensures t.commands[seqId].kind == s.commands[seqId].kind
  {
    hide Sends;
  }

  lemma GrowingSnoc(s: Supervisor, t: Supervisor, u: Supervisor, seqId: Id, n: nat, intent: Intent)
    requires Growing(s, t, seqId, n) && t.nextId !in t.commands
    requires var p := t.commands[seqId];
             u.commands == t.commands[seqId := p.(children := p.children + [t.nextId])]
                                     [t.nextId := StepRecord(p, seqId, n, intent).(state := Validating)]
    requires u.activeSequence == t.activeSequence && u.lock == t.lock && Sends(u.history) == Sends(t.history)
    ensures Growing(s, u, seqId, n + 1)
  {
    hide Sends;
  }

  /** Against the state before the submission: old records are as they were, and what is new is the
      sequence or one of its steps. */
  ghost predicate Founded(s: Supervisor, t: Supervisor, id: Id) {
    && id !in s.commands && id in t.commands
    && (forall x | x in s.commands :: x in t.commands && t.commands[x] == s.commands[x])
    && (forall x | x in t.commands && x !in s.commands && x != id :: t.commands[x].parent == Some(id))
    && t.commands[id].parent.None?
    && t.lock == s.lock && Sends(t.history) == Sends(s.history)
  }

  lemma FoundedTouch(s: Supervisor, t: Supervisor, u: Supervisor, id: Id, x: Id)
    requires Founded(s, t, id) && OnlyTouches(t, u, x) && x !in s.commands && Sends(u.history) == Sends(t.history)
    ensures Founded(s, u, id)
  {
    hide Sends;
  }

  lemma StagedFounded(s: Supervisor, t: Supervisor, id: Id)
    requires Families(s) && Staged(s) && Families(t) && Founded(s, t, id)
    requires t.commands[id].state == NeedsConfirmation ==> StepsWait(t, id)
    ensures Staged(t)
  {
    hide Sends;
    forall x | x in t.commands && t.commands[x].kind == Sequence && t.commands[x].state == NeedsConfirmation
      ensures StepsWait(t, x)
    {
      assert Linked(t, x);
      if x in s.commands {
        assert StepsWait(s, x);
        assert Linked(s, x);
      }
    }
  }

  /** All steps of the sequence are in the given state. */
  ghost predicate StepsIn(s: Supervisor, id: Id, state: State) {
    && id in s.commands
    && forall c | c in s.commands[id].children :: c in s.commands && s.commands[c].state == state
  }

  lemma AdmittedParsing(s: Supervisor, caller: Caller, mode: Mode)
    requires Inv(s) && NoJob(s)
    ensures var f := Move(Flow(Admit(s, Blank(Sequence, caller, mode)), Clear), s.nextId, Parsing);
            && Core(f.s) && f.fault == Clear && Founded(s, f.s, s.nextId)
            && f.s.commands[s.nextId] == Blank(Sequence, caller, mode).(state := Parsing)
            && f.s.commands == s.commands[s.nextId := Blank(Sequence, caller, mode).(state := Parsing)]
  {
    hide Core, Staged, Sends, Admit;
    AdmitInv(s, Sequence, caller, mode);
    var t := Admit(s, Blank(Sequence, caller, mode));
    MoveCore(Flow(t, Clear), s.nextId, Parsing);
  }

  lemma PointAtFirstCore(f: Flow, seqId: Id)
    requires Core(f.s) && f.fault == Clear && seqId in f.s.commands
    requires f.s.commands[seqId].kind == Sequence && !Terminal(f.s.commands[seqId].state)
    ensures var g := PointAtFirst(f, seqId);
            && Core(g.s) && g.fault == Clear && g.s.history == f.s.history && g.s.lock == f.s.lock
            && g.s.commands == f.s.commands[seqId := f.s.commands[seqId].(currentStep := Some(0))]
  {
    hide Core;
    var steps := f.s.commands[seqId].children;
    RunningIsNamed(f.s, seqId);
    PutCore(f.s, seqId, f.s.commands[seqId].(currentStep := Some(0)));
    PointerCore(Put(f.s, seqId, f.s.commands[seqId].(currentStep := Some(0))),
                if steps == [] then None else Some(steps[0]));
  }

  lemma BuildSequenceCore(s: Supervisor, caller: Caller, mode: Mode, intents: seq<Intent>)
    requires Inv(s) && NoJob(s)
    ensures var g := BuildSequence(s, caller, mode, intents);
            && Core(g.s) && g.fault == Clear && Founded(s, g.s, s.nextId)
            && g.s.commands[s.nextId].kind == Sequence && g.s.commands[s.nextId].state == Validating
            && g.s.commands[s.nextId].mode == mode && |g.s.commands[s.nextId].children| == |intents|
            && StepsIn(g.s, s.nextId, Validating)
  {
    hide Core, Sends, Admit, AddSteps, PointAtFirst;
    var id := s.nextId;
    var f := Move(Flow(Admit(s, Blank(Sequence, caller, mode)), Clear), id, Parsing);
    AdmittedParsing(s, caller, mode);
    AddStepsCore(f, id, intents);
    var g := AddSteps(f, id, intents);
    PointAtFirstCore(g, id);
    var p := PointAtFirst(g, id);
    assert Founded(s, p.s, id);
    MoveCore(p, id, Validating);
    FoundedTouch(s, p.s, Move(p, id, Validating).s, id, id);
  }

  /** Only the fingerprints of the listed records may differ. */
  ghost predicate Fingerprinted(s: Supervisor, t: Supervisor) {
    && t.commands.Keys == s.commands.Keys
    && (forall x | x in s.commands :: t.commands[x] == s.commands[x].(fingerprint := t.commands[x].fingerprint))
  }

  lemma {:induction false} FingerprintStepsCore(s: Supervisor, f: Flow, id: Id, steps: seq<Id>, mode: Mode,
                                                env: SubmitEnv)
    requires Core(f.s) && f.fault == Clear && Founded(s, f.s, id)
    requires forall c | c in steps :: c in f.s.commands && c !in s.commands
    ensures var g := FingerprintSteps(f, steps, mode, env);
            && Core(g.s) && g.fault == Clear && Founded(s, g.s, id) && Fingerprinted(f.s, g.s)
            && (id in f.s.commands && id !in steps ==> g.s.commands[id] == f.s.commands[id])
    decreases |steps|
  {
    hide Core, Sends, CommandGate, Founded, StepGate, SameShape;
    if steps != [] {
      var i := |steps| - 1;
      assert steps == steps[..i] + [steps[i]];
      var g := FingerprintSteps(f, steps[..i], mode, env);
      FingerprintStepsCore(s, f, id, steps[..i], mode, env);
      var h := SetFingerprint(g, steps[i], StepGate(env, mode, i), env.stepDigest(i));
      PutCore(g.s, steps[i], h.s.commands[steps[i]]);
      FoundedTouch(s, g.s, h.s, id, steps[i]);
      FingerprintedSnoc(f.s, g.s, steps[i], StepGate(env, mode, i), env.stepDigest(i));
    }
  }

  lemma FingerprintedSnoc(s: Supervisor, t: Supervisor, x: Id, accepted: bool, digest: string)
    requires Fingerprinted(s, t) && x in t.commands
    ensures Fingerprinted(s, SetFingerprint(Flow(t, Clear), x, accepted, digest).s)
  {
  }

  lemma {:induction false} OpenStepsCore(s: Supervisor, f: Flow, id: Id, steps: seq<Id>, until: int)
    requires Core(f.s) && f.fault == Clear && Founded(s, f.s, id) && Distinct(steps) && id !in steps
    requires forall c | c in steps :: c in f.s.commands && c !in s.commands && f.s.commands[c].state == Validating
    ensures var g := OpenSteps(f, steps, until);
            && Core(g.s) && g.fault == Clear && Founded(s, g.s, id) && g.s.commands.Keys == f.s.commands.Keys
            && (forall x | x in f.s.commands && x !in steps :: g.s.commands[x] == f.s.commands[x])
            && (forall c | c in steps :: g.s.commands[c].state == NeedsConfirmation)
    decreases |steps|
  {
    hide Core, Sends, Founded;
    if steps != [] {
      var i := |steps| - 1;
      assert steps == steps[..i] + [steps[i]];
      var g := OpenSteps(f, steps[..i], until);
      OpenStepsCore(s, f, id, steps[..i], until);
      assert steps[i] !in steps[..i];
      var w := OpenWindow(g, steps[i], until);
      PutCore(g.s, steps[i], w.s.commands[steps[i]]);
      FoundedTouch(s, g.s, w.s, id, steps[i]);
      MoveCore(w, steps[i], NeedsConfirmation);
      FoundedTouch(s, w.s, Move(w, steps[i], NeedsConfirmation).s, id, steps[i]);
    }
  }

  lemma StepsAreNew(s: Supervisor, t: Supervisor, id: Id)
    requires Numbered(s) && Families(s) && Families(t) && Founded(s, t, id) && t.commands[id].kind == Sequence
    ensures var steps := t.commands[id].children;
            Distinct(steps) && id !in steps && forall c | c in steps :: c in t.commands && c !in s.commands
  {
    hide Sends;
    var steps := t.commands[id].children;
    forall x | x in s.commands ensures s.commands[x].parent != Some(id) {
      assert Linked(s, x);
    }
    forall j | 0 <= j < |steps|
      ensures steps[j] in t.commands && steps[j] != id && steps[j] !in s.commands
      ensures forall m | 0 <= m < |steps| && m != j :: steps[m] != steps[j]
    {
      StepsDistinct(t, id, j);
    }
  }

  /** The gates of a sequence and of all its steps let it through. */
  predicate JudgedOpen(mode: Mode, n: nat, env: SubmitEnv) {
    SequenceGate(env.runtime, env.sensors, mode) && StepGates(env, mode, n)
  }

  lemma JudgeSequenceInv(s: Supervisor, f: Flow, cfg: Config, id: Id, mode: Mode, now: int, env: SubmitEnv)
    requires Inv(s) && Core(f.s) && f.fault == Clear && Founded(s, f.s, id)
    requires f.s.commands[id].kind == Sequence && f.s.commands[id].state == Validating && StepsIn(f.s, id, Validating)
    ensures var g := JudgeSequence(f, cfg, id, mode, now, env);
            && Inv(g.s) && g.fault == Clear && Founded(s, g.s, id)
            && g.s.commands[id].mode == f.s.commands[id].mode
            && (Waiting(g.s, id) ==> JudgedOpen(mode, |f.s.commands[id].children|, env))
  {
    hide Sound, Finals, SingleJob, Sends, Families, Staged, Founded, SequenceGate, StepGates, Close,
         FingerprintSteps, OpenSteps;
    var steps := f.s.commands[id].children;
    NewSteps(s, f.s, id);
    var accepted := SequenceGate(env.runtime, env.sensors, mode);
    var p := SetFingerprint(f, id, accepted, env.digest);
    PutCore(f.s, id, p.s.commands[id]);
    FoundedTouch(s, f.s, p.s, id, id);
    var q := FingerprintSteps(p, steps, mode, env);
    FingerprintStepsCore(s, p, id, steps, mode, env);
    assert q.s.commands[id].children == steps && q.s.commands[id].state == Validating;
    var g := JudgeSequence(f, cfg, id, mode, now, env);
    if !accepted || !StepGates(env, mode, |steps|) {
      CloseCore(q, id, Rejected);
      FoundedTouch(s, q.s, g.s, id, id);
      FoundedInv(s, g.s, id);
    } else {
      OpenSequence(s, q, g, id, steps, now + cfg.window);
    }
  }

  lemma NewSteps(s: Supervisor, t: Supervisor, id: Id)
    requires Core(s) && Core(t) && Founded(s, t, id) && t.commands[id].kind == Sequence
    ensures var steps := t.commands[id].children;
            Distinct(steps) && id !in steps && id !in s.commands && forall c | c in steps :: c in t.commands && c !in s.commands
  {
    StepsAreNew(s, t, id);
  }

  lemma FoundedInv(s: Supervisor, t: Supervisor, id: Id)
    requires Inv(s) && Core(t) && Founded(s, t, id)
    requires t.commands[id].state == NeedsConfirmation ==> StepsWait(t, id)
    ensures Inv(t)
  {
    hide Sound, Finals, SingleJob, Sends;
    StagedFounded(s, t, id);
  }

  lemma OpenSequence(s: Supervisor, q: Flow, g: Flow, id: Id, steps: seq<Id>, until: int)
    requires Inv(s) && Core(q.s) && q.fault == Clear && Founded(s, q.s, id) && id in q.s.commands
    requires q.s.commands[id].kind == Sequence && q.s.commands[id].state == Validating
        && q.s.commands[id].children == steps
    requires Distinct(steps) && id !in steps && id !in s.commands
    requires forall c | c in steps :: c in q.s.commands && c !in s.commands && q.s.commands[c].state == Validating
    requires g == Move(OpenSteps(OpenWindow(q, id, until), steps, until), id, NeedsConfirmation)
    ensures Inv(g.s) && g.fault == Clear && Founded(s, g.s, id) && g.s.commands[id].mode == q.s.commands[id].mode
  {
    hide Core, Sends, Staged, OpenSteps, Founded;
    var w := OpenWindow(q, id, until);
    PutCore(q.s, id, w.s.commands[id]);
    FoundedTouch(s, q.s, w.s, id, id);
    OpenStepsCore(s, w, id, steps, until);
    var m := OpenSteps(w, steps, until);
    MoveCore(m, id, NeedsConfirmation);
    FoundedTouch(s, m.s, g.s, id, id);
    FoundedInv(s, g.s, id);
  }

  lemma PlanSequenceInv(s: Supervisor, cfg: Config, caller: Caller, mode: Mode, intents: Option<seq<Intent>>,
                        now: int, env: SubmitEnv)
    requires Inv(s) && NoJob(s)
    ensures var f := PlanSequence(s, cfg, caller, mode, intents, now, env);
            && Inv(f.s) && f.fault == (if env.parserRaises then ParserRaised else Clear) && Founded(s, f.s, s.nextId)
            && (env.parserRaises ==>
                  JobActive(f.s) && f.s.commands == s.commands[s.nextId := Blank(Sequence, caller, mode).(state := Parsing)])
            && (Waiting(f.s, s.nextId) ==>
                  !env.parserRaises && intents.Some? && JudgedOpen(mode, |intents.value|, env) && f.s.commands[s.nextId].mode == mode)
  {
    hide Core, Staged, Sends, Admit, Close, JudgeSequence, BuildSequence, JudgedOpen, Founded;
    var id := s.nextId;
    if env.parserRaises {
      AdmittedParsing(s, caller, mode);
      var m := Move(Flow(Admit(s, Blank(Sequence, caller, mode)), Clear), id, Parsing);
      RunningIsNamed(m.s, id);
      FoundedInv(s, m.s, id);
    } else if intents.None? {
      AdmittedParsing(s, caller, mode);
      var m := Move(Flow(Admit(s, Blank(Sequence, caller, mode)), Clear), id, Parsing);
      CloseCore(m, id, Rejected);
      assert id !in s.commands by { NextIsNew(s); }
      FoundedTouch(s, m.s, Close(m, id, Rejected).s, id, id);
      FoundedInv(s, Close(m, id, Rejected).s, id);
    } else {
      BuildSequenceCore(s, caller, mode, intents.value);
      JudgeSequenceInv(s, BuildSequence(s, caller, mode, intents.value), cfg, id, mode, now, env);
    }
  }

  lemma NextIsNew(s: Supervisor)
    requires Core(s)
    ensures s.nextId !in s.commands
  {
  }

  lemma SubmitSequenceInv(s: Supervisor, cfg: Config, caller: Caller, mode: Mode, intents: Option<seq<Intent>>,
                          now: int, env: SubmitEnv)
    requires Inv(s) && NoJob(s)
    requires forall j: nat :: Honest(env.autoEnv(j).ros)
    ensures var o := SubmitSequence(s, cfg, caller, mode, intents, now, env);
            && Inv(o.s) && o.reply != Crashed(InvalidTransition) && o.reply != Crashed(MissingKey)
            && (Sends(o.s.history) == Sends(s.history)
                || (cfg.simAutoConfirm && mode == Sim && intents.Some? && JudgedOpen(mode, |intents.value|, env)
                    && AutoSent(s, PlanSequence(s, cfg, caller, mode, intents, now, env).s, o.s, caller, env)))
  {
    hide Core, Staged, Sends, PlanSequence, ConfirmSequence, JudgedOpen, Authorised, FirstStop, Handed,
         MarchSteps, MarchEnd;
    var id := s.nextId;
    var f := PlanSequence(s, cfg, caller, mode, intents, now, env);
    PlanSequenceInv(s, cfg, caller, mode, intents, now, env);
    if f.fault == Clear && Waiting(f.s, id) && AutoConfirms(f.s, cfg, id) {
      ConfirmSequenceInv(f.s, caller, env.autoClock, id, f.s.commands[id].fingerprint.value, env.autoEnv);
    }
  }

  /** The sends of a sequence confirmed in the call that submitted it: an authorised confirmation of
      the planned sequence. */
  ghost predicate AutoSent(s: Supervisor, planned: Supervisor, t: Supervisor, caller: Caller, env: SubmitEnv) {
    && Sends(planned.history) == Sends(s.history)
    && s.nextId in planned.commands && planned.commands[s.nextId].fingerprint.Some?
    && Authorised(planned, caller, env.autoClock, s.nextId, planned.commands[s.nextId].fingerprint.value, Sequence)
    && (forall c | c in planned.commands[s.nextId].children :: c in planned.commands)
    && var steps := planned.commands[s.nextId].children;
       Sends(t.history) == Sends(planned.history) + Handed(StepRecords(planned, steps), steps, 0, env.autoEnv)
  }
}
