/** What waits for confirmation is what was parsed: the records a sequence submission leaves
    (hmi/backend/services/supervisor_submission.py, `_submit_sequence`). */
module PlannedSequences {
  import opened Wrappers
  import opened Lifecycle
  import opened Validation
  import opened SupervisorModel
  import opened SupervisorInvariants
  import opened CallEffects

  /** The ids of n steps created from `first` on. */
  function Ids(first: Id, n: nat): (ids: seq<Id>)
    ensures |ids| == n && forall i | 0 <= i < n :: ids[i] == first + i
  {
    seq(n, i => first + i)
  }

  predicate StepIs(t: Supervisor, id: Id, r: Record) {
    id in t.commands && t.commands[id] == r
  }

  // ---- creating the steps ----

  function Added(p: Record, seqId: Id, i: nat, intent: Intent): Record {
    StepRecord(p, seqId, i, intent).(state := Validating)
  }

  lemma AddStepForm(f: Flow, seqId: Id, i: nat, intent: Intent)
    requires f.fault == Clear && seqId in f.s.commands && seqId < f.s.nextId
    ensures var g := AddStep(f, seqId, i, intent);
            var p := f.s.commands[seqId];
            && g.fault == Clear && g.s.nextId == f.s.nextId + 1
            && g.s.commands == f.s.commands[seqId := p.(children := p.children + [f.s.nextId])]
                                           [f.s.nextId := Added(p, seqId, i, intent)]
  {
    var id := f.s.nextId;
    var t := Grow(f.s, seqId, i, intent);
    var m := Move(Flow(t, Clear), id, Parsing);
    assert m.fault == Clear && m.s.commands == t.commands[id := t.commands[id].(state := Parsing)];
  }

  /** The steps are created one after the other and listed by their parent; the rest stays. */
  lemma {:induction false} AddStepsForm(f: Flow, seqId: Id, intents: seq<Intent>)
    requires f.fault == Clear && seqId in f.s.commands && seqId < f.s.nextId && f.s.commands[seqId].children == []
    ensures var g := AddSteps(f, seqId, intents);
            var p := f.s.commands[seqId];
            && g.fault == Clear && g.s.nextId == f.s.nextId + |intents|
            && StepIs(g.s, seqId, p.(children := Ids(f.s.nextId, |intents|)))
            && (forall x | x in f.s.commands && x < f.s.nextId && x != seqId :: StepIs(g.s, x, f.s.commands[x]))
    decreases |intents|
  {
    hide AddStep;
    var p := f.s.commands[seqId];
    if intents == [] {
      assert p.(children := Ids(f.s.nextId, 0)) == p;
    } else {
      var n := |intents| - 1;
      AddStepsForm(f, seqId, intents[..n]);
      AddStepForm(AddSteps(f, seqId, intents[..n]), seqId, n, intents[n]);
      assert Ids(f.s.nextId, n) + [f.s.nextId + n] == Ids(f.s.nextId, n + 1);
    }
  }

  lemma {:induction false} AddedAt(f: Flow, seqId: Id, intents: seq<Intent>, i: nat)
    requires f.fault == Clear && seqId in f.s.commands && seqId < f.s.nextId && f.s.commands[seqId].children == []
    requires i < |intents|
    ensures StepIs(AddSteps(f, seqId, intents).s, f.s.nextId + i, Added(f.s.commands[seqId], seqId, i, intents[i]))
    decreases |intents|
  {
    hide AddStep;
    var n := |intents| - 1;
    var m := AddSteps(f, seqId, intents[..n]);
    AddStepsForm(f, seqId, intents[..n]);
    AddStepForm(m, seqId, n, intents[n]);
    SameStep(f.s.commands[seqId], m.s.commands[seqId], seqId, n, intents[n]);
    if i < n {
      AddedAt(f, seqId, intents[..n], i);
    }
  }

  lemma SameStep(a: Record, b: Record, seqId: Id, i: nat, intent: Intent)
    requires a.sessionId == b.sessionId && a.operatorId == b.operatorId && a.mode == b.mode
    ensures Added(a, seqId, i, intent) == Added(b, seqId, i, intent)
  {
  }

  // ---- fingerprinting and opening the steps ----

  function Marked(r: Record, mode: Mode, env: SubmitEnv, i: nat): Record {
    r.(fingerprint := if StepGate(env, mode, i) then Some(env.stepDigest(i)) else None)
  }

  /** Records outside the list are as they were. */
  ghost predicate OthersSame(s: Supervisor, t: Supervisor, ids: seq<Id>) {
    t.commands.Keys == s.commands.Keys && t.nextId == s.nextId
    && forall x | x in s.commands && x !in ids :: t.commands[x] == s.commands[x]
  }

  lemma {:induction false} FingerprintFrame(f: Flow, ids: seq<Id>, mode: Mode, env: SubmitEnv)
    requires f.fault == Clear
    ensures var g := FingerprintSteps(f, ids, mode, env); g.fault == Clear && OthersSame(f.s, g.s, ids)
    decreases |ids|
  {
    hide StepGate;
    if ids != [] {
      assert ids == ids[..|ids| - 1] + [ids[|ids| - 1]];
      FingerprintFrame(f, ids[..|ids| - 1], mode, env);
    }
  }

  lemma {:induction false} MarkedAt(f: Flow, ids: seq<Id>, mode: Mode, env: SubmitEnv, k: nat)
    requires f.fault == Clear && Distinct(ids) && k < |ids| && ids[k] in f.s.commands
    ensures StepIs(FingerprintSteps(f, ids, mode, env).s, ids[k], Marked(f.s.commands[ids[k]], mode, env, k))
    decreases |ids|
  {
    hide StepGate;
    var front := ids[..|ids| - 1];
    FingerprintFrame(f, front, mode, env);
    if k < |front| {
      MarkedAt(f, front, mode, env, k);
    } else {
      assert ids[k] !in front;
    }
  }

  function Opened(r: Record, until: int): Record {
    r.(expiresAt := Some(until), state := NeedsConfirmation)
  }

  lemma OpenOne(f: Flow, id: Id, until: int)
    requires f.fault == Clear && id in f.s.commands && f.s.commands[id].state == Validating
    ensures var g := Move(OpenWindow(f, id, until), id, NeedsConfirmation);
            && g.fault == Clear && g.s.nextId == f.s.nextId
            && g.s.commands == f.s.commands[id := Opened(f.s.commands[id], until)]
  {
  }

  ghost predicate AllValidating(s: Supervisor, ids: seq<Id>) {
    forall k | 0 <= k < |ids| :: ids[k] in s.commands && s.commands[ids[k]].state == Validating
  }

  lemma {:induction false} OpenFrame(f: Flow, ids: seq<Id>, until: int)
    requires f.fault == Clear && Distinct(ids) && AllValidating(f.s, ids)
    ensures var g := OpenSteps(f, ids, until); g.fault == Clear && OthersSame(f.s, g.s, ids)
    decreases |ids|
  {
    hide Move, OpenWindow;
    if ids != [] {
      var front, last := ids[..|ids| - 1], ids[|ids| - 1];
      assert ids == front + [last];
      assert last !in front;
      OpenFrame(f, front, until);
      OpenOne(OpenSteps(f, front, until), last, until);
    }
  }

  lemma {:induction false} OpenedAt(f: Flow, ids: seq<Id>, until: int, k: nat)
    requires f.fault == Clear && Distinct(ids) && AllValidating(f.s, ids) && k < |ids|
    ensures StepIs(OpenSteps(f, ids, until).s, ids[k], Opened(f.s.commands[ids[k]], until))
    decreases |ids|
  {
    hide Move, OpenWindow;
    var front, last := ids[..|ids| - 1], ids[|ids| - 1];
    assert last !in front;
    OpenFrame(f, front, until);
    OpenOne(OpenSteps(f, front, until), last, until);
    if k < |front| {
      OpenedAt(f, front, until, k);
    }
  }

  // ---- the whole plan ----

  /** Step i of a waiting sequence: the i-th parsed intent, under its parent, with its own digest,
      in the sequence's window. */
  function WaitingStep(caller: Caller, mode: Mode, seqId: Id, i: nat, intent: Intent, digest: string,
                       until: int): Record {
    Record(Command, caller.sessionId, caller.operatorId, mode, Some(seqId), i, [], Some(intent),
           NeedsConfirmation, None, Some(digest), Some(until), None, false)
  }

  function WaitingSequence(caller: Caller, mode: Mode, children: seq<Id>, digest: string, until: int): Record {
    Record(Sequence, caller.sessionId, caller.operatorId, mode, None, 0, children, None,
           NeedsConfirmation, None, Some(digest), Some(until), Some(0), false)
  }

  /** The sequence while it is being validated. */
  function ValidatedSequence(caller: Caller, mode: Mode, children: seq<Id>): Record {
    Blank(Sequence, caller, mode).(children := children, state := Validating, currentStep := Some(0))
  }

  lemma BuiltForm(s: Supervisor, caller: Caller, mode: Mode, intents: seq<Intent>)
    ensures var g := BuildSequence(s, caller, mode, intents);
            && g.fault == Clear
            && StepIs(g.s, s.nextId, ValidatedSequence(caller, mode, Ids(s.nextId + 1, |intents|)))
            && (forall i: nat | i < |intents| ::
                  StepIs(g.s, s.nextId + 1 + i, Added(Blank(Sequence, caller, mode), s.nextId, i, intents[i])))
            && (forall x | x in s.commands && x < s.nextId :: StepIs(g.s, x, s.commands[x]))
  {
    hide AddSteps;
    var id, p := s.nextId, Blank(Sequence, caller, mode);
    var f := Move(Flow(Admit(s, p), Clear), id, Parsing);
    AddStepsForm(f, id, intents);
    var g := AddSteps(f, id, intents);
    forall i: nat | i < |intents| ensures StepIs(g.s, id + 1 + i, Added(p, id, i, intents[i])) {
      AddedAt(f, id, intents, i);
      SameStep(f.s.commands[id], p, id, i, intents[i]);
    }
    assert forall x | x in s.commands && x < id :: x in f.s.commands && f.s.commands[x] == s.commands[x];
    PointedForm(g, id);
  }

  lemma PointedForm(g: Flow, id: Id)
    requires g.fault == Clear && id in g.s.commands && g.s.commands[id].state == Parsing
    ensures var h := Move(PointAtFirst(g, id), id, Validating);
            && h.fault == Clear
            && h.s.commands == g.s.commands[id := g.s.commands[id].(state := Validating, currentStep := Some(0))]
  {
  }

  lemma MarkAll(f: Flow, ids: seq<Id>, mode: Mode, env: SubmitEnv)
    requires f.fault == Clear && Distinct(ids) && AllValidating(f.s, ids)
    ensures var g := FingerprintSteps(f, ids, mode, env);
            && g.fault == Clear && OthersSame(f.s, g.s, ids) && AllValidating(g.s, ids)
            && (forall k: nat | k < |ids| :: StepIs(g.s, ids[k], Marked(f.s.commands[ids[k]], mode, env, k)))
  {
    hide StepGate, FingerprintSteps;
    FingerprintFrame(f, ids, mode, env);
    forall k: nat | k < |ids|
      ensures StepIs(FingerprintSteps(f, ids, mode, env).s, ids[k], Marked(f.s.commands[ids[k]], mode, env, k))
    {
      MarkedAt(f, ids, mode, env, k);
    }
  }

  /** The last three writes of a plan that passes: the sequence's window, the steps, the sequence. */
  lemma OpenAll(f: Flow, seqId: Id, ids: seq<Id>, until: int)
    requires f.fault == Clear && seqId in f.s.commands && f.s.commands[seqId].state == Validating
    requires Distinct(ids) && seqId !in ids && AllValidating(f.s, ids)
    ensures var g := Move(OpenSteps(OpenWindow(f, seqId, until), ids, until), seqId, NeedsConfirmation);
            && g.fault == Clear
            && StepIs(g.s, seqId, Opened(f.s.commands[seqId], until))
            && (forall k: nat | k < |ids| :: StepIs(g.s, ids[k], Opened(f.s.commands[ids[k]], until)))
            && (forall x | x in f.s.commands && x != seqId && x !in ids :: StepIs(g.s, x, f.s.commands[x]))
  {
    hide OpenSteps;
    var c := OpenWindow(f, seqId, until);
    assert forall k | 0 <= k < |ids| :: ids[k] in ids && c.s.commands[ids[k]] == f.s.commands[ids[k]];
    OpenFrame(c, ids, until);
    forall k: nat | k < |ids| ensures StepIs(OpenSteps(c, ids, until).s, ids[k], Opened(f.s.commands[ids[k]], until)) {
      OpenedAt(c, ids, until, k);
    }
  }

  lemma JudgeStages(f: Flow, cfg: Config, seqId: Id, mode: Mode, now: int, env: SubmitEnv)
    requires f.fault == Clear && seqId in f.s.commands
    requires SequenceGate(env.runtime, env.sensors, mode) && StepGates(env, mode, |f.s.commands[seqId].children|)
    ensures var ids, until := f.s.commands[seqId].children, now + cfg.window;
            JudgeSequence(f, cfg, seqId, mode, now, env)
            == Move(OpenSteps(OpenWindow(FingerprintSteps(SetFingerprint(f, seqId, true, env.digest), ids, mode, env), seqId, until),
                              ids, until), seqId, NeedsConfirmation)
  {
    hide SequenceGate, StepGates, FingerprintSteps, OpenSteps, Move;
  }

  /** Judging with every gate open: the sequence and its steps are opened in one window. */
  lemma JudgedForm(f: Flow, cfg: Config, seqId: Id, mode: Mode, now: int, env: SubmitEnv)
    requires f.fault == Clear && seqId in f.s.commands && f.s.commands[seqId].state == Validating
    requires var ids := f.s.commands[seqId].children; Distinct(ids) && seqId !in ids && AllValidating(f.s, ids)
    requires SequenceGate(env.runtime, env.sensors, mode) && StepGates(env, mode, |f.s.commands[seqId].children|)
    ensures var g := JudgeSequence(f, cfg, seqId, mode, now, env);
            var r := f.s.commands[seqId];
            var until := now + cfg.window;
            && g.fault == Clear
            && StepIs(g.s, seqId, Opened(r.(fingerprint := Some(env.digest)), until))
            && (forall k: nat | k < |r.children| ::
                  StepIs(g.s, r.children[k], Opened(Marked(f.s.commands[r.children[k]], mode, env, k), until)))
            && (forall x | x in f.s.commands && x != seqId && x !in r.children :: StepIs(g.s, x, f.s.commands[x]))
  {
    hide SequenceGate, StepGates, StepGate, FingerprintSteps, OpenSteps, OpenWindow, JudgeSequence, Opened,
         Marked, Move;
    var ids, until := f.s.commands[seqId].children, now + cfg.window;
    JudgeStages(f, cfg, seqId, mode, now, env);
    var a := SetFingerprint(f, seqId, true, env.digest);
    assert forall k | 0 <= k < |ids| :: ids[k] in ids && a.s.commands[ids[k]] == f.s.commands[ids[k]];
    MarkAll(a, ids, mode, env);
    OpenAll(FingerprintSteps(a, ids, mode, env), seqId, ids, until);
  }

  /** The sequence and its steps wait exactly as parsed. */
  ghost predicate Planned(s: Supervisor, t: Supervisor, caller: Caller, mode: Mode, intents: seq<Intent>,
                          until: int, env: SubmitEnv) {
    var id := s.nextId;
    && StepIs(t, id, WaitingSequence(caller, mode, Ids(id + 1, |intents|), env.digest, until))
    && (forall i: nat | i < |intents| ::
          StepIs(t, id + 1 + i, WaitingStep(caller, mode, id, i, intents[i], env.stepDigest(i), until)))
    && (forall x | x in s.commands && x < id :: StepIs(t, x, s.commands[x]))
  }

  /** When every gate passes, exactly the parsed intents wait, in order, under one sequence, each with
      its digest and all in one window. */
  lemma PlanWaitsAsParsed(s: Supervisor, cfg: Config, caller: Caller, mode: Mode, intents: seq<Intent>,
                          now: int, env: SubmitEnv)
    requires !env.parserRaises && SequenceGate(env.runtime, env.sensors, mode) && StepGates(env, mode, |intents|)
    ensures var f := PlanSequence(s, cfg, caller, mode, Some(intents), now, env);
            f.fault == Clear && Planned(s, f.s, caller, mode, intents, now + cfg.window, env)
  {
    hide SequenceGate, CommandGate, BuildSequence, JudgeSequence, StepGate, Opened, Marked, Added, ValidatedSequence,
         WaitingStep, WaitingSequence, Ids;
    var id, n, until := s.nextId, |intents|, now + cfg.window;
    var b := BuildSequence(s, caller, mode, intents);
    var ids := Ids(id + 1, n);
    BuiltForm(s, caller, mode, intents);
    BuiltReady(s, b.s, caller, mode, intents);
    SequenceWaits(caller, mode, ids, until, env);
    JudgedForm(b, cfg, id, mode, now, env);
    var g := JudgeSequence(b, cfg, id, mode, now, env);
    forall i: nat | i < n
      ensures StepIs(g.s, id + 1 + i, WaitingStep(caller, mode, id, i, intents[i], env.stepDigest(i), until))
    {
      assert StepIs(b.s, id + 1 + i, Added(Blank(Sequence, caller, mode), id, i, intents[i]));
      JudgedStep(b.s, g.s, ids, caller, mode, id, i, intents[i], until, env);
    }
    forall x | x in s.commands && x < id ensures StepIs(g.s, x, s.commands[x]) {
      assert StepIs(b.s, x, s.commands[x]);
    }
  }

  lemma JudgedStep(b: Supervisor, g: Supervisor, ids: seq<Id>, caller: Caller, mode: Mode, id: Id, i: nat,
                   intent: Intent, until: int, env: SubmitEnv)
    requires i < |ids| && ids[i] == id + 1 + i && StepGate(env, mode, i)
    requires StepIs(b, id + 1 + i, Added(Blank(Sequence, caller, mode), id, i, intent))
    requires StepIs(g, ids[i], Opened(Marked(b.commands[ids[i]], mode, env, i), until))
    ensures StepIs(g, id + 1 + i, WaitingStep(caller, mode, id, i, intent, env.stepDigest(i), until))
  {
    hide StepGate, Opened, Marked, Added, WaitingStep;
    StepWaits(caller, mode, id, i, intent, until, env);
  }

  lemma BuiltReady(s: Supervisor, t: Supervisor, caller: Caller, mode: Mode, intents: seq<Intent>)
    requires forall i: nat | i < |intents| ::
               StepIs(t, s.nextId + 1 + i, Added(Blank(Sequence, caller, mode), s.nextId, i, intents[i]))
    ensures var ids := Ids(s.nextId + 1, |intents|);
            Distinct(ids) && s.nextId !in ids && AllValidating(t, ids)
  {
    var ids := Ids(s.nextId + 1, |intents|);
    forall k | 0 <= k < |ids| ensures ids[k] in t.commands && t.commands[ids[k]].state == Validating {
      var i: nat := k;
      assert StepIs(t, s.nextId + 1 + i, Added(Blank(Sequence, caller, mode), s.nextId, i, intents[i]));
    }
  }

  lemma SequenceWaits(caller: Caller, mode: Mode, ids: seq<Id>, until: int, env: SubmitEnv)
    ensures Opened(ValidatedSequence(caller, mode, ids).(fingerprint := Some(env.digest)), until)
         == WaitingSequence(caller, mode, ids, env.digest, until)
    ensures ValidatedSequence(caller, mode, ids).state == Validating && ValidatedSequence(caller, mode, ids).children == ids
  {
  }

  lemma StepWaits(caller: Caller, mode: Mode, seqId: Id, i: nat, intent: Intent, until: int, env: SubmitEnv)
    requires StepGate(env, mode, i)
    ensures Opened(Marked(Added(Blank(Sequence, caller, mode), seqId, i, intent), mode, env, i), until)
         == WaitingStep(caller, mode, seqId, i, intent, env.stepDigest(i), until)
  {
    hide StepGate;
  }

  // ---- a plan that is refused ----

  lemma JudgedShut(f: Flow, cfg: Config, seqId: Id, mode: Mode, now: int, env: SubmitEnv)
    requires f.fault == Clear && seqId in f.s.commands && f.s.commands[seqId].state == Validating
    requires var ids := f.s.commands[seqId].children; Distinct(ids) && seqId !in ids && AllValidating(f.s, ids)
    requires !(SequenceGate(env.runtime, env.sensors, mode) && StepGates(env, mode, |f.s.commands[seqId].children|))
    ensures var g := JudgeSequence(f, cfg, seqId, mode, now, env);
            var ids := f.s.commands[seqId].children;
            && g.fault == Clear && seqId in g.s.commands
            && g.s.commands[seqId].state == Rejected && g.s.commands[seqId].children == ids
            && (forall k: nat | k < |ids| :: StepIs(g.s, ids[k], Marked(f.s.commands[ids[k]], mode, env, k)))
  {
    hide SequenceGate, StepGates, StepGate, FingerprintSteps, Marked;
    var ids := f.s.commands[seqId].children;
    var a := SetFingerprint(f, seqId, SequenceGate(env.runtime, env.sensors, mode), env.digest);
    assert forall k | 0 <= k < |ids| :: ids[k] in ids && a.s.commands[ids[k]] == f.s.commands[ids[k]];
    MarkAll(a, ids, mode, env);
    assert forall k: nat | k < |ids| :: ids[k] in ids;
  }

  /** When some gate is shut the sequence is rejected and its steps are left at VALIDATING, so every
      step is over exactly when there are none. */
  lemma RejectionLeavesSteps(s: Supervisor, cfg: Config, caller: Caller, mode: Mode, intents: seq<Intent>, now: int,
                             env: SubmitEnv)
    requires !env.parserRaises && !(SequenceGate(env.runtime, env.sensors, mode) && StepGates(env, mode, |intents|))
    ensures var t := PlanSequence(s, cfg, caller, mode, Some(intents), now, env).s;
            var id := s.nextId;
            var steps := Ids(id + 1, |intents|);
            && id in t.commands && t.commands[id].state == Rejected && t.commands[id].children == steps
            && (forall i: nat | i < |intents| ::
                  StepIs(t, steps[i], Marked(Added(Blank(Sequence, caller, mode), id, i, intents[i]), mode, env, i))
                  && t.commands[steps[i]].state == Validating)
            && (StepsOver(t, steps) <==> intents == [])
  {
    hide SequenceGate, CommandGate, BuildSequence, JudgeSequence, StepGate, StepGates, Ids;
    var id, n := s.nextId, |intents|;
    var b := BuildSequence(s, caller, mode, intents);
    var steps := Ids(id + 1, n);
    BuiltForm(s, caller, mode, intents);
    BuiltReady(s, b.s, caller, mode, intents);
    JudgedShut(b, cfg, id, mode, now, env);
    forall i: nat | i < n ensures StepIs(b.s, steps[i], Added(Blank(Sequence, caller, mode), id, i, intents[i])) {
      assert StepIs(b.s, id + 1 + i, Added(Blank(Sequence, caller, mode), id, i, intents[i]));
    }
    if intents != [] {
      assert steps[0] in steps;
    }
  }
}
