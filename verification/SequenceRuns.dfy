/** Confirming a sequence executes an ordered prefix of its steps
    (hmi/backend/services/supervisor_lifecycle.py, `confirm_sequence`). */
module SequenceRuns {
  import opened Wrappers
  import opened Lifecycle
  import opened SupervisorModel
  import opened SupervisorInvariants
  import opened SupervisorCalls

  /** The step's gate opens and its execution reports success. */
  predicate Succeeds(r: Record, env: StepEnv) {
    GateOpen(r, env) && AttemptFinal(r, env) == Some(Succeeded)
  }

  /** The first position from i on that does not succeed, or the number of steps. */
  function FirstStop(plan: seq<Record>, i: nat, env: nat -> StepEnv): (k: nat)
    requires i <= |plan|
    ensures i <= k <= |plan|
    ensures forall j: nat | i <= j < k :: Succeeds(plan[j], env(j))
    ensures k < |plan| ==> !Succeeds(plan[k], env(k))
    decreases |plan| - i
  {
    if i < |plan| && Succeeds(plan[i], env(i)) then FirstStop(plan, i + 1, env) else i
  }

  /** The steps from i on that are handed to ROS: those before the stop, and the stop itself if its
      gate opens; pose queries never. */
  function Handed(plan: seq<Record>, steps: seq<Id>, i: nat, env: nat -> StepEnv): seq<Id>
    requires |plan| == |steps|
    decreases |plan| - i
  {
    if i >= |plan| || !GateOpen(plan[i], env(i)) then []
    else
      (if IsPoseQuery(plan[i].intent) then [] else [steps[i]])
      + (if Succeeds(plan[i], env(i)) then Handed(plan, steps, i + 1, env) else [])
  }

  function Done(r: Record, final: State): Record {
    r.(state := final, finalState := Some(final))
  }

  /** The sequence is executing and its steps from i on still wait, as recorded in the plan. */
  ghost predicate Marching(s: Supervisor, seqId: Id, steps: seq<Id>, plan: seq<Record>, i: nat) {
    && |plan| == |steps| && i <= |steps|
    && seqId in s.commands && s.commands[seqId].kind == Sequence
    && s.commands[seqId].state == Executing && s.commands[seqId].children == steps
    && (forall j | 0 <= j < |steps| :: steps[j] in s.commands && SameIntent(s.commands[steps[j]], plan[j]))
    && (forall j | i <= j < |steps| :: s.commands[steps[j]] == plan[j] && plan[j].state == NeedsConfirmation)
  }

  ghost predicate SameIntent(a: Record, b: Record) {
    a.intent == b.intent
  }

  /** The outcome of the stopping step k, and what the sequence makes of it. */
  ghost predicate Stopped(t: Supervisor, fault: Fault, seqId: Id, steps: seq<Id>, plan: seq<Record>, k: nat,
                          env: StepEnv)
    requires seqId in t.commands && k < |steps| == |plan| && steps[k] in t.commands
  {
    var q := t.commands[seqId];
    var c := t.commands[steps[k]];
    var recovery := exists j | 0 <= j <= k :: IsIoSet(plan[j]);
    if !GateOpen(plan[k], env) then
      fault == Clear && c == plan[k] && q.state == Failed && q.finalState == None && q.manualRecovery == recovery
    else
      match AttemptFinal(plan[k], env)
      case None => fault == AdapterRaised && c == plan[k].(state := ExecutionRequested) && q.state == Executing
      case Some(final) =>
        fault == Clear && c == Done(plan[k], final) && q.state == final && q.finalState == Some(final)
        && q.manualRecovery == recovery
  }

  /** Neither the records outside the sequence nor the steps before i change. */
  ghost predicate MarchFrame(s: Supervisor, t: Supervisor, seqId: Id, steps: seq<Id>, i: nat)
    requires i <= |steps|
  {
    && t.commands.Keys == s.commands.Keys
    && seqId in s.commands && SameShape(s.commands[seqId], t.commands[seqId])
    && (forall x | x in s.commands && x != seqId
        && s.commands[x].parent != Some(seqId) :: t.commands[x] == s.commands[x])
    && (forall j | 0 <= j < i :: steps[j] in s.commands && t.commands[steps[j]] == s.commands[steps[j]])
    && t.activeSequence == s.activeSequence && t.nextId == s.nextId && t.lock == s.lock
  }

  /** The steps i..k-1 succeeded and those after k are as they were. */
  ghost predicate MarchSteps(t: Supervisor, steps: seq<Id>, plan: seq<Record>, i: nat, k: nat)
    requires |plan| == |steps|
  {
    && (forall j | 0 <= j < |steps| :: steps[j] in t.commands)
    && (forall j | i <= j < k && j < |steps| :: t.commands[steps[j]] == Done(plan[j], Succeeded))
    && (forall j | k < j < |steps| :: t.commands[steps[j]] == plan[j])
  }

  ghost predicate MarchEnd(g: Flow, seqId: Id, steps: seq<Id>, plan: seq<Record>, k: nat, env: nat -> StepEnv)
    requires seqId in g.s.commands && k <= |steps| == |plan| && (k < |steps| ==> steps[k] in g.s.commands)
  {
    if k < |steps| then Stopped(g.s, g.fault, seqId, steps, plan, k, env(k))
    else g.fault == Clear && g.s.commands[seqId].state == Succeeded && g.s.commands[seqId].finalState == Some(Succeeded)
  }

  /** The ordered-prefix property of the steps from i on. */
  ghost predicate Marched(s: Supervisor, g: Flow, seqId: Id, steps: seq<Id>, plan: seq<Record>, i: nat,
                          env: nat -> StepEnv)
    requires |plan| == |steps| && i <= |steps|
  {
    var k := FirstStop(plan, i, env);
    && MarchFrame(s, g.s, seqId, steps, i)
    && MarchSteps(g.s, steps, plan, i, k)
    && MarchEnd(g, seqId, steps, plan, k, env)
    && Sends(g.s.history) == Sends(s.history) + Handed(plan, steps, i, env)
  }

  /** While a sequence is the job, the active command is only a pointer to one of its steps. */
  lemma PointerCore(s: Supervisor, pointer: Option<Id>)
    requires Core(s) && s.activeSequence.Some?
    ensures Core(s.(activeCommand := pointer))
  {
    var t := s.(activeCommand := pointer);
    forall x | x in t.commands ensures Linked(t, x) {
      assert Linked(s, x);
    }
    forall x | x in t.commands && t.commands[x].parent.None? && !Terminal(t.commands[x].state) ensures Named(t, x) {
      assert Named(s, x);
    }
  }

  lemma RunningIsNamed(s: Supervisor, seqId: Id)
    requires Core(s) && seqId in s.commands && s.commands[seqId].kind == Sequence && !Terminal(s.commands[seqId].state)
    ensures s.activeSequence == Some(seqId)
  {
    assert Linked(s, seqId);
    assert Named(s, seqId);
  }

  lemma PointAtCore(f: Flow, seqId: Id, step: Id)
    requires Core(f.s) && f.fault == Clear && seqId in f.s.commands && step in f.s.commands
    requires f.s.commands[seqId].kind == Sequence && !Terminal(f.s.commands[seqId].state)
    ensures var g := PointAt(f, seqId, step);
            && Core(g.s) && g.fault == Clear && g.s.history == f.s.history
            && g.s.activeSequence == f.s.activeSequence && g.s.nextId == f.s.nextId && g.s.lock == f.s.lock
            && g.s.commands == f.s.commands[seqId := f.s.commands[seqId].(currentStep := Some(f.s.commands[step].stepIndex))]
  {
    hide Core;
    var r := f.s.commands[seqId].(currentStep := Some(f.s.commands[step].stepIndex));
    RunningIsNamed(f.s, seqId);
    PutCore(f.s, seqId, r);
    PointerCore(Put(f.s, seqId, r), Some(step));
  }

  /** The outcome of a step that did not succeed but was not left in flight. */
  predicate Unsuccessful(final: Option<State>) {
    final == None || final == Some(Failed) || final == Some(Cancelled)
  }

  /** The sequence record after the failure of the given step. */
  function FailedBy(s: Supervisor, seqId: Id, step: Id): Record
    requires seqId in s.commands && step in s.commands
  {
    var c := s.commands[step];
    s.commands[seqId].(state := if c.finalState.Some? then c.finalState.value else Failed, finalState := c.finalState,
                       manualRecovery := TouchedIo(s.commands, s.commands[seqId].children, c.stepIndex))
  }

  lemma FailSequenceTouches(f: Flow, seqId: Id, step: Id)
    requires f.fault == Clear && seqId in f.s.commands && step in f.s.commands
    requires f.s.commands[seqId].state == Executing && Unsuccessful(f.s.commands[step].finalState)
    ensures var g := FailSequence(f, seqId, step);
            g.fault == Clear && OnlyTouches(f.s, g.s, seqId) && g.s.commands[seqId] == FailedBy(f.s, seqId, step)
  {
  }

  lemma FailSequenceSound(f: Flow, seqId: Id, step: Id)
    requires Sound(f.s)
    ensures var g := FailSequence(f, seqId, step);
            Sound(g.s) && Sends(g.s.history) == Sends(f.s.history)
  {
    if f.fault == Clear && seqId in f.s.commands && step in f.s.commands {
      var c := f.s.commands[step];
      var r := f.s.commands[seqId].(finalState := c.finalState,
                                    manualRecovery := TouchedIo(f.s.commands, f.s.commands[seqId].children, c.stepIndex));
      PutSound(f.s, seqId, r);
      MoveSound(f.(s := Put(f.s, seqId, r)), seqId, if c.finalState.Some? then c.finalState.value else Failed);
    }
  }

  lemma FailSequenceCore(f: Flow, seqId: Id, step: Id)
    requires Core(f.s) && f.fault == Clear && seqId in f.s.commands && step in f.s.commands
    requires f.s.commands[seqId].kind == Sequence && f.s.commands[seqId].state == Executing
    requires Unsuccessful(f.s.commands[step].finalState)
    ensures var g := FailSequence(f, seqId, step);
            && Core(g.s) && g.fault == Clear && OnlyTouches(f.s, g.s, seqId) && Sends(g.s.history) == Sends(f.s.history)
            && g.s.commands[seqId] == FailedBy(f.s, seqId, step)
  {
    FailSequenceTouches(f, seqId, step);
    FailSequenceSound(f, seqId, step);
    TouchCore(f.s, FailSequence(f, seqId, step).s, seqId);
  }

  lemma CompleteSequenceCore(f: Flow, seqId: Id)
    requires Core(f.s) && f.fault == Clear && seqId in f.s.commands && f.s.commands[seqId].state == Executing
    ensures var g := CompleteSequence(f, seqId);
            && Core(g.s) && g.fault == Clear && OnlyTouches(f.s, g.s, seqId) && Sends(g.s.history) == Sends(f.s.history)
            && g.s.commands[seqId].state == Succeeded && g.s.commands[seqId].finalState == Some(Succeeded)
  {
    var r := f.s.commands[seqId];
    var r' := if |r.children| > 0 then r.(currentStep := Some(|r.children| - 1)) else r;
    var p := Put(f.s, seqId, r');
    PutCore(f.s, seqId, r');
    CloseCore(f.(s := p), seqId, Succeeded);
    TouchTrans(f.s, p, CompleteSequence(f, seqId).s, seqId);
  }

  /** A step is listed once, its parent is the sequence, and the sequence is not its own step. */
  lemma StepsDistinct(s: Supervisor, seqId: Id, j: nat)
    requires Families(s) && seqId in s.commands && s.commands[seqId].kind == Sequence
        && j < |s.commands[seqId].children|
    ensures var steps := s.commands[seqId].children;
            && steps[j] in s.commands && steps[j] != seqId
            && s.commands[steps[j]].parent == Some(seqId) && s.commands[steps[j]].stepIndex == j
            && s.commands[steps[j]].kind == Command
            && forall m | 0 <= m < |steps| && m != j :: steps[m] != steps[j]
  {
    assert Linked(s, seqId);
    var steps := s.commands[seqId].children;
    assert Linked(s, steps[j]);
  }

  ghost predicate HonestFrom(env: nat -> StepEnv, i: nat, n: nat) {
    forall j: nat | i <= j < n :: Honest(env(j).ros)
  }

  /** After pointing at step i and attempting it. */
  ghost predicate StepTaken(s: Supervisor, g: Flow, seqId: Id, steps: seq<Id>, plan: seq<Record>, i: nat, env: StepEnv)
    requires i < |steps| == |plan|
  {
    var t := g.s;
    && t.commands.Keys == s.commands.Keys && seqId in t.commands && steps[i] in t.commands
    && (forall x | x in s.commands && x != seqId && x != steps[i] :: t.commands[x] == s.commands[x])
    && SameShape(s.commands[seqId], t.commands[seqId])
    && t.commands[seqId].state == Executing
    && t.activeSequence == s.activeSequence && t.nextId == s.nextId && t.lock == s.lock
    && Sends(t.history) == Sends(s.history)
         + (if GateOpen(plan[i], env) && !IsPoseQuery(plan[i].intent) then [steps[i]] else [])
    && (if !GateOpen(plan[i], env) then g.fault == Clear && t.commands[steps[i]] == plan[i]
        else
          match AttemptFinal(plan[i], env)
          case None => g.fault == AdapterRaised && t.commands[steps[i]] == plan[i].(state := ExecutionRequested)
          case Some(final) => g.fault == Clear && t.commands[steps[i]] == Done(plan[i], final))
  }

  lemma TakeStep(f: Flow, seqId: Id, steps: seq<Id>, plan: seq<Record>, i: nat, env: StepEnv)
    requires Core(f.s) && f.fault == Clear && Marching(f.s, seqId, steps, plan, i) && i < |steps| && Honest(env.ros)
    ensures var g := ConfirmInternal(PointAt(f, seqId, steps[i]), steps[i], env);
            Core(g.s) && StepTaken(f.s, g, seqId, steps, plan, i, env)
  {
    hide GateOpen, AttemptFinal, IsPoseQuery, Sends, Sound, Families, SingleJob, Finals, ConfirmInternal, PointAt;
    StepsDistinct(f.s, seqId, i);
    var p := PointAt(f, seqId, steps[i]);
    PointAtCore(f, seqId, steps[i]);
    assert p.s.commands[steps[i]] == plan[i];
    ConfirmInternalCore(p, steps[i], env);
    var g := ConfirmInternal(p, steps[i], env);
    assert OnlyTouches(p.s, g.s, steps[i]) by { TouchSelf(p.s, steps[i]); }
  }

  lemma StillMarching(s: Supervisor, g: Flow, seqId: Id, steps: seq<Id>, plan: seq<Record>, i: nat, env: StepEnv)
    requires Families(s) && Marching(s, seqId, steps, plan, i) && i < |steps|
    requires StepTaken(s, g, seqId, steps, plan, i, env) && Succeeds(plan[i], env)
    ensures Marching(g.s, seqId, steps, plan, i + 1)
    ensures g.fault == Clear && StepSucceeded(g.s, steps[i]) && g.s.commands[steps[i]] == Done(plan[i], Succeeded)
  {
    forall j | 0 <= j < |steps| ensures steps[j] in g.s.commands && SameIntent(g.s.commands[steps[j]], plan[j]) {
      StepsDistinct(s, seqId, j);
      assert SameIntent(s.commands[steps[j]], plan[j]);
    }
    forall j | i + 1 <= j < |steps| ensures g.s.commands[steps[j]] == plan[j] && plan[j].state == NeedsConfirmation {
      StepsDistinct(s, seqId, j);
    }
  }

  lemma IntentKept(s: Supervisor, g: Flow, seqId: Id, steps: seq<Id>, plan: seq<Record>, i: nat, env: StepEnv, j: nat)
    requires Families(s) && Marching(s, seqId, steps, plan, i) && i < |steps| && j < |steps|
    requires StepTaken(s, g, seqId, steps, plan, i, env)
    ensures steps[j] in g.s.commands && SameIntent(g.s.commands[steps[j]], plan[j])
  {
    hide GateOpen, AttemptFinal, IsPoseQuery, Sends;
    StepsDistinct(s, seqId, j);
    assert SameIntent(s.commands[steps[j]], plan[j]);
  }

  lemma StepUnsuccessful(s: Supervisor, g: Flow, seqId: Id, steps: seq<Id>, plan: seq<Record>, i: nat, env: StepEnv)
    requires Finals(s) && Marching(s, seqId, steps, plan, i) && i < |steps|
    requires StepTaken(s, g, seqId, steps, plan, i, env) && !Succeeds(plan[i], env)
    ensures g.fault == Clear ==> !StepSucceeded(g.s, steps[i]) && Unsuccessful(g.s.commands[steps[i]].finalState)
    ensures !GateOpen(plan[i], env) ==> plan[i].finalState == None
  {
    hide GateOpen, AttemptFinal, IsPoseQuery, Sends;
    assert Finalised(s.commands[steps[i]]);
  }

  /** A shut gate or an unsuccessful result ends the march at step i. */
  lemma StopHere(f: Flow, g: Flow, h: Flow, seqId: Id, steps: seq<Id>, plan: seq<Record>, i: nat, env: nat -> StepEnv)
    requires Core(f.s) && Marching(f.s, seqId, steps, plan, i) && i < |steps|
    requires Core(g.s) && StepTaken(f.s, g, seqId, steps, plan, i, env(i)) && !Succeeds(plan[i], env(i))
    requires h == if g.fault != Clear then g else FailSequence(g, seqId, steps[i])
    ensures Core(h.s) && Marched(f.s, h, seqId, steps, plan, i, env)
  {
    hide GateOpen, AttemptFinal, IsPoseQuery, Sends, Sound, SingleJob, Finals, FailSequence, IsIoSet, Families,
         SameIntent, TouchedIo;
    forall j | 0 <= j < |steps|
      ensures steps[j] in f.s.commands && steps[j] != seqId && (j != i ==> steps[j] != steps[i])
      ensures steps[j] in g.s.commands && SameIntent(g.s.commands[steps[j]], plan[j])
    {
      StepsDistinct(f.s, seqId, j);
      IntentKept(f.s, g, seqId, steps, plan, i, env(i), j);
    }
    StepsDistinct(f.s, seqId, i);
    if g.fault == Clear {
      assert Finals(f.s);
      StepUnsuccessful(f.s, g, seqId, steps, plan, i, env(i));
      FailSequenceCore(g, seqId, steps[i]);
      RecoveryReadsPlan(g.s, seqId, steps, plan, i);
    }
    assert FirstStop(plan, i, env) == i;
    assert MarchFrame(f.s, h.s, seqId, steps, i);
    assert MarchSteps(h.s, steps, plan, i, i);
    assert Stopped(h.s, h.fault, seqId, steps, plan, i, env(i));
    assert Handed(plan, steps, i, env) == if GateOpen(plan[i], env(i))
        && !IsPoseQuery(plan[i].intent) then [steps[i]] else [];
  }

  /** The recovery flag depends only on the intents of steps 0..k. */
  lemma RecoveryReadsPlan(s: Supervisor, seqId: Id, steps: seq<Id>, plan: seq<Record>, k: nat)
    requires |plan| == |steps| && k < |steps|
    requires forall j | 0 <= j < |steps| :: steps[j] in s.commands && SameIntent(s.commands[steps[j]], plan[j])
    ensures TouchedIo(s.commands, steps, k) == exists j | 0 <= j <= k :: IsIoSet(plan[j])
  {
    if j :| 0 <= j <= k && IsIoSet(plan[j]) {
      assert SameIntent(s.commands[steps[j]], plan[j]);
      assert IsIoSet(s.commands[steps[j]]);
    }
    if i :| 0 <= i < |steps| && i <= k && steps[i] in s.commands && IsIoSet(s.commands[steps[i]]) {
      assert SameIntent(s.commands[steps[i]], plan[i]);
      assert IsIoSet(plan[i]);
    }
  }

  lemma ShapeTrans(a: Record, b: Record, c: Record)
    requires SameShape(a, b) && SameShape(b, c)
    ensures SameShape(a, c)
  {
  }

  lemma PrependFrame(s: Supervisor, m: Flow, t: Supervisor, seqId: Id, steps: seq<Id>, plan: seq<Record>,
                     i: nat, env: StepEnv)
    requires Families(s) && Marching(s, seqId, steps, plan, i) && i < |steps|
    requires StepTaken(s, m, seqId, steps, plan, i, env) && Succeeds(plan[i], env)
    requires MarchFrame(m.s, t, seqId, steps, i + 1)
    ensures MarchFrame(s, t, seqId, steps, i)
    ensures t.commands[steps[i]] == Done(plan[i], Succeeded)
    ensures Sends(m.s.history) == Sends(s.history) + (if IsPoseQuery(plan[i].intent) then [] else [steps[i]])
  {
    hide GateOpen, AttemptFinal, IsPoseQuery, Sends, Families, SameIntent, SameShape;
    ShapeTrans(s.commands[seqId], m.s.commands[seqId], t.commands[seqId]);
    forall j | 0 <= j <= i ensures steps[j] in s.commands && steps[j] != seqId && (j != i ==> steps[j] != steps[i]) {
      StepsDistinct(s, seqId, j);
    }
    StepsDistinct(s, seqId, i);
  }

  /** One more successful step in front of a march. */
  lemma Prepend(s: Supervisor, m: Flow, h: Flow, seqId: Id, steps: seq<Id>, plan: seq<Record>, i: nat,
                env: nat -> StepEnv)
    requires |plan| == |steps| && i < |steps|
    requires Families(s) && Marching(s, seqId, steps, plan, i)
    requires StepTaken(s, m, seqId, steps, plan, i, env(i)) && Succeeds(plan[i], env(i))
    requires Marched(m.s, h, seqId, steps, plan, i + 1, env)
    ensures Marched(s, h, seqId, steps, plan, i, env)
  {
    hide GateOpen, AttemptFinal, IsPoseQuery, Sends, MarchEnd, MarchFrame, Families, Marching, StepTaken, Handed;
    PrependFrame(s, m, h.s, seqId, steps, plan, i, env(i));
    PrependHanded(plan, steps, i, env);
    assert FirstStop(plan, i, env) == FirstStop(plan, i + 1, env);
  }

  lemma PrependHanded(plan: seq<Record>, steps: seq<Id>, i: nat, env: nat -> StepEnv)
    requires |plan| == |steps| && i < |steps| && Succeeds(plan[i], env(i))
    ensures Handed(plan, steps, i, env)
         == (if IsPoseQuery(plan[i].intent) then [] else [steps[i]]) + Handed(plan, steps, i + 1, env)
  {
    hide GateOpen, AttemptFinal, IsPoseQuery;
  }

  lemma NothingLeft(s: Supervisor, h: Flow, seqId: Id, steps: seq<Id>, plan: seq<Record>, env: nat -> StepEnv)
    requires Families(s) && Marching(s, seqId, steps, plan, |steps|)
    requires h.fault == Clear && OnlyTouches(s, h.s, seqId) && Sends(h.s.history) == Sends(s.history)
    requires h.s.commands[seqId].state == Succeeded && h.s.commands[seqId].finalState == Some(Succeeded)
    ensures Marched(s, h, seqId, steps, plan, |steps|, env)
  {
    hide Families, Sends;
    forall j | 0 <= j < |steps| ensures steps[j] in s.commands && steps[j] != seqId {
      StepsDistinct(s, seqId, j);
    }
  }

  lemma {:induction false} RunStepsCore(f: Flow, seqId: Id, steps: seq<Id>, plan: seq<Record>, i: nat,
                                        env: nat -> StepEnv)
    requires Core(f.s) && f.fault == Clear && Marching(f.s, seqId, steps, plan, i) && HonestFrom(env, i, |steps|)
    ensures Core(RunSteps(f, seqId, steps, i, env).s)
    ensures Marched(f.s, RunSteps(f, seqId, steps, i, env), seqId, steps, plan, i, env)
    decreases |steps| - i
  {
    hide GateOpen, AttemptFinal, IsPoseQuery, Sends, Sound, Families, SingleJob, ConfirmInternal, PointAt,
         FailSequence, CompleteSequence, StepTaken;
    if i == |steps| {
      CompleteSequenceCore(f, seqId);
      NothingLeft(f.s, RunSteps(f, seqId, steps, i, env), seqId, steps, plan, env);
    } else {
      var g := ConfirmInternal(PointAt(f, seqId, steps[i]), steps[i], env(i));
      TakeStep(f, seqId, steps, plan, i, env(i));
      if Succeeds(plan[i], env(i)) {
        StillMarching(f.s, g, seqId, steps, plan, i, env(i));
        RunStepsCore(g, seqId, steps, plan, i + 1, env);
        Prepend(f.s, g, RunSteps(g, seqId, steps, i + 1, env), seqId, steps, plan, i, env);
      } else {
        StepUnsuccessful(f.s, g, seqId, steps, plan, i, env(i));
        StopHere(f, g, RunSteps(f, seqId, steps, i, env), seqId, steps, plan, i, env);
      }
    }
  }
}
