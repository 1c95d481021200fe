/** Every service call keeps the invariant, never raises the invalid-transition error, and hands a
    record to ROS only when the conditions of a confirmation hold. */
module CallEffects {
  import opened Wrappers
  import opened Lifecycle
  import opened Validation
  import opened SupervisorModel
  import opened SupervisorInvariants
  import opened SupervisorCalls
  import opened SequenceRuns

  // ---- the expiry sweep ----

  ghost predicate AllWaitTop(s: Supervisor, ids: seq<Id>) {
    && Distinct(ids)
    && forall id | id in ids :: Waiting(s, id) && s.commands[id].parent.None?
  }

  /** The listed records expired; nothing else changed but the audit log. */
  ghost predicate ExpiredAll(s: Supervisor, t: Supervisor, ids: seq<Id>) {
    && t.commands.Keys == s.commands.Keys
    && (forall x | x in s.commands :: t.commands[x] == if x in ids then Done(s.commands[x], Expired) else s.commands[x])
    && t.nextId == s.nextId && t.lock == s.lock
    && t.activeCommand == s.activeCommand && t.activeSequence == s.activeSequence
    && Sends(t.history) == Sends(s.history)
  }

  lemma {:induction false} CloseAllCore(f: Flow, ids: seq<Id>)
    requires Core(f.s) && f.fault == Clear && AllWaitTop(f.s, ids)
    ensures var g := CloseAll(f, ids, Expired); Core(g.s) && g.fault == Clear && ExpiredAll(f.s, g.s, ids)
    decreases |ids|
  {
    hide Core, Sends, Close, ExpiredAll, OnlyTouches, AllWaitTop;
    if ids == [] {
      ExpiredNone(f.s);
    } else {
      var front, last := ids[..|ids| - 1], ids[|ids| - 1];
      FrontWaits(f.s, ids);
      CloseAllCore(f, front);
      var m := CloseAll(f, front, Expired);
      LastWaits(f.s, m.s, ids);
      CloseCore(m, last, Expired);
      ExpiredSnoc(f.s, m.s, Close(m, last, Expired).s, ids);
    }
  }

  lemma ExpiredNone(s: Supervisor)
    ensures ExpiredAll(s, s, [])
  {
  }

  lemma FrontWaits(s: Supervisor, ids: seq<Id>)
    requires AllWaitTop(s, ids) && ids != []
    ensures AllWaitTop(s, ids[..|ids| - 1])
  {
    assert forall id | id in ids[..|ids| - 1] :: id in ids;
  }

  lemma LastWaits(s: Supervisor, m: Supervisor, ids: seq<Id>)
    requires AllWaitTop(s, ids) && ids != [] && ExpiredAll(s, m, ids[..|ids| - 1])
    ensures Waiting(m, ids[|ids| - 1]) && ids[|ids| - 1] !in ids[..|ids| - 1]
  {
    hide Sends;
    assert ids[|ids| - 1] in ids;
  }

  lemma ExpiredSnoc(s: Supervisor, m: Supervisor, t: Supervisor, ids: seq<Id>)
    requires ids != [] && ExpiredAll(s, m, ids[..|ids| - 1]) && ids[|ids| - 1] !in ids[..|ids| - 1]
    requires OnlyTouches(m, t, ids[|ids| - 1])
        && t.commands[ids[|ids| - 1]] == Done(m.commands[ids[|ids| - 1]], Expired)
    requires Sends(t.history) == Sends(m.history)
    ensures ExpiredAll(s, t, ids)
  {
    hide Sends, SameShape;
    assert ids == ids[..|ids| - 1] + [ids[|ids| - 1]];
  }

  lemma {:induction false} ExpiringLists(commands: map<Id, Record>, n: nat, now: int)
    ensures Distinct(Expiring(commands, n, now))
    ensures forall x :: x in Expiring(commands, n, now) <==> x < n && x in commands && Overdue(commands[x], now)
  {
    if n > 0 {
      ExpiringLists(commands, n - 1, now);
    }
  }

  ghost predicate Swept(s: Supervisor, t: Supervisor, now: int) {
    && t.commands.Keys == s.commands.Keys
    && (forall x | x in s.commands ::
          t.commands[x] == if Overdue(s.commands[x], now) then Done(s.commands[x], Expired) else s.commands[x])
    && t.nextId == s.nextId && t.lock == s.lock
    && t.activeCommand == s.activeCommand && t.activeSequence == s.activeSequence
    && Sends(t.history) == Sends(s.history)
  }

  lemma SweptStaged(s: Supervisor, t: Supervisor, now: int)
    requires Families(s) && Staged(s) && Swept(s, t, now)
    ensures Staged(t)
  {
    hide Sends;
    forall id | id in t.commands && t.commands[id].kind == Sequence && t.commands[id].state == NeedsConfirmation
      ensures StepsWait(t, id)
    {
      assert Linked(s, id);
      assert StepsWait(s, id);
    }
  }

  /** The sweep expires exactly the overdue records and raises nothing. */
  lemma SweepInv(s: Supervisor, now: int)
    requires Inv(s)
    ensures var f := ExpirePending(s, now); Inv(f.s) && f.fault == Clear && Swept(s, f.s, now)
  {
    hide Sends, Families, SingleJob, Finals, Audited, Dispatched, Ordered, Staged, CloseAll, Expiring;
    var ids := Expiring(s.commands, s.nextId, now);
    ExpiringLists(s.commands, s.nextId, now);
    CloseAllCore(Flow(s, Clear), ids);
    SweptStaged(s, ExpirePending(s, now).s, now);
  }

  // ---- entry ----

  /** The caller holds the live lease and owns the record. */
  predicate LiveOwner(s: Supervisor, caller: Caller, clock: Clock, id: Id) {
    && LeaseCheck(s, caller, clock.lease).1
    && id in s.commands && Owns(caller, s.commands[id])
  }

  /** Entering a call changes nothing beyond the sweep and the lock's own expiry. */
  lemma EnterInv(s: Supervisor, caller: Caller, clock: Clock, id: Id)
    requires Inv(s)
    ensures var o := Enter(s, caller, clock, id);
            && Inv(o.s) && !o.reply.Crashed?
            && Swept(s, o.s.(lock := s.lock), clock.sweep)
            && (o.reply == Accepted ==> LiveOwner(s, caller, clock, id) && id in o.s.commands)
  {
    hide Inv, Sends;
    SweepInv(s, clock.sweep);
    var f := ExpirePending(s, clock.sweep);
    LockInv(f.s, LeaseCheck(f.s, caller, clock.lease).0.lock);
  }

  lemma StagedTouch(s: Supervisor, t: Supervisor, id: Id)
    requires Families(s) && Staged(s) && OnlyTouches(s, t, id)
    requires s.commands[id].parent.None?
    requires t.commands[id].kind == Sequence && t.commands[id].state == NeedsConfirmation ==> StepsWait(t, id)
    ensures Staged(t)
  {
    forall x | x in t.commands && t.commands[x].kind == Sequence && t.commands[x].state == NeedsConfirmation
      ensures StepsWait(t, x)
    {
      if x != id {
        assert Linked(s, x);
        assert StepsWait(s, x);
      }
    }
  }

  lemma CheckWaitingInv(s: Supervisor, id: Id, fingerprint: string, now: int)
    requires Inv(s) && id in s.commands && s.commands[id].parent.None?
    ensures var w := CheckWaiting(s, id, fingerprint, now);
            && Inv(w.s) && !w.reply.Crashed? && Sends(w.s.history) == Sends(s.history) && id in w.s.commands
            && (w.reply == Accepted ==>
                  w.s == s && Waiting(s, id) && !WindowClosed(s.commands[id], now)
                      && s.commands[id].fingerprint == Some(fingerprint))
  {
    hide Core, Families, Sends, Close;
    assert Families(s) by { assert Core(s); FamiliesOf(s); }
    var r := s.commands[id];
    if r.state == NeedsConfirmation && WindowClosed(r, now) {
      CloseCore(Flow(s, Clear), id, Expired);
      StagedTouch(s, Close(Flow(s, Clear), id, Expired).s, id);
    }
  }

  lemma FamiliesOf(s: Supervisor)
    requires Core(s)
    ensures Families(s)
  {
  }

  // ---- confirming a command ----

  /** The caller's confirmation of the record takes effect: live lease, ownership, a waiting
      top-level record of the right kind, an open window at both clock readings, the fingerprint. */
  predicate Authorised(s: Supervisor, caller: Caller, clock: Clock, id: Id, fingerprint: string, kind: Kind) {
    && LiveOwner(s, caller, clock, id)
    && var r := s.commands[id];
       && r.kind == kind && r.parent.None? && r.state == NeedsConfirmation
       && !WindowClosed(r, clock.stamp) && !WindowClosed(r, clock.sweep)
       && r.fingerprint == Some(fingerprint)
  }

  /** A confirmation sends its command at most once, and only when authorised and gated. */
  lemma ConfirmCommandInv(s: Supervisor, caller: Caller, clock: Clock, id: Id, fingerprint: string, env: StepEnv)
    requires Inv(s) && Honest(env.ros)
    ensures var o := ConfirmCommand(s, caller, clock, id, fingerprint, env);
            && Inv(o.s) && o.reply != Crashed(InvalidTransition) && o.reply != Crashed(MissingKey)
            && (Sends(o.s.history) == Sends(s.history)
                || (Sends(o.s.history) == Sends(s.history) + [id]
                    && Authorised(s, caller, clock, id, fingerprint, Command) && GateOpen(s.commands[id], env)))
  {
    hide Core, Staged, Families, Sends, GateOpen, LeaseCheck, ConfirmInternal, Enter, CheckWaiting,
         AttemptFinal, IsPoseQuery;
    var o := Enter(s, caller, clock, id);
    EnterInv(s, caller, clock, id);
    if o.reply == Accepted && o.s.commands[id].kind == Command && o.s.commands[id].parent.None? {
      CheckWaitingInv(o.s, id, fingerprint, clock.stamp);
      var w := CheckWaiting(o.s, id, fingerprint, clock.stamp);
      if w.reply == Accepted {
        assert o.s.commands[id] == s.commands[id];
        var f := Flow(w.s, Clear);
        ConfirmInternalCore(f, id, env);
        FamiliesOf(w.s);
        var g := ConfirmInternal(f, id, env);
        if GateOpen(w.s.commands[id], env) {
          StagedTouch(w.s, g.s, id);
        }
      }
    }
  }

  lemma ConfirmCommandEntered(s: Supervisor, caller: Caller, clock: Clock, id: Id, fingerprint: string)
    requires Inv(s)
    ensures var o := Enter(s, caller, clock, id);
            && Inv(o.s) && !o.reply.Crashed?
            && (Authorised(s, caller, clock, id, fingerprint, Command) <==>
                  && o.reply == Accepted && id in o.s.commands
                  && o.s.commands[id].kind == Command && o.s.commands[id].parent.None?
                  && CheckWaiting(o.s, id, fingerprint, clock.stamp) == Outcome(o.s, Accepted))
            && (o.reply == Accepted && o.s.commands[id].parent.None? ==>
                  var w := CheckWaiting(o.s, id, fingerprint, clock.stamp);
                  !w.reply.Crashed? && (w.reply == Accepted ==> w.s == o.s))
            && (Authorised(s, caller, clock, id, fingerprint, Command) ==> o.s.commands[id] == s.commands[id])
  {
    hide Sound, Finals, Families, SingleJob, Staged, Sends, ExpirePending, Close;
    EnterInv(s, caller, clock, id);
    var o := Enter(s, caller, clock, id);
    SweepInv(s, clock.sweep);
    if o.reply == Accepted && o.s.commands[id].parent.None? {
      CheckWaitingInv(o.s, id, fingerprint, clock.stamp);
    }
  }

  /** What an authorised confirmation does to its command and answers.  A shut gate declines and
      leaves the command waiting; an open one hands it over, unless it is a pose query, and ends it
      as reported, or leaves it at EXECUTION_REQUESTED when the service call raises. */
  lemma AuthorisedConfirmExactly(s: Supervisor, caller: Caller, clock: Clock, id: Id, fingerprint: string, env: StepEnv)
    requires Inv(s) && Honest(env.ros) && Authorised(s, caller, clock, id, fingerprint, Command)
    ensures var o := ConfirmCommand(s, caller, clock, id, fingerprint, env);
            var r := s.commands[id];
            var final := AttemptFinal(r, env);
            && id in o.s.commands
            && if !GateOpen(r, env) then
                 o.reply == Declined && o.s.commands[id] == r && Sends(o.s.history) == Sends(s.history)
               else
                 && Sends(o.s.history) == Sends(s.history) + (if IsPoseQuery(r.intent) then [] else [id])
                 && if final.None? then o.reply == Crashed(AdapterRaised)
                     && o.s.commands[id] == r.(state := ExecutionRequested)
                    else o.s.commands[id] == Done(r, final.value)
                         && o.reply == if final.value == Succeeded then Accepted else Declined
  {
    hide Core, Staged, Families, Sends, GateOpen, LeaseCheck, ConfirmInternal, Enter, CheckWaiting,
         AttemptFinal, IsPoseQuery;
    ConfirmCommandEntered(s, caller, clock, id, fingerprint);
    EnterInv(s, caller, clock, id);
    var o := Enter(s, caller, clock, id);
    CheckWaitingInv(o.s, id, fingerprint, clock.stamp);
    WaitingNotFinal(s, id);
    ConfirmInternalCore(Flow(o.s, Clear), id, env);
  }

  lemma WaitingNotFinal(s: Supervisor, id: Id)
    requires Inv(s) && Waiting(s, id)
    ensures s.commands[id].finalState != Some(Succeeded)
  {
    hide Sound, Families, SingleJob, Staged;
    assert Finalised(s.commands[id]);
  }

  /** A success reported for a request that never reached ROS raises the invalid-transition error,
      and the record keeps a final state its lifecycle state contradicts. */
  lemma DishonestFinish(f: Flow, id: Id, ros: RosResult)
    requires f.fault == Clear && id in f.s.commands && f.s.commands[id].state == ExecutionRequested && !Honest(ros)
    ensures var g := Finish(f, id, ros);
            && g.fault == InvalidTransition
            && g.s.commands[id] == f.s.commands[id].(finalState := Some(Succeeded))
  {
  }

  lemma DishonestAttempt(f: Flow, id: Id, env: StepEnv)
    requires Core(f.s) && f.fault == Clear && Waiting(f.s, id) && GateOpen(f.s.commands[id], env)
    requires !IsPoseQuery(f.s.commands[id].intent) && !Honest(env.ros)
    ensures ConfirmInternal(f, id, env).fault == InvalidTransition
  {
    hide Core, GateOpen, Prepare, Finish, Honest;
    PrepareCore(f, id);
    DishonestFinish(Issue(Prepare(f, id), id), id, env.ros);
  }

  lemma QueryIgnoresAdapter(f: Flow, id: Id, env: StepEnv, honest: RosResult)
    requires f.fault == Clear && Waiting(f.s, id)
    requires !GateOpen(f.s.commands[id], env) || IsPoseQuery(f.s.commands[id].intent)
    requires Core(f.s)
    ensures ConfirmInternal(f, id, env) == ConfirmInternal(f, id, env.(ros := honest))
  {
    hide Core, Prepare, CommandGate;
    PrepareCore(f, id);
  }

  /** Without the adapter's contract, the invalid-transition error is raised exactly when an
      authorised confirmation passes the gate and its request, not a pose query, is reported
      successful though it never reached ROS. */
  lemma RaisesExactly(s: Supervisor, caller: Caller, clock: Clock, id: Id, fingerprint: string, env: StepEnv)
    requires Inv(s)
    ensures ConfirmCommand(s, caller, clock, id, fingerprint, env).reply == Crashed(InvalidTransition) <==>
            && Authorised(s, caller, clock, id, fingerprint, Command)
            && GateOpen(s.commands[id], env) && !IsPoseQuery(s.commands[id].intent) && !Honest(env.ros)
  {
    hide Core, Staged, Sends, GateOpen, IsPoseQuery, Enter, CheckWaiting, Authorised, ConfirmInternal;
    if Honest(env.ros) {
      ConfirmCommandInv(s, caller, clock, id, fingerprint, env);
    } else {
      ConfirmCommandEntered(s, caller, clock, id, fingerprint);
      var o := Enter(s, caller, clock, id);
      if Authorised(s, caller, clock, id, fingerprint, Command) {
        var f := Flow(o.s, Clear);
        assert Waiting(o.s, id) by { CheckWaitingInv(o.s, id, fingerprint, clock.stamp); }
        if GateOpen(o.s.commands[id], env) && !IsPoseQuery(o.s.commands[id].intent) {
          DishonestAttempt(f, id, env);
        } else {
          QueryIgnoresAdapter(f, id, env, RosRaises);
          ConfirmCommandInv(s, caller, clock, id, fingerprint, env.(ros := RosRaises));
        }
      }
    }
  }

  // ---- confirming a sequence ----

  function StepRecords(s: Supervisor, steps: seq<Id>): (plan: seq<Record>)
    requires forall c | c in steps :: c in s.commands
    ensures |plan| == |steps|
  {
    seq(|steps|, j requires 0 <= j < |steps| => s.commands[steps[j]])
  }

  lemma StartSequenceCore(f: Flow, id: Id)
    requires Core(f.s) && f.fault == Clear && Waiting(f.s, id)
    ensures var g := StartSequence(f, id);
            && Core(g.s) && g.fault == Clear && OnlyTouches(f.s, g.s, id)
            && g.s.commands[id] == f.s.commands[id].(state := Executing)
            && Sends(g.s.history) == Sends(f.s.history)
  {
    hide Core, Sends, Prepare;
    var p := Prepare(f, id);
    PrepareCore(f, id);
    MoveCore(p, id, Executing);
    TouchTrans(f.s, p.s, StartSequence(f, id).s, id);
  }

  /** The effect of an authorised confirmation on a sequence and the rest of the state. */
  ghost predicate SequenceRan(s: Supervisor, g: Flow, id: Id, steps: seq<Id>, plan: seq<Record>, env: nat -> StepEnv)
    requires id in s.commands && |plan| == |steps|
  {
    var t := g.s;
    var k := FirstStop(plan, 0, env);
    && t.commands.Keys == s.commands.Keys
    && (forall x | x in s.commands && x != id && s.commands[x].parent != Some(id) :: t.commands[x] == s.commands[x])
    && SameShape(s.commands[id], t.commands[id])
    && MarchSteps(t, steps, plan, 0, k)
    && MarchEnd(g, id, steps, plan, k, env)
    && Sends(t.history) == Sends(s.history) + Handed(plan, steps, 0, env)
  }

  lemma MarchingFromStart(s: Supervisor, g: Flow, id: Id)
    requires Inv(s) && Waiting(s, id) && s.commands[id].kind == Sequence
    requires OnlyTouches(s, g.s, id) && g.s.commands[id] == s.commands[id].(state := Executing)
    ensures var steps := s.commands[id].children;
            && (forall c | c in steps :: c in s.commands)
            && Marching(g.s, id, steps, StepRecords(s, steps), 0)
  {
    hide Sound, SingleJob, Finals, Families;
    assert StepsWait(s, id);
    var steps := s.commands[id].children;
    var plan := StepRecords(s, steps);
    forall j | 0 <= j < |steps|
      ensures steps[j] in g.s.commands && g.s.commands[steps[j]] == plan[j] && plan[j].state == NeedsConfirmation
      ensures SameIntent(g.s.commands[steps[j]], plan[j])
    {
      StepsDistinct(s, id, j);
    }
  }

  lemma StagedApart(s: Supervisor, t: Supervisor, id: Id)
    requires Families(s) && Staged(s) && id in s.commands && t.commands.Keys == s.commands.Keys
    requires s.commands[id].kind == Sequence
    requires SameShape(s.commands[id], t.commands[id])
    requires t.commands[id].state == NeedsConfirmation ==> StepsWait(t, id)
    requires forall x | x in s.commands && x != id && s.commands[x].parent != Some(id) :: t.commands[x] == s.commands[x]
    requires forall x | x in s.commands :: t.commands[x].kind == s.commands[x].kind
    ensures Staged(t)
  {
    forall x | x in t.commands && t.commands[x].kind == Sequence && t.commands[x].state == NeedsConfirmation
      ensures StepsWait(t, x)
    {
      if x != id {
        assert Linked(s, id);
        assert Linked(s, x);
        assert StepsWait(s, x);
        forall c | c in t.commands[x].children ensures c in t.commands && t.commands[c].state == NeedsConfirmation {
          var j :| 0 <= j < |s.commands[x].children| && s.commands[x].children[j] == c;
          assert s.commands[c].parent == Some(x);
        }
      }
    }
  }

  /** Kinds never change, and a step is a command. */
  lemma KindsKept(s: Supervisor, t: Supervisor, id: Id)
    requires Families(s) && Families(t) && id in s.commands
    requires s.commands[id].kind == Sequence
    requires t.commands.Keys == s.commands.Keys && SameShape(s.commands[id], t.commands[id])
    requires forall x | x in s.commands && x != id && s.commands[x].parent != Some(id) :: t.commands[x] == s.commands[x]
    ensures forall x | x in s.commands :: t.commands[x].kind == s.commands[x].kind
  {
    forall x | x in s.commands ensures t.commands[x].kind == s.commands[x].kind {
      assert Linked(s, x);
      assert Linked(t, id);
      if s.commands[x].parent == Some(id) {
        assert s.commands[id].children[s.commands[x].stepIndex] == x;
        assert Linked(t, x);
      }
    }
  }

  lemma SequenceRanInv(s: Supervisor, id: Id, env: nat -> StepEnv)
    requires Inv(s) && Waiting(s, id) && s.commands[id].kind == Sequence
    requires HonestFrom(env, 0, |s.commands[id].children|)
    ensures forall c | c in s.commands[id].children :: c in s.commands
    ensures var steps := s.commands[id].children;
            var g := RunSteps(StartSequence(Flow(s, Clear), id), id, steps, 0, env);
            && Inv(g.s) && (g.fault == Clear || g.fault == AdapterRaised)
            && SequenceRan(s, g, id, steps, StepRecords(s, steps), env)
  {
    hide Core, Sends, StartSequence, RunSteps, Marching, Staged, Families, FirstStop, Handed, MarchSteps,
         GateOpen, AttemptFinal;
    var steps := s.commands[id].children;
    var m := StartSequence(Flow(s, Clear), id);
    StartSequenceCore(Flow(s, Clear), id);
    MarchingFromStart(s, m, id);
    var plan := StepRecords(s, steps);
    RunStepsCore(m, id, steps, plan, 0, env);
    var g := RunSteps(m, id, steps, 0, env);
    FamiliesOf(s);
    FamiliesOf(g.s);
    KindsKept(s, g.s, id);
    StagedApart(s, g.s, id);
  }

  /** An open window on the one job that is not over: the sweep finds nothing. */
  lemma SweepFindsNothing(s: Supervisor, t: Supervisor, id: Id, now: int)
    requires SingleJob(s) && Swept(s, t, now)
    requires id in s.commands && s.commands[id].parent.None? && !Terminal(s.commands[id].state)
        && !Overdue(s.commands[id], now)
    ensures t.commands == s.commands
  {
    forall x | x in s.commands ensures t.commands[x] == s.commands[x] {
      assert Named(s, id);
      if Overdue(s.commands[x], now) {
        assert Named(s, x);
      }
    }
  }

  function FaultOf(reply: Reply): Fault {
    if reply.Crashed? then reply.fault else Clear
  }

  /** Reading the effect in terms of an earlier state with the same records and sends. */
  lemma SequenceRanBefore(s: Supervisor, w: Supervisor, g: Flow, id: Id, env: nat -> StepEnv)
    requires id in s.commands && w.commands == s.commands && Sends(w.history) == Sends(s.history)
    requires forall c | c in s.commands[id].children :: c in s.commands
    requires SequenceRan(w, g, id, s.commands[id].children, StepRecords(w, s.commands[id].children), env)
    ensures SequenceRan(s, g, id, s.commands[id].children, StepRecords(s, s.commands[id].children), env)
  {
    assert StepRecords(w, s.commands[id].children) == StepRecords(s, s.commands[id].children);
  }

  lemma ConfirmSequenceEntered(s: Supervisor, caller: Caller, clock: Clock, id: Id, fingerprint: string)
    requires Inv(s)
    ensures var o := Enter(s, caller, clock, id);
            && Inv(o.s) && !o.reply.Crashed? && Sends(o.s.history) == Sends(s.history)
            && (o.reply == Accepted ==>
                 && id in o.s.commands
                 && (o.s.commands[id].kind == Sequence ==> o.s.commands[id].parent.None?))
            && (Authorised(s, caller, clock, id, fingerprint, Sequence) ==>
                  o.reply == Accepted && o.s.commands == s.commands && s.commands[id].kind == Sequence
                  && CheckWaiting(o.s, id, fingerprint, clock.stamp) == Outcome(o.s, Accepted))
            && (o.reply == Accepted && o.s.commands[id].kind == Sequence
                && CheckWaiting(o.s, id, fingerprint, clock.stamp).reply == Accepted ==>
                  Authorised(s, caller, clock, id, fingerprint, Sequence))
  {
    hide Sound, Finals, Families, SingleJob, Staged, Sends, ExpirePending, Close;
    EnterInv(s, caller, clock, id);
    var o := Enter(s, caller, clock, id);
    SweepInv(s, clock.sweep);
    if o.reply == Accepted && o.s.commands[id].kind == Sequence {
      SequenceHasNoParent(o.s, id);
      CheckWaitingInv(o.s, id, fingerprint, clock.stamp);
    }
    if Authorised(s, caller, clock, id, fingerprint, Sequence) {
      SweepFindsNothing(s, ExpirePending(s, clock.sweep).s, id, clock.sweep);
    }
  }

  lemma SequenceHasNoParent(s: Supervisor, id: Id)
    requires Core(s) && id in s.commands && s.commands[id].kind == Sequence
    ensures s.commands[id].parent.None?
  {
    assert Linked(s, id);
  }

  /** A confirmation runs the sequence exactly when it is authorised. */
  lemma ConfirmSequenceInv(s: Supervisor, caller: Caller, clock: Clock, id: Id, fingerprint: string,
                           env: nat -> StepEnv)
    requires Inv(s)
    requires forall j: nat :: Honest(env(j).ros)
    ensures var o := ConfirmSequence(s, caller, clock, id, fingerprint, env);
            && Inv(o.s) && o.reply != Crashed(InvalidTransition) && o.reply != Crashed(MissingKey)
            && (if Authorised(s, caller, clock, id, fingerprint, Sequence) then
                  && (forall c | c in s.commands[id].children :: c in s.commands)
                  && var steps := s.commands[id].children;
                     SequenceRan(s, Flow(o.s, FaultOf(o.reply)), id, steps, StepRecords(s, steps), env)
                else Sends(o.s.history) == Sends(s.history))
  {
    hide Core, Staged, Sends, StartSequence, RunSteps, SequenceRan, Enter, CheckWaiting, Authorised;
    var o := Enter(s, caller, clock, id);
    ConfirmSequenceEntered(s, caller, clock, id, fingerprint);
    if o.reply == Accepted && o.s.commands[id].kind == Sequence {
      CheckWaitingInv(o.s, id, fingerprint, clock.stamp);
      var w := CheckWaiting(o.s, id, fingerprint, clock.stamp);
      if w.reply == Accepted {
        SequenceRanInv(w.s, id, env);
        var g := RunSteps(StartSequence(Flow(w.s, Clear), id), id, w.s.commands[id].children, 0, env);
        SequenceRanBefore(s, w.s, g, id, env);
      }
    }
  }

  // ---- cancellation ----

  lemma EveryStateCancels(s: State)
    ensures !Terminal(s) ==> Allowed(s, Cancelled)
  {
  }

  /** An accepted cancellation comes from the live owner, ends the record unless it was over, and
      changes no other record. */
  lemma CancelCommandInv(s: Supervisor, caller: Caller, clock: Clock, id: Id, abortOk: bool)
    requires Inv(s)
    ensures var o := CancelCommand(s, caller, clock, id, abortOk);
            && Inv(o.s) && !o.reply.Crashed? && Sends(o.s.history) == Sends(s.history)
            && (o.reply == Accepted ==>
                  && LiveOwner(s, caller, clock, id)
                  && var e := Enter(s, caller, clock, id).s;
                     id in e.commands && Terminal(CancelledForm(e.commands[id]).state)
                     && o.s.commands == e.commands[id := CancelledForm(e.commands[id])])
  {
    hide Core, Staged, Families, Sends, LeaseCheck, Enter, Close;
    var o := Enter(s, caller, clock, id);
    EnterInv(s, caller, clock, id);
    if o.reply == Accepted {
      SameEntry(o.s.commands, id);
    }
    if o.reply == Accepted && o.s.commands[id].parent.None? && !Terminal(o.s.commands[id].state) {
      var f := Flow(o.s, Clear);
      EveryStateCancels(o.s.commands[id].state);
      CloseCore(f, id, Cancelled);
      FamiliesOf(o.s);
      StagedTouch(o.s, Close(f, id, Cancelled).s, id);
    }
  }

  lemma SameEntry(commands: map<Id, Record>, id: Id)
    requires id in commands
    ensures commands[id := commands[id]] == commands
  {
  }

  function CancelledForm(r: Record): Record {
    if Terminal(r.state) then r else Done(r, Cancelled)
  }

  ghost predicate StepsCancelled(s: Supervisor, t: Supervisor, seqId: Id, steps: seq<Id>, i: nat) {
    && t.commands.Keys == s.commands.Keys
    && (forall x | x in s.commands && s.commands[x].parent != Some(seqId) :: t.commands[x] == s.commands[x])
    && (forall j | 0 <= j < |steps| ::
          steps[j] in s.commands
          && t.commands[steps[j]] == if j < i then s.commands[steps[j]] else CancelledForm(s.commands[steps[j]]))
    && t.nextId == s.nextId && t.lock == s.lock
    && t.activeCommand == s.activeCommand && t.activeSequence == s.activeSequence
    && Sends(t.history) == Sends(s.history)
  }

  lemma {:induction false} CancelStepsCore(f: Flow, seqId: Id, steps: seq<Id>, i: nat)
    requires Core(f.s) && f.fault == Clear && i <= |steps|
    requires seqId in f.s.commands && f.s.commands[seqId].kind == Sequence && f.s.commands[seqId].children == steps
    ensures var g := CancelSteps(f, steps, i);
            Core(g.s) && g.fault == Clear && StepsCancelled(f.s, g.s, seqId, steps, i)
    decreases |steps| - i
  {
    hide Core, Sends, Close, Families;
    FamiliesOf(f.s);
    forall j | 0 <= j < |steps| ensures steps[j] in f.s.commands && (i < |steps| && j != i ==> steps[j] != steps[i]) {
      StepsDistinct(f.s, seqId, j);
      if i < |steps| && j != i {
        StepsDistinct(f.s, seqId, i);
      }
    }
    if i < |steps| {
      StepsDistinct(f.s, seqId, i);
      var r := f.s.commands[steps[i]];
      var g := if Terminal(r.state) then f else Close(f, steps[i], Cancelled);
      if !Terminal(r.state) {
        EveryStateCancels(r.state);
        CloseCore(f, steps[i], Cancelled);
      }
      CancelStepsCore(g, seqId, steps, i + 1);
    }
  }

  /** Every step and the sequence itself are over; steps that were over keep their outcome. */
  ghost predicate JobCancelled(s: Supervisor, t: Supervisor, id: Id)
    requires id in s.commands
  {
    && t.commands.Keys == s.commands.Keys
    && t.commands[id] == Done(s.commands[id], Cancelled)
    && (forall c | c in s.commands[id].children ::
          c in s.commands && t.commands[c] == CancelledForm(s.commands[c]) && Terminal(t.commands[c].state))
    && (forall x | x in s.commands && x != id && s.commands[x].parent != Some(id) :: t.commands[x] == s.commands[x])
    && Sends(t.history) == Sends(s.history)
  }

  lemma CancelJobCore(s: Supervisor, id: Id)
    requires Core(s) && id in s.commands && s.commands[id].kind == Sequence && !Terminal(s.commands[id].state)
    ensures var g := CancelJob(s, id); Core(g.s) && g.fault == Clear && JobCancelled(s, g.s, id)
  {
    hide Core, Sends, Close, CancelSteps, Families;
    var steps := s.commands[id].children;
    var m := CancelSteps(Flow(s, Clear), steps, 0);
    CancelStepsCore(Flow(s, Clear), id, steps, 0);
    FamiliesOf(s);
    SequenceHasNoParent(s, id);
    EveryStateCancels(s.commands[id].state);
    CloseCore(m, id, Cancelled);
    var t := CancelJob(s, id).s;
    forall c | c in steps
      ensures c in s.commands && t.commands[c] == CancelledForm(s.commands[c]) && Terminal(t.commands[c].state)
    {
      var j :| 0 <= j < |steps| && steps[j] == c;
      StepsDistinct(s, id, j);
    }
  }

  lemma StagedAfterCancel(s: Supervisor, t: Supervisor, id: Id)
    requires Families(s) && Families(t) && Staged(s) && id in s.commands && s.commands[id].kind == Sequence
    requires JobCancelled(s, t, id)
    ensures Staged(t)
  {
    hide Sends, Families;
    KindsKept(s, t, id);
    StagedApart(s, t, id);
  }

  /** An accepted cancellation of a sequence that is not over ends it and every step of it. */
  lemma CancelSequenceInv(s: Supervisor, caller: Caller, clock: Clock, id: Id, abortOk: bool)
    requires Inv(s)
    ensures var o := CancelSequence(s, caller, clock, id, abortOk);
            && Inv(o.s) && !o.reply.Crashed? && Sends(o.s.history) == Sends(s.history)
            && (o.reply == Accepted ==> id in o.s.commands && Terminal(o.s.commands[id].state))
            && (o.reply == Accepted && !Terminal(Enter(s, caller, clock, id).s.commands[id].state) ==>
                  JobCancelled(Enter(s, caller, clock, id).s, o.s, id))
  {
    hide Core, Staged, Families, Sends, LeaseCheck, Enter, CancelJob, CurrentStepInFlight;
    var o := Enter(s, caller, clock, id);
    EnterInv(s, caller, clock, id);
    if o.reply == Accepted && o.s.commands[id].kind == Sequence && !Terminal(o.s.commands[id].state) {
      CancelJobCore(o.s, id);
      FamiliesOf(o.s);
      FamiliesOf(CancelJob(o.s, id).s);
      StagedAfterCancel(o.s, CancelJob(o.s, id).s, id);
    }
  }

  /** A confirmed sequence succeeds exactly when all its steps do. */
  lemma SequenceSucceedsWithItsSteps(s: Supervisor, g: Flow, id: Id, env: nat -> StepEnv)
    requires Inv(s) && Waiting(s, id) && s.commands[id].kind == Sequence
    requires forall c | c in s.commands[id].children :: c in s.commands
    requires SequenceRan(s, g, id, s.commands[id].children, StepRecords(s, s.commands[id].children), env)
    ensures id in g.s.commands && forall c | c in s.commands[id].children :: c in g.s.commands
    ensures g.s.commands[id].state == Succeeded <==>
            forall c | c in s.commands[id].children :: g.s.commands[c].state == Succeeded
  {
    hide Core, Sends, GateOpen, Handed, IsPoseQuery;
    var steps := s.commands[id].children;
    var plan := StepRecords(s, steps);
    var k := FirstStop(plan, 0, env);
    assert StepsWait(s, id);
    forall c | c in steps ensures c in g.s.commands {
      var j :| 0 <= j < |steps| && steps[j] == c;
    }
    if k < |steps| {
      assert steps[k] in steps;
      assert !Succeeds(plan[k], env(k));
    }
  }

  // ---- the steps of a sequence that has ended ----

  ghost predicate StepsOver(s: Supervisor, steps: seq<Id>) {
    forall c | c in steps :: c in s.commands && Terminal(s.commands[c].state)
  }

  /** After an authorised confirmation every step is over exactly when the loop got through all of them,
      or stopped at the last one with a result; otherwise a step waits or hangs at EXECUTION_REQUESTED
      for good. */
  lemma StepsOverExactly(s: Supervisor, g: Flow, id: Id, env: nat -> StepEnv)
    requires Inv(s) && Waiting(s, id) && s.commands[id].kind == Sequence
    requires forall c | c in s.commands[id].children :: c in s.commands
    requires SequenceRan(s, g, id, s.commands[id].children, StepRecords(s, s.commands[id].children), env)
    ensures var steps := s.commands[id].children;
            var plan := StepRecords(s, steps);
            var k := FirstStop(plan, 0, env);
            StepsOver(g.s, steps) <==>
              || k == |steps|
              || (k == |steps| - 1 && GateOpen(plan[k], env(k)) && AttemptFinal(plan[k], env(k)).Some?)
  {
    hide Core, Sends, GateOpen, Handed, IsPoseQuery, AttemptFinal;
    var steps := s.commands[id].children;
    var plan := StepRecords(s, steps);
    var k := FirstStop(plan, 0, env);
    assert StepsWait(s, id);
    forall j | 0 <= j < |steps| ensures steps[j] in g.s.commands && plan[j].state == NeedsConfirmation {
      assert steps[j] in steps;
    }
    if k < |steps| {
      assert steps[k] in steps;
      if k < |steps| - 1 {
        assert steps[k + 1] in steps && g.s.commands[steps[k + 1]] == plan[k + 1];
      }
    }
    forall c | c in steps ensures exists j :: 0 <= j < |steps| && steps[j] == c {
    }
  }

  /** A sequence that expires leaves its steps as they were: waiting, so they are over exactly when
      there are none. */
  lemma ExpiryLeavesSteps(s: Supervisor, now: int, id: Id)
    requires Inv(s) && id in s.commands && s.commands[id].kind == Sequence && Overdue(s.commands[id], now)
    ensures var t := ExpirePending(s, now).s;
            var steps := s.commands[id].children;
            && id in t.commands && t.commands[id] == Done(s.commands[id], Expired)
            && (forall c | c in steps :: c in s.commands && c in t.commands && t.commands[c] == s.commands[c]
                  && t.commands[c].state == NeedsConfirmation)
            && (StepsOver(t, steps) <==> steps == [])
  {
    hide Core, Sends, ExpirePending;
    SweepInv(s, now);
    FamiliesOf(s);
    assert Linked(s, id);
    assert StepsWait(s, id);
    var steps := s.commands[id].children;
    forall c | c in steps ensures c in s.commands && s.commands[c].parent == Some(id) {
      var j :| 0 <= j < |steps| && steps[j] == c;
    }
    if steps != [] {
      assert steps[0] in steps;
    }
  }

  /** `cancel_sequence` also accepts a sequence that is already over, and then touches no step: after an
      accepted call every step is over exactly when the sequence was not over yet, or its steps were. */
  lemma AcceptedCancelEndsStepsExactly(s: Supervisor, caller: Caller, clock: Clock, id: Id, abortOk: bool)
    requires Inv(s) && CancelSequence(s, caller, clock, id, abortOk).reply == Accepted
    ensures var o := CancelSequence(s, caller, clock, id, abortOk).s;
            var e := Enter(s, caller, clock, id).s;
            && id in e.commands && id in o.commands
            && (StepsOver(o, e.commands[id].children)
                <==> !Terminal(e.commands[id].state) || StepsOver(e, e.commands[id].children))
            && (Terminal(e.commands[id].state) ==> o == e)
  {
    hide Core, Staged, Families, Sends, LeaseCheck, Enter, CancelJob, CurrentStepInFlight;
    EnterInv(s, caller, clock, id);
    CancelSequenceInv(s, caller, clock, id, abortOk);
  }

  /** The failing input: the window of a waiting sequence with steps has lapsed.  The call's own sweep
      expires the sequence, the call is accepted, and every step still waits. */
  lemma LateCancelLeavesSteps(s: Supervisor, caller: Caller, clock: Clock, id: Id, abortOk: bool)
    requires Inv(s) && LiveOwner(s, caller, clock, id)
    requires s.commands[id].kind == Sequence && s.commands[id].children != [] && Overdue(s.commands[id], clock.sweep)
    ensures var o := CancelSequence(s, caller, clock, id, abortOk);
            && o.reply == Accepted && id in o.s.commands && o.s.commands[id].state == Expired
            && (forall c | c in s.commands[id].children :: c in o.s.commands && o.s.commands[c].state == NeedsConfirmation)
            && !StepsOver(o.s, s.commands[id].children)
  {
    hide Core, Staged, Sends, ExpirePending, CancelJob;
    ExpiryLeavesSteps(s, clock.sweep, id);
    SweepInv(s, clock.sweep);
    assert s.commands[id].children[0] in s.commands[id].children;
  }
}
