/** Every confirmation that an honest run can start meets the conditions the interleaving theorems ask
    for, and keeps them until its sequence is over. */
module Confirmations {
  import opened Wrappers
  import opened Lifecycle
  import opened SupervisorModel
  import opened SupervisorInvariants
  import opened SequenceRuns
  import opened CallEffects
  import opened Validation
  import opened SupervisorRuns
  import opened WaitingRecords
  import opened Interleaving
  import opened StageFrames
  import opened CancelledByCommand
  import opened StaleThreads

  /** The confirming thread once `confirm_sequence` has passed its checks and started the sequence. */
  function Started(s: Supervisor, caller: Caller, clock: Clock, id: Id): World {
    var o := Enter(s, caller, clock, id).s;
    World(StartSequence(Flow(o, Clear), id).s, id, if id in o.commands then o.commands[id].children else [], Ready(0))
  }

  /** Whoever cancels or continues a confirmation under way finds its next step unfinished. */
  lemma UnderwayIsUndone(w: World)
    requires Underway(w)
    ensures NextUndone(w)
  {
    hide Runnable;
  }

  lemma DistinctSteps(s: Supervisor, id: Id)
    requires Families(s) && id in s.commands && s.commands[id].kind == Sequence
    ensures var steps := s.commands[id].children;
            && Distinct(steps) && id !in steps
            && forall c | c in steps :: c in s.commands && s.commands[c].kind == Command && s.commands[c].parent == Some(id)
  {
    var steps := s.commands[id].children;
    forall j | 0 <= j < |steps|
      ensures steps[j] in s.commands && steps[j] != id && s.commands[steps[j]].parent == Some(id)
      ensures s.commands[steps[j]].kind == Command
      ensures forall m | 0 <= m < |steps| && m != j :: steps[m] != steps[j]
    {
      StepsDistinct(s, id, j);
    }
  }

  lemma WaitingHasNoFinal(s: Supervisor, id: Id)
    requires Finals(s) && Waiting(s, id)
    ensures s.commands[id].finalState.None?
  {
    assert Finalised(s.commands[id]);
  }

  /** Starting a waiting sequence of a sound state. */
  lemma StartsUnderway(s: Supervisor, id: Id)
    requires Inv(s) && WaitersRunnable(s) && Waiting(s, id) && s.commands[id].kind == Sequence
    ensures var w := World(StartSequence(Flow(s, Clear), id).s, id, s.commands[id].children, Ready(0));
            Underway(w) && IsTheJob(w) && id in w.s.commands && w.s.commands[id].state == Executing
  {
    hide Sound, Families, SingleJob, Finals, StartSequence, Runnable, Sends;
    var g := StartSequence(Flow(s, Clear), id);
    var w := World(g.s, id, s.commands[id].children, Ready(0));
    StartSequenceCore(Flow(s, Clear), id);
    DistinctSteps(s, id);
    assert StepsWait(s, id);
    RunningIsNamed(g.s, id);
    forall j: nat | j < |w.steps|
      ensures Waiting(w.s, w.steps[j]) && w.s.commands[w.steps[j]].finalState.None?
    {
      assert w.steps[j] in w.steps;
      WaitingHasNoFinal(s, w.steps[j]);
    }
    assert Tracked(g.s) by { CoreTracked(g.s); }
  }

  lemma CoreTracked(s: Supervisor)
    requires Core(s)
    ensures Tracked(s)
  {
  }

  /** In every reachable state an authorised `confirm_sequence` starts a thread that is under way, and
      the atomic call is that thread's undisturbed run. */
  lemma ConfirmationStarts(ttl: int, cfg: Config, calls: seq<Call>, caller: Caller, clock: Clock, id: Id,
                           fingerprint: string, env: nat -> StepEnv)
    requires HonestRun(calls) && Authorised(Run(Initial(ttl), cfg, calls), caller, clock, id, fingerprint, Sequence)
    ensures var s := Run(Initial(ttl), cfg, calls);
            var w := Started(s, caller, clock, id);
            && w.steps == s.commands[id].children && id in w.s.commands && w.s.commands[id].state == Executing
            && Underway(w) && NextUndone(w) && IsTheJob(w)
            && Alone(w, env, 3 * |w.steps| + 1).s == ConfirmSequence(s, caller, clock, id, fingerprint, env).s
  {
    hide Inv, HonestCall, HonestRun, Run, Enter, CheckWaiting, Authorised, Underway, IsTheJob, NextUndone, WaitersRunnable,
         StartSequence, RunSteps, Alone;
    var s := Run(Initial(ttl), cfg, calls);
    RunInv(ttl, cfg, calls);
    RunWaiters(ttl, cfg, calls);
    EntersUnchanged(s, caller, clock, id, fingerprint);
    var o := Enter(s, caller, clock, id).s;
    assert WaitersRunnable(o) by { SameRecordsRun(s, o); }
    StartsUnderway(o, id);
    var w := Started(s, caller, clock, id);
    UnderwayIsUndone(w);
    StartClear(o, id);
    assert StartSequence(Flow(o, Clear), id) == Flow(w.s, Clear);
    AtomicRun(s, caller, clock, id, fingerprint, env);
    AloneIsAtomic(w, env, 0, 3 * |w.steps| + 1);
  }

  lemma AtomicRun(s: Supervisor, caller: Caller, clock: Clock, id: Id, fingerprint: string, env: nat -> StepEnv)
    requires var o := Enter(s, caller, clock, id);
             && o.reply == Accepted && Waiting(o.s, id) && o.s.commands[id].kind == Sequence
             && CheckWaiting(o.s, id, fingerprint, clock.stamp) == Outcome(o.s, Accepted)
    ensures var o := Enter(s, caller, clock, id).s;
            ConfirmSequence(s, caller, clock, id, fingerprint, env).s
            == RunSteps(StartSequence(Flow(o, Clear), id), id, o.commands[id].children, 0, env).s
  {
    hide Enter, CheckWaiting, StartSequence, RunSteps;
  }

  lemma SameRecordsRun(s: Supervisor, t: Supervisor)
    requires WaitersRunnable(s) && t.commands == s.commands
    ensures WaitersRunnable(t)
  {
  }

  lemma StartClear(s: Supervisor, id: Id)
    requires Inv(s) && Waiting(s, id)
    ensures StartSequence(Flow(s, Clear), id).fault == Clear
  {
    hide Core, Staged, StartSequence;
    StartSequenceCore(Flow(s, Clear), id);
  }

  lemma EntersUnchanged(s: Supervisor, caller: Caller, clock: Clock, id: Id, fingerprint: string)
    requires Inv(s) && Authorised(s, caller, clock, id, fingerprint, Sequence)
    ensures var o := Enter(s, caller, clock, id);
            && o.reply == Accepted && Inv(o.s) && o.s.commands == s.commands
            && Waiting(o.s, id) && o.s.commands[id].kind == Sequence
            && CheckWaiting(o.s, id, fingerprint, clock.stamp) == Outcome(o.s, Accepted)
  {
    hide Core, Staged, Enter, LeaseCheck, CheckWaiting;
    ConfirmSequenceEntered(s, caller, clock, id, fingerprint);
  }

  lemma TurnCarries(w: World, turn: Turn)
    requires Listed(w)
    ensures var v := React(w, turn);
            && Carried(w.s, v.s) && v.s.activeSequence == w.s.activeSequence && v.seqId == w.seqId && v.steps == w.steps
  {
    hide Sends, Rows, React, QuietWrites, Listed;
    ReactAbsorbed(w, turn);
    SameKeys(w, turn);
  }

  lemma SameKeys(w: World, turn: Turn)
    requires Listed(w)
    ensures var v := React(w, turn);
            && v.s.commands.Keys == w.s.commands.Keys && v.s.nextId == w.s.nextId
            && v.s.activeSequence == w.s.activeSequence && v.seqId == w.seqId && v.steps == w.steps
  {
    hide Sends, Rows, Advance, CancelBySequence, CancelByCommand;
    if turn.Stage? {
      StageFrame(w, turn.env);
    } else {
      CancelFrame(w, turn);
    }
  }

  /** No turn takes the job away from the sequence. */
  lemma TurnKeepsJob(w: World, turn: Turn)
    requires Listed(w) && IsTheJob(w)
    ensures IsTheJob(React(w, turn))
  {
    hide Rows, React, Tracked, Listed;
    TurnCarries(w, turn);
    OnlyPointerMoves(w.s, React(w, turn).s);
  }

  lemma OnlyPointerMoves(s: Supervisor, t: Supervisor)
    requires Tracked(s) && Carried(s, t) && s.activeSequence.Some? && t.activeSequence == s.activeSequence
    ensures Tracked(t)
  {
    forall x | x in t.commands && t.commands[x].parent.None? && !Terminal(t.commands[x].state) ensures Named(t, x) {
      assert Named(s, x);
    }
  }

  lemma {:induction false} JobKept(w: World, turns: seq<Turn>)
    requires Listed(w) && IsTheJob(w)
    ensures IsTheJob(Play(w, turns))
    decreases |turns|
  {
    hide Listed, IsTheJob, React;
    if turns != [] {
      TurnKeepsJob(w, turns[0]);
      ListedKept(w, turns[0]);
      JobKept(React(w, turns[0]), turns[1..]);
    }
  }

  /** Every confirmation an honest run can start is, in every interleaving with cancellations, under way
      with its next step unfinished, or its sequence is over; and it stays the job the supervisor names. */
  lemma ReachableIsUnderway(ttl: int, cfg: Config, calls: seq<Call>, caller: Caller, clock: Clock, id: Id,
                            fingerprint: string, turns: seq<Turn>)
    requires HonestRun(calls) && Authorised(Run(Initial(ttl), cfg, calls), caller, clock, id, fingerprint, Sequence)
    ensures var u := Play(Started(Run(Initial(ttl), cfg, calls), caller, clock, id), turns);
            && IsTheJob(u)
            && ((Underway(u) && NextUndone(u)) || (id in u.s.commands && Terminal(u.s.commands[id].state)))
  {
    hide HonestCall, HonestRun, Run, Authorised, Underway, IsTheJob, NextUndone, Play, Alone, ConfirmSequence;
    var w := Started(Run(Initial(ttl), cfg, calls), caller, clock, id);
    ConfirmationStarts(ttl, cfg, calls, caller, clock, id, fingerprint, _ => FairEnv(Blank(Command, caller, Sim)));
    UnderwayListed(w);
    JobKept(w, turns);
    RunningIsUnderway(w, turns);
    var u := Play(w, turns);
    if Underway(u) {
      UnderwayIsUndone(u);
    }
  }
}
