/** One turn of an interleaving seen from outside: what it may write, what it hands to ROS, and which
    steps still lie ahead of the confirming thread. */
module StageFrames {
  import opened Wrappers
  import opened Lifecycle
  import opened SupervisorModel
  import opened SupervisorInvariants
  import opened SupervisorCalls
  import opened Interleaving

  /** The step a stage hands to ROS, if any. */
  function HandedNow(w: World): seq<Id> {
    if w.pc.Prepared? && w.pc.i < |w.steps| && !IsPoseStep(w, w.pc.i) then [w.steps[w.pc.i]] else []
  }

  ghost predicate QuietWrites(s: Supervisor, t: Supervisor, seqId: Id, steps: seq<Id>) {
    && Sends(t.history) == Sends(s.history) && t.commands.Keys == s.commands.Keys
    && t.nextId == s.nextId && t.activeSequence == s.activeSequence
    && forall x | x in s.commands && x != seqId && x !in steps :: t.commands[x] == s.commands[x]
  }

  lemma QuietTrans(s: Supervisor, t: Supervisor, u: Supervisor, seqId: Id, steps: seq<Id>)
    requires QuietWrites(s, t, seqId, steps) && QuietWrites(t, u, seqId, steps)
    ensures QuietWrites(s, u, seqId, steps)
  {
    hide Sends;
  }

  lemma QuietMove(f: Flow, id: Id, next: State, seqId: Id, steps: seq<Id>)
    requires id == seqId || id in steps
    ensures var g := Move(f, id, next); QuietWrites(f.s, g.s, seqId, steps) && g.s.activeCommand == f.s.activeCommand
  {
    hide Sends;
    if Legal(f, id, next) {
      SendsSnoc(f.s.history, Audit(id, Row(Some(f.s.commands[id].state), next)));
    }
  }

  lemma QuietClose(f: Flow, id: Id, final: State, seqId: Id, steps: seq<Id>)
    requires id == seqId || id in steps
    ensures var g := Close(f, id, final);
            QuietWrites(f.s, g.s, seqId, steps) && g.s.activeCommand == f.s.activeCommand
  {
    hide Sends, Move;
    var h := SetFinal(f, id, Some(final));
    QuietMove(h, id, final, seqId, steps);
    QuietTrans(f.s, h.s, Close(f, id, final).s, seqId, steps);
  }

  lemma QuietPrepare(f: Flow, id: Id, seqId: Id, steps: seq<Id>)
    requires id in steps
    ensures var g := Prepare(f, id); QuietWrites(f.s, g.s, seqId, steps) && g.s.activeCommand == f.s.activeCommand
  {
    hide Sends, Move, QuietWrites;
    QuietMove(f, id, Confirmed, seqId, steps);
    QuietMove(Move(f, id, Confirmed), id, ExecutionRequested, seqId, steps);
    QuietTrans(f.s, Move(f, id, Confirmed).s, Prepare(f, id).s, seqId, steps);
  }

  lemma QuietFinish(f: Flow, id: Id, ros: RosResult, seqId: Id, steps: seq<Id>)
    requires id in steps
    ensures var g := Finish(f, id, ros); QuietWrites(f.s, g.s, seqId, steps) && g.s.activeCommand == f.s.activeCommand
  {
    hide Sends, Move, Close;
    if f.fault == Clear && ros.RosReturns? {
      var m := Move(f, id, Executing);
      var d := SetFinal(m, id, None);
      QuietMove(f, id, Executing, seqId, steps);
      QuietTrans(f.s, m.s, d.s, seqId, steps);
      var g := if ros.dispatched then d else if ros.status == StatusCancelled then m else f;
      QuietClose(g, id, FinalOf(ros.status), seqId, steps);
      QuietTrans(f.s, g.s, Close(g, id, FinalOf(ros.status)).s, seqId, steps);
    }
  }

  lemma QuietQuery(f: Flow, id: Id, pose: PoseReply, seqId: Id, steps: seq<Id>)
    requires id in steps
    ensures var g := QueryPose(f, id, pose);
            QuietWrites(f.s, g.s, seqId, steps) && g.s.activeCommand == f.s.activeCommand
  {
    hide Sends, Move, Close;
    if f.fault == Clear && id in f.s.commands && pose != PoseRaises {
      var g := if f.s.commands[id].state != Validating then Move(f, id, Executing) else f;
      QuietMove(f, id, Executing, seqId, steps);
      QuietClose(g, id, PoseFinal(pose), seqId, steps);
      QuietTrans(f.s, g.s, Close(g, id, PoseFinal(pose)).s, seqId, steps);
    }
  }

  lemma QuietFail(f: Flow, seqId: Id, step: Id, steps: seq<Id>)
    ensures var g := FailSequence(f, seqId, step);
            QuietWrites(f.s, g.s, seqId, steps) && g.s.activeCommand == f.s.activeCommand
  {
    hide Sends, Move, TouchedIo;
    if f.fault == Clear && seqId in f.s.commands && step in f.s.commands {
      var c := f.s.commands[step];
      var r := f.s.commands[seqId].(finalState := c.finalState,
                                    manualRecovery := TouchedIo(f.s.commands, f.s.commands[seqId].children, c.stepIndex));
      var h := f.(s := Put(f.s, seqId, r));
      QuietMove(h, seqId, if c.finalState.Some? then c.finalState.value else Failed, seqId, steps);
      QuietTrans(f.s, h.s, FailSequence(f, seqId, step).s, seqId, steps);
    }
  }

  lemma QuietComplete(f: Flow, seqId: Id, steps: seq<Id>)
    ensures var g := CompleteSequence(f, seqId);
            QuietWrites(f.s, g.s, seqId, steps) && g.s.activeCommand == f.s.activeCommand
  {
    hide Sends, Close;
    if f.fault == Clear && seqId in f.s.commands {
      var r := f.s.commands[seqId];
      var r' := if |r.children| > 0 then r.(currentStep := Some(|r.children| - 1)) else r;
      var h := f.(s := Put(f.s, seqId, r'));
      QuietClose(h, seqId, Succeeded, seqId, steps);
      QuietTrans(f.s, h.s, CompleteSequence(f, seqId).s, seqId, steps);
    }
  }

  lemma QuietConclude(w: World, g: Flow, i: nat)
    requires i < |w.steps|
    ensures var v := Conclude(w, g, i);
            && QuietWrites(g.s, v.s, w.seqId, [w.steps[i]]) && v.s.activeCommand == g.s.activeCommand
            && v.seqId == w.seqId && v.steps == w.steps
  {
    hide Sends, FailSequence, StepSucceeded;
    QuietFail(g, w.seqId, w.steps[i], [w.steps[i]]);
  }

  /** The step a stage works on, if any. */
  function Touched(w: World): seq<Id> {
    if !w.pc.Gone? && w.pc.i < |w.steps| then [w.steps[w.pc.i]] else []
  }

  /** Where the active command points after a stage. */
  function PointedAfter(w: World): Option<Id> {
    if w.pc.Ready? && w.pc.i < |w.steps| && w.seqId in w.s.commands && w.steps[w.pc.i] in w.s.commands then
      Some(w.steps[w.pc.i])
    else w.s.activeCommand
  }

  /** A stage sends at most the step it stands at, writes only that step and the sequence, and moves
      the active command exactly when it turns to a step. */
  lemma StageFrame(w: World, env: StepEnv)
    ensures var v := Advance(w, env);
            && v.seqId == w.seqId && v.steps == w.steps
            && Sends(v.s.history) == Sends(w.s.history) + HandedNow(w)
            && v.s.commands.Keys == w.s.commands.Keys && v.s.nextId == w.s.nextId
            && v.s.activeSequence == w.s.activeSequence && v.s.activeCommand == PointedAfter(w)
            && forall x | x in w.s.commands && x != w.seqId && x !in Touched(w) :: v.s.commands[x] == w.s.commands[x]
  {
    hide Sends, Conclude, Prepare, Finish, QueryPose, CompleteSequence, GateOpen, IsPoseStep;
    var f := Flow(w.s, Clear);
    match w.pc
    case Ready(i) =>
      if i >= |w.steps| {
        QuietComplete(f, w.seqId, []);
      } else {
        var p := PointAt(f, w.seqId, w.steps[i]);
        QuietPrepare(p, w.steps[i], w.seqId, [w.steps[i]]);
        QuietConclude(w, p, i);
      }
    case Prepared(i) =>
      if i < |w.steps| {
        SendsSnoc(w.s.history, Sent(w.steps[i]));
      }
    case Awaiting(i) =>
      if i < |w.steps| {
        var g := if IsPoseStep(w, i) then QueryPose(f, w.steps[i], env.pose) else Finish(f, w.steps[i], env.ros);
        QuietFinish(f, w.steps[i], env.ros, w.seqId, [w.steps[i]]);
        QuietQuery(f, w.steps[i], env.pose, w.seqId, [w.steps[i]]);
        QuietConclude(w, g, i);
      }
    case Gone =>
  }

  /** Cancellations send nothing, move no pointer and leave the thread where it is. */
  lemma {:induction false} QuietCancelSteps(f: Flow, seqId: Id, steps: seq<Id>, i: nat)
    ensures var g := CancelSteps(f, steps, i);
            QuietWrites(f.s, g.s, seqId, steps) && g.s.activeCommand == f.s.activeCommand
    decreases |steps| - i
  {
    hide Sends, Close;
    if f.fault == Clear && i < |steps| && steps[i] in f.s.commands {
      var g := if Terminal(f.s.commands[steps[i]].state) then f else Close(f, steps[i], Cancelled);
      QuietClose(f, steps[i], Cancelled, seqId, steps);
      QuietCancelSteps(g, seqId, steps, i + 1);
      QuietTrans(f.s, g.s, CancelSteps(g, steps, i + 1).s, seqId, steps);
    }
  }

  lemma CancelFrame(w: World, turn: Turn)
    requires Listed(w) && !turn.Stage?
    ensures var v := React(w, turn);
            && v.seqId == w.seqId && v.steps == w.steps && v.pc == w.pc
            && QuietWrites(w.s, v.s, w.seqId, w.steps) && v.s.activeCommand == w.s.activeCommand
  {
    hide Sends, Close, CancelSteps, CurrentStepInFlight;
    var f := Flow(w.s, Clear);
    var g := CancelSteps(f, w.steps, 0);
    QuietClose(f, w.seqId, Cancelled, w.seqId, w.steps);
    QuietCancelSteps(f, w.seqId, w.steps, 0);
    QuietClose(g, w.seqId, Cancelled, w.seqId, w.steps);
    QuietTrans(w.s, g.s, Close(g, w.seqId, Cancelled).s, w.seqId, w.steps);
  }

  // ---- what is still sent ----

  /** The thread may still hand over the step at position j. */
  predicate Ahead(pc: Pc, j: nat) {
    match pc
    case Ready(i) => i <= j
    case Prepared(i) => i <= j
    case Awaiting(i) => i < j
    case Gone => false
  }

  predicate Sendable(w: World, j: nat) {
    j < |w.steps| && !IsPoseStep(w, j)
  }

  /** Some step the thread may still hand over is not a pose query. */
  ghost predicate SendAhead(w: World) {
    exists j: nat :: Ahead(w.pc, j) && Sendable(w, j)
  }

  /** No stage makes a position lie ahead that did not. */
  lemma NothingReturns(w: World, env: StepEnv, j: nat)
    requires j < |w.steps| && Ahead(Advance(w, env).pc, j)
    ensures Ahead(w.pc, j) && !(w.pc == Prepared(j))
  {
    hide Prepare, Finish, QueryPose, CompleteSequence, FailSequence, GateOpen, StepSucceeded, IsPoseStep, PointAt;
  }

  /** A turn changes neither the list of steps nor what they are to do. */
  lemma ListedKept(w: World, turn: Turn)
    requires Listed(w)
    ensures var v := React(w, turn);
            && Listed(v) && v.seqId == w.seqId && v.steps == w.steps
            && (forall j: nat :: Sendable(v, j) == Sendable(w, j))
            && Sends(v.s.history) == Sends(w.s.history) + (if turn.Stage? then HandedNow(w) else [])
  {
    hide Sends, Advance, Rows, CancelBySequence, CancelByCommand, IsPoseQuery;
    ReactAbsorbed(w, turn);
    if turn.Stage? {
      StageFrame(w, turn.env);
    } else {
      CancelFrame(w, turn);
    }
    var v := React(w, turn);
    forall j: nat ensures Sendable(v, j) == Sendable(w, j) {
      if j < |w.steps| {
        assert w.steps[j] in w.steps;
      }
    }
  }

  /** With no such step, nothing is sent in any continuation. */
  lemma {:induction false} NothingAhead(w: World, turns: seq<Turn>)
    requires Listed(w) && !SendAhead(w)
    ensures Sends(Play(w, turns).s.history) == Sends(w.s.history)
    decreases |turns|
  {
    hide Sends, React, Listed, Sendable, Ahead;
    if turns != [] {
      var v := React(w, turns[0]);
      ListedKept(w, turns[0]);
      SilentTurn(w, turns[0]);
      NothingAhead(v, turns[1..]);
    }
  }

  lemma SilentTurn(w: World, turn: Turn)
    requires Listed(w) && !SendAhead(w)
    ensures !SendAhead(React(w, turn)) && (turn.Stage? ==> HandedNow(w) == [])
  {
    hide Sends, Advance, CancelBySequence, CancelByCommand, IsPoseStep;
    ListedKept(w, turn);
    var v := React(w, turn);
    if !turn.Stage? {
      CancelFrame(w, turn);
    }
    forall j: nat ensures !(Ahead(v.pc, j) && Sendable(v, j)) {
      assert !(Ahead(w.pc, j) && Sendable(w, j));
      if turn.Stage? && Ahead(v.pc, j) && j < |w.steps| {
        NothingReturns(w, turn.env, j);
      }
    }
    if w.pc.Prepared? {
      assert !(Ahead(w.pc, w.pc.i) && Sendable(w, w.pc.i));
    }
  }

  // ---- the order of the hand-overs ----

  /** Strictly rising positions the thread may still hand over. */
  ghost predicate RisingAhead(pc: Pc, n: nat, ps: seq<nat>) {
    && (forall k | 0 <= k < |ps| :: ps[k] < n && Ahead(pc, ps[k]))
    && (forall k, m | 0 <= k < m < |ps| :: ps[k] < ps[m])
  }

  function StepsAt(steps: seq<Id>, ps: seq<nat>): (ids: seq<Id>)
    requires forall k | 0 <= k < |ps| :: ps[k] < |steps|
    ensures |ids| == |ps| && forall k | 0 <= k < |ids| :: ids[k] == steps[ps[k]]
  {
    seq(|ps|, k requires 0 <= k < |ps| => steps[ps[k]])
  }

  lemma StaysAhead(w: World, turn: Turn, ps: seq<nat>)
    requires Listed(w) && RisingAhead(React(w, turn).pc, |w.steps|, ps)
    ensures RisingAhead(w.pc, |w.steps|, ps)
    ensures turn.Stage? && w.pc.Prepared? ==> forall k | 0 <= k < |ps| :: w.pc.i < ps[k]
  {
    hide Sends, Advance, CancelBySequence, CancelByCommand;
    forall k | 0 <= k < |ps| ensures Ahead(w.pc, ps[k]) && (turn.Stage? && w.pc.Prepared? ==> w.pc.i < ps[k]) {
      if turn.Stage? {
        NothingReturns(w, turn.env, ps[k]);
      } else {
        CancelFrame(w, turn);
      }
    }
  }

  /** Between the two worlds exactly the steps at these positions were handed over, in this order. */
  ghost predicate HandsOver(w: World, u: World, ps: seq<nat>) {
    (forall k | 0 <= k < |ps| :: ps[k] < |w.steps|) && Sends(u.s.history) == Sends(w.s.history) + StepsAt(w.steps, ps)
  }

  lemma HandsOverLater(w: World, v: World, u: World, ps: seq<nat>)
    requires v.steps == w.steps && Sends(v.s.history) == Sends(w.s.history) + [] && HandsOver(v, u, ps)
    ensures HandsOver(w, u, ps)
  {
    hide Sends;
  }

  lemma HandsOverNow(w: World, v: World, u: World, i: nat, ps: seq<nat>)
    requires i < |w.steps| && v.steps == w.steps && HandsOver(v, u, ps)
    requires Sends(v.s.history) == Sends(w.s.history) + [w.steps[i]]
    ensures HandsOver(w, u, [i] + ps)
  {
    hide Sends;
    assert StepsAt(w.steps, [i] + ps) == [w.steps[i]] + StepsAt(w.steps, ps);
    assert (Sends(w.s.history) + [w.steps[i]]) + StepsAt(w.steps, ps)
        == Sends(w.s.history) + ([w.steps[i]] + StepsAt(w.steps, ps));
  }

  lemma RisesFromHere(pc: Pc, n: nat, ps: seq<nat>)
    requires pc.Prepared? && pc.i < n && RisingAhead(pc, n, ps) && forall k | 0 <= k < |ps| :: pc.i < ps[k]
    ensures RisingAhead(pc, n, [pc.i] + ps)
  {
  }

  lemma {:induction false} HandedPositions(w: World, turns: seq<Turn>) returns (ps: seq<nat>)
    requires Listed(w)
    ensures RisingAhead(w.pc, |w.steps|, ps) && HandsOver(w, Play(w, turns), ps)
    decreases |turns|
  {
    hide Sends, React, Listed, Ahead, IsPoseStep, HandsOver, RisingAhead;
    if turns == [] {
      ps := [];
      NothingHanded(w);
    } else {
      var v := React(w, turns[0]);
      ListedKept(w, turns[0]);
      ps := HandedPositions(v, turns[1..]);
      StaysAhead(w, turns[0], ps);
      if turns[0].Stage? && HandedNow(w) != [] {
        RisesFromHere(w.pc, |w.steps|, ps);
        HandsOverNow(w, v, Play(w, turns), w.pc.i, ps);
        ps := [w.pc.i] + ps;
      } else {
        HandsOverLater(w, v, Play(w, turns), ps);
      }
    }
  }

  lemma NothingHanded(w: World)
    ensures RisingAhead(w.pc, |w.steps|, []) && HandsOver(w, w, [])
  {
    hide Sends;
  }

  /** In every interleaving the thread hands its steps over in order, from its place on and skipping
      some, so that a list of distinct steps is handed over without repetition. */
  lemma HandOversRise(w: World, turns: seq<Turn>)
    requires Listed(w)
    ensures exists ps :: RisingAhead(w.pc, |w.steps|, ps) && HandsOver(w, Play(w, turns), ps)
    ensures Distinct(w.steps) ==> exists sent :: Distinct(sent) && Sends(Play(w, turns).s.history) == Sends(w.s.history) + sent
  {
    hide Sends, Play, Listed, Ahead;
    var ps := HandedPositions(w, turns);
    assert HandsOver(w, Play(w, turns), ps);
    assert Distinct(w.steps) ==> Distinct(StepsAt(w.steps, ps));
  }
}
