/** The confirming thread of a sequence that is over, and the submissions admitted meanwhile: exactly
    when the single-job check still holds. */
module StaleThreads {
  import opened Wrappers
  import opened Lifecycle
  import opened Validation
  import opened SupervisorModel
  import opened SupervisorInvariants
  import opened CallEffects
  import opened Interleaving
  import opened Submissions
  import opened StageFrames
  import opened CancelledByCommand

  /** What else can happen once the sequence is over: a stage of its thread, the admission of a new
      submission, any lifecycle write to any record, another sequence turning to a step, and a step
      being listed by a sequence that is being planned. */
  datatype Happening =
    | Old(env: StepEnv)
    | Admission(kind: Kind, caller: Caller, mode: Mode)
    | Progress(id: Id, next: State)
    | Turning(id: Id, step: Id)
    | Listing(id: Id, index: nat, intent: Intent)

  predicate RunningSequence(s: Supervisor, id: Id) {
    id in s.commands && s.commands[id].kind == Sequence && s.commands[id].parent.None? && !Terminal(s.commands[id].state)
  }

  /** A submission is admitted only behind the single-job check. */
  function Happen(w: World, h: Happening): World {
    match h
    case Old(env) => Advance(w, env)
    case Admission(kind, caller, mode) =>
      if JobActive(w.s) then w else w.(s := Admit(w.s, Blank(kind, caller, mode)))
    case Progress(id, next) => w.(s := Move(Flow(w.s, Clear), id, next).s)
    case Turning(id, step) =>
      if RunningSequence(w.s, id) then w.(s := PointAt(Flow(w.s, Clear), id, step).s) else w
    case Listing(id, index, intent) =>
      if RunningSequence(w.s, id) then w.(s := Grow(w.s, id, index, intent)) else w
  }

  function Unfold(w: World, hs: seq<Happening>): World
    decreases |hs|
  {
    if hs == [] then w else Unfold(Happen(w, hs[0]), hs[1..])
  }

  /** At most one record without a parent is not over. */
  ghost predicate AtMostOneJob(s: Supervisor) {
    forall a, b | a in s.commands && b in s.commands && s.commands[a].parent.None? && s.commands[b].parent.None?
        && !Terminal(s.commands[a].state) && !Terminal(s.commands[b].state) :: a == b
  }

  /** The thread will turn to a further step: it stands before one, or it waits on a step whose
      success would bring it there. */
  predicate StillPoints(w: World) {
    match w.pc
    case Ready(i) => i < |w.steps|
    case Prepared(i) => i + 1 < |w.steps| && w.steps[i] in w.s.commands && !Terminal(w.s.commands[w.steps[i]].state)
    case Awaiting(i) => i + 1 < |w.steps| && w.steps[i] in w.s.commands && !Terminal(w.s.commands[w.steps[i]].state)
    case Gone => false
  }

  /** The sequence is over and its thread is still somewhere. */
  ghost predicate Stale(w: World) {
    && Listed(w) && Terminal(w.s.commands[w.seqId].state)
    && (forall c | c in w.steps :: w.s.commands[c].parent.Some?)
    && (w.pc.Prepared? || w.pc.Awaiting? ==> w.pc.i < |w.steps|)
  }

  /** What the single-job check relies on. */
  ghost predicate Tracked(s: Supervisor) {
    Numbered(s) && SingleJob(s)
  }

  lemma TrackedIsOne(s: Supervisor)
    requires Tracked(s)
    ensures AtMostOneJob(s)
  {
    forall a | a in s.commands && s.commands[a].parent.None? && !Terminal(s.commands[a].state) ensures Named(s, a) {
    }
  }

  /** Records that keep their kind and parent, and their end once they have one. */
  ghost predicate Carried(s: Supervisor, t: Supervisor) {
    && t.commands.Keys == s.commands.Keys && t.nextId == s.nextId
    && forall x | x in s.commands ::
         && t.commands[x].kind == s.commands[x].kind && t.commands[x].parent == s.commands[x].parent
         && (Terminal(s.commands[x].state) ==> Terminal(t.commands[x].state))
  }

  lemma CarriedTracked(s: Supervisor, t: Supervisor)
    requires Tracked(s) && Carried(s, t) && t.activeCommand == s.activeCommand && t.activeSequence == s.activeSequence
    ensures Tracked(t) && (JobActive(t) ==> JobActive(s))
  {
    forall x | x in t.commands && t.commands[x].parent.None? && !Terminal(t.commands[x].state) ensures Named(t, x) {
      assert Named(s, x);
    }
  }

  lemma UnseenIsOver(s: Supervisor)
    requires SingleJob(s)
    ensures !JobActive(s) ==> NoJob(s)
  {
    forall x | x in s.commands && s.commands[x].parent.None? && !Terminal(s.commands[x].state) ensures JobActive(s) {
      assert Named(s, x);
    }
  }

  lemma AdmissionTracked(s: Supervisor, kind: Kind, caller: Caller, mode: Mode)
    requires Tracked(s) && !JobActive(s)
    ensures Tracked(Admit(s, Blank(kind, caller, mode)))
  {
    hide JobActive, SingleJob;
    UnseenIsOver(s);
    AdmittedRecords(s, Blank(kind, caller, mode));
    AdmittedAlone(s, Admit(s, Blank(kind, caller, mode)));
  }

  lemma AdmittedAlone(s: Supervisor, t: Supervisor)
    requires NoJob(s) && s.nextId in t.commands && t.commands == s.commands[s.nextId := t.commands[s.nextId]]
    requires Named(t, s.nextId)
    ensures SingleJob(t)
  {
  }

  lemma TurningTracked(s: Supervisor, id: Id, step: Id)
    requires Tracked(s) && RunningSequence(s, id)
    ensures Tracked(PointAt(Flow(s, Clear), id, step).s)
  {
    var t := PointAt(Flow(s, Clear), id, step).s;
    assert Named(s, id);
    forall x | x in t.commands && t.commands[x].parent.None? && !Terminal(t.commands[x].state) ensures Named(t, x) {
      assert Named(s, x);
    }
  }

  lemma ListingTracked(s: Supervisor, id: Id, index: nat, intent: Intent)
    requires Tracked(s) && RunningSequence(s, id)
    ensures Tracked(Grow(s, id, index, intent))
  {
    var t := Grow(s, id, index, intent);
    forall x | x in t.commands && t.commands[x].parent.None? && !Terminal(t.commands[x].state) ensures Named(t, x) {
      assert Named(s, x);
    }
  }

  /** Where a stage of a stale thread leads. */
  lemma StalePlaces(w: World, env: StepEnv)
    requires Stale(w)
    ensures var v := Advance(w, env);
            match w.pc
            case Ready(i) =>
              v.pc.Gone? || (i < |w.steps| && (v.pc == Ready(i + 1) || (v.pc == Prepared(i) && Requested(v, i))))
            case Prepared(i) => v.pc == Awaiting(i) && v.s.commands == w.s.commands
            case Awaiting(i) => v.pc.Gone? || (v.pc == Ready(i + 1) && !Terminal(w.s.commands[w.steps[i]].state))
            case Gone => v == w
  {
    hide GateOpen, Sends, PointAt, FailSequence, StepSucceeded, Finish, QueryPose, CompleteSequence, IsPoseQuery;
    if !w.pc.Gone? && w.pc.i < |w.steps| {
      var step := w.steps[w.pc.i];
      assert step in w.steps;
      PointAtPlain(Flow(w.s, Clear), w.seqId, step);
      if w.pc.Awaiting? && Terminal(w.s.commands[step].state) {
        StuckFinish(Flow(w.s, Clear), step, env.ros);
        StuckQuery(Flow(w.s, Clear), step, env.pose);
      }
    }
  }

  lemma StaleStage(w: World, env: StepEnv)
    requires Stale(w)
    ensures var v := Advance(w, env); Stale(v) && (StillPoints(v) ==> StillPoints(w))
  {
    hide Sends, Rows, Advance;
    StalePlaces(w, env);
    StageFrame(w, env);
    AdvanceAbsorbed(w, env);
    var v := Advance(w, env);
    if !w.pc.Gone? && w.pc.i < |w.steps| {
      assert w.steps[w.pc.i] in w.steps;
    }
  }

  /** A stage of a thread that turns to no further step. */
  lemma LastStage(w: World, env: StepEnv)
    requires Stale(w) && !StillPoints(w) && Tracked(w.s)
    ensures var v := Advance(w, env); Stale(v) && !StillPoints(v) && Tracked(v.s)
  {
    hide Sends, Rows, Advance, Tracked, Stale, Listed, StillPoints;
    StageFrame(w, env);
    AdvanceAbsorbed(w, env);
    StageCarried(w, env);
    CarriedTracked(w.s, Advance(w, env).s);
    StaleStage(w, env);
  }

  lemma StageCarried(w: World, env: StepEnv)
    requires Stale(w) && !StillPoints(w)
    ensures var v := Advance(w, env);
            Carried(w.s, v.s) && v.s.activeCommand == w.s.activeCommand && v.s.activeSequence == w.s.activeSequence
  {
    hide Sends, Rows, Advance;
    StageFrame(w, env);
    AdvanceAbsorbed(w, env);
  }

  /** Records that are over, the sequence and what the steps belong to are as they were. */
  ghost predicate Spared(w: World, t: Supervisor) {
    forall x | x in w.s.commands ::
      && x in t.commands
      && (Terminal(w.s.commands[x].state) ==>
            Terminal(t.commands[x].state) && t.commands[x].children == w.s.commands[x].children)
      && (x in w.steps ==> t.commands[x].parent == w.s.commands[x].parent)
  }

  lemma SparedStale(w: World, t: Supervisor)
    requires Stale(w) && !StillPoints(w) && Spared(w, t)
    ensures var v := w.(s := t); Stale(v) && !StillPoints(v)
  {
    if !w.pc.Gone? && w.pc.i < |w.steps| {
      assert w.steps[w.pc.i] in w.steps;
    }
  }

  lemma HappeningTracked(w: World, h: Happening)
    requires Tracked(w.s) && !h.Old?
    ensures var v := Happen(w, h); v == w.(s := v.s) && Tracked(v.s)
  {
    hide SingleJob, JobActive, Admit, Grow, PointAt, Rows;
    match h
    case Old(_) =>
    case Admission(kind, caller, mode) =>
      if !JobActive(w.s) {
        AdmissionTracked(w.s, kind, caller, mode);
      }
    case Progress(id, next) =>
      MoveAbsorbed(Flow(w.s, Clear), id, next);
      CarriedTracked(w.s, Move(Flow(w.s, Clear), id, next).s);
    case Turning(id, step) =>
      if RunningSequence(w.s, id) {
        TurningTracked(w.s, id, step);
      }
    case Listing(id, index, intent) =>
      if RunningSequence(w.s, id) {
        ListingTracked(w.s, id, index, intent);
      }
  }

  lemma MapSpares(w: World, t: Supervisor)
    requires forall x | x in w.s.commands :: x in t.commands && t.commands[x] == w.s.commands[x]
    ensures Spared(w, t)
  {
  }

  lemma ProgressSpares(w: World, id: Id, next: State)
    ensures Spared(w, Move(Flow(w.s, Clear), id, next).s)
  {
  }

  /** Only a running sequence's pointer or list of steps changes. */
  lemma RunningSpares(w: World, t: Supervisor, id: Id, r: Record)
    requires RunningSequence(w.s, id) && r.parent == w.s.commands[id].parent
    requires forall x | x in w.s.commands :: x in t.commands && t.commands[x] == if x == id then r else w.s.commands[x]
    ensures Spared(w, t)
  {
  }

  lemma HappeningSpares(w: World, h: Happening)
    requires Numbered(w.s) && !h.Old?
    ensures Spared(w, Happen(w, h).s)
  {
    hide JobActive, Admit, Grow, Spared;
    match h
    case Old(_) =>
    case Admission(kind, caller, mode) =>
      AdmittedRecords(w.s, Blank(kind, caller, mode));
      MapSpares(w, Happen(w, h).s);
    case Progress(id, next) => ProgressSpares(w, id, next);
    case Turning(id, step) =>
      if RunningSequence(w.s, id) {
        var t := Happen(w, h).s;
        RunningSpares(w, t, id, t.commands[id]);
      } else {
        MapSpares(w, w.s);
      }
    case Listing(id, index, intent) =>
      if RunningSequence(w.s, id) {
        GrownRecords(w.s, id, index, intent);
        RunningSpares(w, Grow(w.s, id, index, intent), id, Grow(w.s, id, index, intent).commands[id]);
      } else {
        MapSpares(w, w.s);
      }
  }

  lemma HappeningKeeps(w: World, h: Happening)
    requires Stale(w) && !StillPoints(w) && Tracked(w.s)
    ensures var v := Happen(w, h); Stale(v) && !StillPoints(v) && Tracked(v.s)
  {
    hide Sends, Rows, Advance, Stale, StillPoints, Tracked, Spared, Happen;
    if h.Old? {
      LastStage(w, h.env);
      assert Happen(w, h) == Advance(w, h.env) by { OldIsStage(w, h.env); }
    } else {
      HappeningTracked(w, h);
      assert Numbered(w.s) by { TrackedNumbers(w.s); }
      HappeningSpares(w, h);
      SparedStale(w, Happen(w, h).s);
    }
  }

  lemma TrackedNumbers(s: Supervisor)
    requires Tracked(s)
    ensures Numbered(s)
  {
  }

  lemma OldIsStage(w: World, env: StepEnv)
    ensures Happen(w, Old(env)) == Advance(w, env)
  {
  }

  lemma {:induction false} SingleJobSurvives(w: World, hs: seq<Happening>)
    requires Stale(w) && !StillPoints(w) && Tracked(w.s)
    ensures AtMostOneJob(Unfold(w, hs).s)
    decreases |hs|
  {
    hide Stale, Tracked, Happen, AtMostOneJob, StillPoints;
    if hs == [] {
      TrackedIsOne(w.s);
    } else {
      HappeningKeeps(w, hs[0]);
      SingleJobSurvives(Happen(w, hs[0]), hs[1..]);
    }
  }

  /** A stage that turns to a step leaves the other records and no job in sight. */
  lemma PointsAway(w: World, env: StepEnv)
    requires Listed(w) && w.pc.Ready? && w.pc.i < |w.steps| && w.s.activeSequence.None?
    requires w.s.commands[w.steps[w.pc.i]].parent.Some?
    ensures var v := Advance(w, env);
            && !JobActive(v.s) && v.s.nextId == w.s.nextId && v.s.commands.Keys == w.s.commands.Keys
            && forall x | x in w.s.commands && x != w.seqId && x !in w.steps :: v.s.commands[x] == w.s.commands[x]
  {
    hide Sends, Rows, Advance;
    assert w.steps[w.pc.i] in w.steps;
    StageFrame(w, env);
    AdvanceAbsorbed(w, env);
  }

  /** Before a step: the old thread's pointer hides a new command from the single-job check. */
  lemma PointerHides(w: World, caller: Caller, mode: Mode, env: StepEnv)
    requires Stale(w) && w.pc.Ready? && w.pc.i < |w.steps| && Numbered(w.s) && !JobActive(w.s)
    ensures var c := Admission(Command, caller, mode);
            !AtMostOneJob(Unfold(w, [c, Old(env), c]).s)
  {
    hide Sends, Rows, Advance, JobActive, AtMostOneJob, Unfold;
    var blank := Blank(Command, caller, mode);
    var c := Admission(Command, caller, mode);
    assert w.steps[w.pc.i] in w.steps;
    var v := Happen(w, c);
    AdmittedRecords(w.s, blank);
    PointsAway(v, env);
    var x := Happen(v, Old(env));
    AdmittedRecords(x.s, blank);
    ThreeHappenings(w, c, Old(env), c);
    TwoJobs(Happen(x, c).s, w.s.nextId, x.s.nextId);
  }

  lemma TwoJobs(s: Supervisor, a: Id, b: Id)
    requires a != b && a in s.commands && b in s.commands
    requires s.commands[a].parent.None? && !Terminal(s.commands[a].state)
    requires s.commands[b].parent.None? && !Terminal(s.commands[b].state)
    ensures !AtMostOneJob(s)
  {
  }

  lemma ThreeHappenings(w: World, a: Happening, b: Happening, c: Happening)
    ensures Unfold(w, [a, b, c]) == Happen(Happen(Happen(w, a), b), c)
  {
    hide Happen;
    var v := Happen(w, a);
    var x := Happen(v, b);
    assert [a, b, c][1..] == [b, c] && [b, c][1..] == [c];
    assert Unfold(x, [c]) == Happen(x, c);
    assert Unfold(v, [b, c]) == Unfold(x, [c]);
  }

  /** A step in flight that succeeds brings the thread before the next one. */
  lemma Approaches(w: World, env: StepEnv)
    requires Stale(w) && (w.pc.Prepared? || w.pc.Awaiting?) && w.pc.i + 1 < |w.steps| && Requested(w, w.pc.i)
    requires Numbered(w.s) && !JobActive(w.s)
    requires env.ros == RosReturns(StatusSucceeded, true) && env.pose == PoseKnown
    ensures var v := Advance(w, env);
            && Stale(v) && Numbered(v.s) && !JobActive(v.s) && v.steps == w.steps
            && v.pc == (if w.pc.Prepared? then Awaiting(w.pc.i) else Ready(w.pc.i + 1))
            && (v.pc.Awaiting? ==> Requested(v, v.pc.i))
  {
    hide Sends, Rows, Advance;
    StaleStage(w, env);
    StalePlaces(w, env);
    StageFrame(w, env);
    AdvanceAbsorbed(w, env);
    if w.pc.Awaiting? {
      AwaitingSucceeds(w, env);
    }
  }

  lemma {:induction false} SingleJobBreaks(w: World) returns (hs: seq<Happening>)
    requires Stale(w) && StillPoints(w) && Numbered(w.s) && !JobActive(w.s)
    requires w.pc.Prepared? || w.pc.Awaiting? ==> Requested(w, w.pc.i) || Terminal(w.s.commands[w.steps[w.pc.i]].state)
    ensures !AtMostOneJob(Unfold(w, hs).s)
    decreases if w.pc.Prepared? then 2 else if w.pc.Awaiting? then 1 else 0
  {
    hide Sends, Rows, Advance, JobActive, AtMostOneJob, Stale, Happen;
    var env := StepEnv(Runtime(Sim, Normal), Sensors([], Preflight(true, [])), RosReturns(StatusSucceeded, true), PoseKnown);
    if w.pc.Ready? {
      var caller := Caller([], [], None);
      PointerHides(w, caller, Sim, env);
      hs := [Admission(Command, caller, Sim), Old(env), Admission(Command, caller, Sim)];
    } else {
      Approaches(w, env);
      OldIsStage(w, env);
      var rest := SingleJobBreaks(Advance(w, env));
      hs := [Old(env)] + rest;
      assert hs[1..] == rest;
    }
  }

  /** With submissions admitted beside the old thread, at most one job is ever active, whatever
      happens, exactly when that thread will turn to no further step. */
  lemma SingleJobSurvivesExactly(w: World)
    requires Stale(w) && Tracked(w.s) && !JobActive(w.s)
    requires w.pc.Prepared? || w.pc.Awaiting? ==> Requested(w, w.pc.i) || Terminal(w.s.commands[w.steps[w.pc.i]].state)
    ensures (forall hs :: AtMostOneJob(Unfold(w, hs).s)) <==> !StillPoints(w)
  {
    hide Sends, Rows, JobActive, AtMostOneJob, Stale, Unfold, StillPoints;
    if StillPoints(w) {
      TrackedNumbers(w.s);
      var hs := SingleJobBreaks(w);
    } else {
      forall hs ensures AtMostOneJob(Unfold(w, hs).s) {
        SingleJobSurvives(w, hs);
      }
    }
  }

  // ---- the state a cancellation leaves ----

  /** The sequence is the job the supervisor names. */
  ghost predicate IsTheJob(w: World) {
    && Tracked(w.s) && w.s.activeSequence == Some(w.seqId)
    && forall c | c in w.steps && c in w.s.commands :: w.s.commands[c].parent.Some?
  }

  /** The cancel request ends the sequence. */
  predicate Ends(w: World, turn: Turn) {
    && w.seqId in w.s.commands && !Terminal(w.s.commands[w.seqId].state)
    && match turn
       case Stage(_) => false
       case SequenceCancel(ok) => CurrentStepInFlight(w.s, w.seqId) ==> ok
       case CommandCancel(ok) => InFlight(w.s.commands[w.seqId]) ==> ok
  }

  /** Where the thread must not be when the cancellation takes effect: before a step, or, when the
      sequence was cancelled as a command, in a step that has a successor. */
  predicate LeavesPointer(w: World, turn: Turn) {
    match w.pc
    case Ready(i) => i < |w.steps|
    case Prepared(i) => turn.CommandCancel? && i + 1 < |w.steps|
    case Awaiting(i) => turn.CommandCancel? && i + 1 < |w.steps|
    case Gone => false
  }

  lemma CancelEnds(w: World, turn: Turn)
    requires Listed(w) && Ends(w, turn)
    ensures var v := React(w, turn);
            && Listed(v) && v == w.(s := v.s) && Terminal(v.s.commands[w.seqId].state)
            && (turn.SequenceCancel? ==> forall c | c in w.steps :: Terminal(v.s.commands[c].state))
            && (turn.CommandCancel? ==> forall c | c in w.steps :: v.s.commands[c] == w.s.commands[c])
            && v.s.activeCommand == w.s.activeCommand && v.s.activeSequence == w.s.activeSequence
            && Carried(w.s, v.s)
  {
    hide Sends, Rows, Close, CancelSteps, CurrentStepInFlight;
    ListedKept(w, turn);
    CancelFrame(w, turn);
    ReactAbsorbed(w, turn);
    var f := Flow(w.s, Clear);
    if turn.SequenceCancel? {
      var g := CancelSteps(f, w.steps, 0);
      CancelStepsEnds(f, w.steps, 0);
      EveryStateCancels(g.s.commands[w.seqId].state);
      CloseTouches(g, w.seqId, Cancelled);
      assert forall c | c in w.steps :: exists j :: 0 <= j < |w.steps| && w.steps[j] == c;
    } else {
      EveryStateCancels(w.s.commands[w.seqId].state);
      CloseTouches(f, w.seqId, Cancelled);
    }
  }

  lemma CommandJobAlone(s: Supervisor, c: Id)
    requires SingleJob(s) && c in s.commands && s.commands[c].kind == Command
    requires s.commands[c].parent.None? && !Terminal(s.commands[c].state)
    ensures s.activeSequence == None
  {
    assert Named(s, c);
  }

  /** When the sequence the supervisor names is over, the single-job check passes. */
  lemma NamedSequenceOver(s: Supervisor, id: Id)
    requires Tracked(s) && s.activeSequence == Some(id) && id in s.commands && Terminal(s.commands[id].state)
    ensures !JobActive(s)
  {
    hide SingleJob;
    if JobActive(s) {
      CommandJobAlone(s, s.activeCommand.value);
    }
  }

  /** After a cancellation that ended the sequence, new submissions keep to one job at a time in every
      continuation exactly when the cancellation left the thread no step to turn to. */
  lemma CancelKeepsSingleJobExactly(w: World, turn: Turn)
    requires Underway(w) && IsTheJob(w) && Ends(w, turn)
    ensures var v := React(w, turn);
            && !JobActive(v.s)
            && ((forall hs :: AtMostOneJob(Unfold(v, hs).s)) <==> !LeavesPointer(w, turn))
  {
    hide Sends, Rows, React, AtMostOneJob, Unfold, Tracked, CurrentStepInFlight;
    var v := React(w, turn);
    CancelEnds(w, turn);
    CarriedTracked(w.s, v.s);
    NamedSequenceOver(v.s, w.seqId);
    if !w.pc.Gone? && w.pc.i < |w.steps| {
      assert w.steps[w.pc.i] in w.steps;
    }
    SingleJobSurvivesExactly(v);
  }
}
