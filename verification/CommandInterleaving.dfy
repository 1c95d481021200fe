/** The confirmation of a single command, interrupted by cancellations of it: the same three stages
    as a step of a sequence, seen alone. */
module CommandInterleaving {
  import opened Wrappers
  import opened Lifecycle
  import opened SupervisorModel
  import opened SupervisorInvariants
  import opened SupervisorCalls
  import opened Interleaving
  import opened CallEffects

  datatype Place = AtGate | AtBoundary | AtResult | Finished

  /** The supervisor, the command being confirmed, and where its thread stands. */
  datatype Attempt = Attempt(s: Supervisor, id: Id, place: Place)

  predicate IsQuery(w: Attempt) {
    w.id in w.s.commands && IsPoseQuery(w.s.commands[w.id].intent)
  }

  /** One stage of the confirming thread. */
  function Proceed(w: Attempt, env: StepEnv): Attempt {
    var f := Flow(w.s, Clear);
    match w.place
    case AtGate =>
      if w.id !in w.s.commands || !GateOpen(w.s.commands[w.id], env) then w.(place := Finished)
      else
        var g := Prepare(f, w.id);
        w.(s := g.s, place := if g.fault == Clear then AtBoundary else Finished)
    case AtBoundary => w.(s := if IsQuery(w) then w.s else Issue(f, w.id).s, place := AtResult)
    case AtResult => w.(s := (if IsQuery(w) then QueryPose(f, w.id, env.pose) else Finish(f, w.id, env.ros)).s, place := Finished)
    case Finished => w
  }

  predicate CancelTakesEffect(w: Attempt, abortOk: bool) {
    w.id in w.s.commands && !Terminal(w.s.commands[w.id].state) && (InFlight(w.s.commands[w.id]) ==> abortOk)
  }

  /** A cancel request for the command that passed its entry checks. */
  function CancelIt(w: Attempt, abortOk: bool): Attempt {
    if CancelTakesEffect(w, abortOk) then w.(s := Close(Flow(w.s, Clear), w.id, Cancelled).s) else w
  }

  /** It is the write of `cancel_command`, once that call has passed its entry checks. */
  lemma CancelItIsTheCall(s: Supervisor, caller: Caller, clock: Clock, id: Id, abortOk: bool, place: Place)
    requires var o := Enter(s, caller, clock, id);
             o.reply == Accepted && id in o.s.commands && o.s.commands[id].parent == None
    ensures CancelIt(Attempt(Enter(s, caller, clock, id).s, id, place), abortOk)
         == Attempt(CancelCommand(s, caller, clock, id, abortOk).s, id, place)
  {
    hide Enter, Close;
  }

  datatype Beat = Tick(env: StepEnv) | CancelRequest(abortOk: bool)

  function Answer(w: Attempt, m: Beat): Attempt {
    match m
    case Tick(env) => Proceed(w, env)
    case CancelRequest(ok) => CancelIt(w, ok)
  }

  function PlayOut(w: Attempt, moves: seq<Beat>): Attempt
    decreases |moves|
  {
    if moves == [] then w else PlayOut(Answer(w, moves[0]), moves[1..])
  }

  lemma AnswerAbsorbed(w: Attempt, m: Beat)
    ensures Absorbed(w.s, Answer(w, m).s)
  {
    hide Rows, Prepare, Issue, Finish, QueryPose, Close, GateOpen;
    var f := Flow(w.s, Clear);
    AbsorbedRefl(w.s);
    CloseAbsorbed(f, w.id, Cancelled);
    if m.Tick? {
      PrepareAbsorbed(f, w.id);
      IssueAbsorbed(f, w.id);
      QueryPoseAbsorbed(f, w.id, m.env.pose);
      FinishAbsorbed(f, w.id, m.env.ros);
    }
  }

  /** In every interleaving of the confirmation's stages with cancel requests a record that is over
      stays as it is. */
  lemma {:induction false} CommandOverIsOver(w: Attempt, moves: seq<Beat>)
    ensures Absorbed(w.s, PlayOut(w, moves).s)
    decreases |moves|
  {
    hide Rows, Answer, Absorbed;
    if moves == [] {
      AbsorbedRefl(w.s);
    } else {
      var v := Answer(w, moves[0]);
      AnswerAbsorbed(w, moves[0]);
      CommandOverIsOver(v, moves[1..]);
      AbsorbedTrans(w.s, v.s, PlayOut(v, moves[1..]).s);
    }
  }

  /** The one send a cancelled command can still cause. */
  function Leftover(w: Attempt, moves: seq<Beat>): seq<Id> {
    if w.place == AtBoundary && !IsQuery(w) && (exists m | m in moves :: m.Tick?) then [w.id] else []
  }

  ghost predicate Over(w: Attempt) {
    w.id in w.s.commands && Terminal(w.s.commands[w.id].state)
  }

  lemma OverStage(w: Attempt, env: StepEnv)
    requires Over(w) && w.place != AtBoundary
    ensures var v := Proceed(w, env);
            Over(v) && v.id == w.id && v.place != AtBoundary && Still(w.s, v.s)
  {
    hide Prepare, Finish, QueryPose, GateOpen;
    var f := Flow(w.s, Clear);
    StuckPrepare(f, w.id);
    StuckFinish(f, w.id, env.ros);
    StuckQuery(f, w.id, env.pose);
  }

  lemma {:induction false} OverPlay(w: Attempt, moves: seq<Beat>)
    requires Over(w)
    ensures var u := PlayOut(w, moves);
            && u.id == w.id && u.id in u.s.commands && u.s.commands[w.id].state == w.s.commands[w.id].state
            && Sends(u.s.history) == Sends(w.s.history) + Leftover(w, moves)
    decreases |moves|
  {
    hide Sends, Proceed, Close;
    if moves != [] {
      var v := Answer(w, moves[0]);
      assert moves == [moves[0]] + moves[1..];
      if moves[0].Tick? {
        if w.place == AtBoundary {
          HandsOver(w, moves[0].env);
        } else {
          OverStage(w, moves[0].env);
        }
      }
      OverPlay(v, moves[1..]);
    }
  }

  lemma HandsOver(w: Attempt, env: StepEnv)
    requires w.id in w.s.commands && w.place == AtBoundary
    ensures var v := Proceed(w, env);
            && v.id == w.id && v.place == AtResult && v.s.commands == w.s.commands
            && Sends(v.s.history) == Sends(w.s.history) + (if IsQuery(w) then [] else [w.id])
  {
    hide Sends;
    SendsSnoc(w.s.history, SupervisorModel.Sent(w.id));
  }

  /** Once the cancellation of a command has taken effect it is CANCELLED in every continuation, a
      late ROS success included, and it is handed to ROS after that only if the thread had reached
      EXECUTION_REQUESTED without having called the adapter yet. */
  lemma CancelCommandStops(w: Attempt, abortOk: bool, moves: seq<Beat>)
    requires CancelTakesEffect(w, abortOk)
    ensures var v := CancelIt(w, abortOk);
            var u := PlayOut(v, moves);
            && u.id == w.id && w.id in u.s.commands && u.s.commands[w.id].state == Cancelled
            && Sends(u.s.history) == Sends(w.s.history) + Leftover(v, moves)
  {
    hide Sends, PlayOut, Leftover, Close;
    EveryStateCancels(w.s.commands[w.id].state);
    CloseTouches(Flow(w.s, Clear), w.id, Cancelled);
    CloseSends(Flow(w.s, Clear), w.id, Cancelled);
    OverPlay(CancelIt(w, abortOk), moves);
  }

  /** Only `final_state` is not protected: it is written before the transition is checked, so a late
      answer overwrites it exactly when it comes from the adapter, did not reach ROS, and claims an
      end other than cancellation.  A pose query walks to EXECUTING first and never gets that far. */
  lemma FinalStateKeptExactly(w: Attempt, env: StepEnv)
    requires w.place == AtResult && w.id in w.s.commands
    requires w.s.commands[w.id].state == Cancelled && w.s.commands[w.id].finalState == Some(Cancelled)
    ensures var v := Proceed(w, env);
            && w.id in v.s.commands && v.s.commands[w.id].state == Cancelled
            && (v.s.commands[w.id].finalState == Some(Cancelled)
                <==> IsQuery(w) || env.ros.RosRaises? || env.ros.dispatched || env.ros.status == StatusCancelled)
  {
    hide IsQuery;
  }

  // ---- a cancel call that waits for its abort ----

  /** The answer ends the record: it arrives, and claims no success for a request that never reached
      ROS. */
  predicate Lands(r: Record, env: StepEnv) {
    AttemptFinal(r, env).Some? && (IsPoseQuery(r.intent) || Honest(env.ros))
  }

  /** What the confirming thread reads, stage by stage. */
  function Ticks(moves: seq<Beat>): seq<StepEnv>
    decreases |moves|
  {
    if moves == [] then []
    else (if moves[0].Tick? then [moves[0].env] else []) + Ticks(moves[1..])
  }

  /** The result arrives among the moves, or another cancel request takes effect. */
  predicate EndsDuring(w: Attempt, moves: seq<Beat>)
    requires w.id in w.s.commands
  {
    var k := if w.place == AtResult then 0 else 1;
    || CancelRequest(true) in moves
    || (w.place != Finished && k < |Ticks(moves)| && Lands(w.s.commands[w.id], Ticks(moves)[k]))
  }

  ghost predicate Flying(w: Attempt) {
    w.place != AtGate && w.id in w.s.commands && w.s.commands[w.id].state == ExecutionRequested
  }

  lemma FlyingResult(w: Attempt, env: StepEnv)
    requires Flying(w) && w.place == AtResult
    ensures var v := Proceed(w, env);
            && w.id in v.s.commands && v.id == w.id && v.place == Finished
            && if Lands(w.s.commands[w.id], env) then Terminal(v.s.commands[w.id].state) else Flying(v)
  {
    hide AttemptFinal, IsPoseQuery;
    if IsQuery(w) {
      QueryLands(Flow(w.s, Clear), w.id, env);
    } else {
      ResultLands(Flow(w.s, Clear), w.id, env);
    }
  }

  lemma QueryLands(f: Flow, id: Id, env: StepEnv)
    requires f.fault == Clear && id in f.s.commands && f.s.commands[id].state == ExecutionRequested
    requires IsPoseQuery(f.s.commands[id].intent)
    ensures var g := QueryPose(f, id, env.pose);
            && id in g.s.commands
            && if Lands(f.s.commands[id], env) then Terminal(g.s.commands[id].state) else g.s == f.s
  {
  }

  lemma ResultLands(f: Flow, id: Id, env: StepEnv)
    requires f.fault == Clear && id in f.s.commands && f.s.commands[id].state == ExecutionRequested
    requires !IsPoseQuery(f.s.commands[id].intent)
    ensures var g := Finish(f, id, env.ros);
            && id in g.s.commands
            && if Lands(f.s.commands[id], env) then Terminal(g.s.commands[id].state)
               else g.s.commands[id].state == ExecutionRequested
  {
    hide Close, Move, IsPoseQuery;
    if env.ros.RosReturns? {
      var m := Move(f, id, Executing);
      var d := SetFinal(m, id, None);
      var final := FinalOf(env.ros.status);
      MoveTouches(f, id, Executing);
      var g := if env.ros.dispatched then d else if env.ros.status == StatusCancelled then m else f;
      assert Finish(f, id, env.ros) == Close(g, id, final);
      CloseWrites(g, id, final);
    }
  }

  lemma FlyingCancel(w: Attempt)
    requires Flying(w)
    ensures var v := CancelIt(w, true); w.id in v.s.commands && v.id == w.id && Terminal(v.s.commands[w.id].state)
  {
  }

  /** One move on a command in flight: it is over, or in flight as before. */
  lemma NextMove(w: Attempt, m: Beat)
    requires Flying(w)
    ensures var v := Answer(w, m);
            && v.id == w.id && w.id in v.s.commands
            && (if m == CancelRequest(true) || (m.Tick? && w.place == AtResult && Lands(w.s.commands[w.id], m.env))
                then Terminal(v.s.commands[w.id].state) else Flying(v))
            && v.s.commands[w.id].intent == w.s.commands[w.id].intent
            && v.place == if m.CancelRequest? then w.place else if w.place == AtBoundary then AtResult else Finished
  {
    hide Rows, Proceed, Lands;
    AnswerAbsorbed(w, m);
    if m == CancelRequest(true) {
      FlyingCancel(w);
    } else if m.Tick? && w.place == AtResult {
      FlyingResult(w, m.env);
    } else if m.Tick? && w.place == AtBoundary {
      HandsOver(w, m.env);
    } else {
      assert Answer(w, m) == w by { FinishedStays(w, m); }
    }
  }

  /** Reading the condition one move later. */
  lemma EndsLater(w: Attempt, v: Attempt, moves: seq<Beat>)
    requires moves != [] && w.id in w.s.commands && v.id == w.id && w.id in v.s.commands
    requires v.s.commands[w.id].intent == w.s.commands[w.id].intent && w.place != AtGate
    requires v.place == if moves[0].CancelRequest? then w.place else if w.place == AtBoundary then AtResult else Finished
    ensures EndsDuring(w, moves) <==>
            || moves[0] == CancelRequest(true)
            || (moves[0].Tick? && w.place == AtResult && Lands(w.s.commands[w.id], moves[0].env))
            || EndsDuring(v, moves[1..])
  {
    hide Lands;
    assert moves == [moves[0]] + moves[1..];
    forall env: StepEnv ensures Lands(v.s.commands[w.id], env) == Lands(w.s.commands[w.id], env) {
      LandsSame(v.s.commands[w.id], w.s.commands[w.id], env);
    }
  }

  lemma LandsSame(a: Record, b: Record, env: StepEnv)
    requires a.intent == b.intent
    ensures Lands(a, env) == Lands(b, env)
  {
  }

  lemma FinishedStays(w: Attempt, m: Beat)
    requires Flying(w) && m != CancelRequest(true) && (m.Tick? ==> w.place == Finished)
    ensures Answer(w, m) == w
  {
  }

  lemma {:induction false} SameAttempt(w: Attempt, moves: seq<Beat>)
    ensures PlayOut(w, moves).id == w.id
    decreases |moves|
  {
    hide Prepare, Issue, Finish, QueryPose, Close, GateOpen;
    if moves != [] {
      SameAttempt(Answer(w, moves[0]), moves[1..]);
    }
  }

  lemma {:induction false} EndsDuringExactly(w: Attempt, moves: seq<Beat>)
    requires Flying(w)
    ensures var v := PlayOut(w, moves);
            && v.id == w.id && w.id in v.s.commands
            && (if EndsDuring(w, moves) then Terminal(v.s.commands[w.id].state)
                else v.s.commands[w.id].state == ExecutionRequested)
    decreases |moves|
  {
    hide Rows, Proceed, CancelIt, Lands;
    if moves != [] {
      var v := Answer(w, moves[0]);
      assert moves == [moves[0]] + moves[1..];
      NextMove(w, moves[0]);
      EndsLater(w, v, moves);
      if Flying(v) {
        EndsDuringExactly(v, moves[1..]);
      } else {
        CommandOverIsOver(v, moves[1..]);
        SameAttempt(v, moves[1..]);
      }
    }
  }

  /** A cancel call on a command in flight first waits for its abort and writes only then.  Its write
      raises exactly when the confirming thread's result lands during that wait or another cancel
      request gets ahead of it; the record then keeps its state while its final state says CANCELLED.
      Otherwise the command is cancelled. */
  lemma DelayedCancelRaisesExactly(w: Attempt, during: seq<Beat>)
    requires Flying(w)
    ensures var v := PlayOut(w, during);
            var g := Close(Flow(v.s, Clear), w.id, Cancelled);
            && w.id in v.s.commands && w.id in g.s.commands
            && g.fault == (if EndsDuring(w, during) then InvalidTransition else Clear)
            && g.s.commands[w.id].finalState == Some(Cancelled)
            && (g.s.commands[w.id].state == if EndsDuring(w, during) then v.s.commands[w.id].state else Cancelled)
            && (EndsDuring(w, during) ==> Terminal(v.s.commands[w.id].state))
  {
    hide EndsDuring, PlayOut;
    EndsDuringExactly(w, during);
  }

  /** Three undisturbed stages are the atomic confirmation. */
  lemma UndisturbedIsAtomic(w: Attempt, env: StepEnv)
    requires w.place == AtGate && w.id in w.s.commands
    ensures Proceed(Proceed(Proceed(w, env), env), env)
         == w.(s := ConfirmInternal(Flow(w.s, Clear), w.id, env).s, place := Finished)
  {
    hide Finish, QueryPose, GateOpen, Prepare, IsPoseQuery, Rows;
    var a := Proceed(w, env);
    var b := Proceed(a, env);
    var g := Prepare(Flow(w.s, Clear), w.id);
    PrepareAbsorbed(Flow(w.s, Clear), w.id);
    if GateOpen(w.s.commands[w.id], env) && g.fault == Clear {
      assert Flow(a.s, Clear) == g;
      assert Flow(b.s, Clear) == if IsPoseQuery(g.s.commands[w.id].intent) then g else Issue(g, w.id);
    }
  }
}
