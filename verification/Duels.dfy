/** Two requests confirm the same command at once.  Both have passed their entry checks; each then reads
    its gate and walks the record on, and any turn of the one can fall between two turns of the other. */
module Duels {
  import opened Wrappers
  import opened Lifecycle
  import opened SupervisorModel
  import opened SupervisorInvariants
  import opened SupervisorCalls
  import opened CallEffects
  import opened Interleaving

  /** Where a confirming request stands: before its gate, turned away by it, past it, refused by the
      transition to CONFIRMED, or walking the record on to its end. */
  datatype Spot = AtGate | TurnedAway | Past | Barred | AtConfirmed | AtBoundary | AtResult | Ended

  datatype Duel = Duel(s: Supervisor, id: Id, one: Spot, two: Spot)

  /** The next stage of a request at the given spot. */
  function Walk(s: Supervisor, id: Id, spot: Spot, env: StepEnv): (Supervisor, Spot) {
    var f := Flow(s, Clear);
    if id !in s.commands then (s, Ended)
    else
      match spot
      case AtGate => (s, if GateOpen(s.commands[id], env) then Past else TurnedAway)
      case Past =>
        var g := Move(f, id, Confirmed);
        (g.s, if g.fault == Clear then AtConfirmed else Barred)
      case AtConfirmed =>
        var g := Move(f, id, ExecutionRequested);
        (g.s, if g.fault == Clear then AtBoundary else Ended)
      case AtBoundary => (if IsPoseQuery(s.commands[id].intent) then s else Issue(f, id).s, AtResult)
      case AtResult =>
        ((if IsPoseQuery(s.commands[id].intent) then QueryPose(f, id, env.pose) else Finish(f, id, env.ros)).s, Ended)
      case _ => (s, spot)
  }

  datatype Stroke = Stroke(first: bool, env: StepEnv)

  function Strike(d: Duel, t: Stroke): Duel {
    var (s, spot) := Walk(d.s, d.id, if t.first then d.one else d.two, t.env);
    if t.first then d.(s := s, one := spot) else d.(s := s, two := spot)
  }

  function Fight(d: Duel, strokes: seq<Stroke>): Duel
    decreases |strokes|
  {
    if strokes == [] then d else Fight(Strike(d, strokes[0]), strokes[1..])
  }

  /** The request has walked the record to CONFIRMED or beyond. */
  predicate Walked(spot: Spot) {
    spot == AtConfirmed || spot == AtBoundary || spot == AtResult || spot == Ended
  }

  /** The request has tried to. */
  predicate Tried(spot: Spot) {
    Walked(spot) || spot == Barred
  }

  predicate HandedOver(spot: Spot) {
    spot == AtResult || spot == Ended
  }

  /** The record's state fits the request that walks it. */
  predicate Fits(r: Record, spot: Spot) {
    match spot
    case AtConfirmed => r.state == Confirmed
    case AtBoundary => r.state == ExecutionRequested
    case AtResult => r.state == ExecutionRequested
    case _ => r.state !in {NeedsConfirmation, Validating}
  }

  /** What every duel over a command that waited keeps; `intent` and `sent` are as they were before. */
  ghost predicate Fair(d: Duel, intent: Option<Intent>, sent: seq<Id>) {
    && d.id in d.s.commands && d.s.commands[d.id].intent == intent
    && !(Walked(d.one) && Walked(d.two))
    && (d.one == Barred ==> Walked(d.two)) && (d.two == Barred ==> Walked(d.one))
    && (if Walked(d.one) then Fits(d.s.commands[d.id], d.one)
        else if Walked(d.two) then Fits(d.s.commands[d.id], d.two)
        else d.s.commands[d.id].state == NeedsConfirmation)
    && Sends(d.s.history) == sent + if !IsPoseQuery(intent) && (HandedOver(d.one) || HandedOver(d.two)) then [d.id] else []
  }

  lemma QueryLeaves(f: Flow, id: Id, pose: PoseReply)
    requires f.fault == Clear && id in f.s.commands && f.s.commands[id].state == ExecutionRequested
    ensures var g := QueryPose(f, id, pose).s;
            && id in g.commands && g.commands[id].intent == f.s.commands[id].intent
            && g.commands[id].state !in {NeedsConfirmation, Validating} && Sends(g.history) == Sends(f.s.history)
  {
    hide Sends, Close, Move;
    if pose != PoseRaises {
      MoveTouches(f, id, Executing);
      MoveKeepsSends(f, id, Executing);
      var m := Move(f, id, Executing);
      CloseTouches(m, id, PoseFinal(pose));
      CloseSends(m, id, PoseFinal(pose));
    }
  }

  lemma FinishLeaves(f: Flow, id: Id, ros: RosResult)
    requires f.fault == Clear && id in f.s.commands && f.s.commands[id].state == ExecutionRequested
    ensures var g := Finish(f, id, ros).s;
            && id in g.commands && g.commands[id].intent == f.s.commands[id].intent
            && g.commands[id].state !in {NeedsConfirmation, Validating} && Sends(g.history) == Sends(f.s.history)
  {
    hide Sends, Close, Move;
    if ros.RosReturns? {
      var m := Move(f, id, Executing);
      var d := SetFinal(m, id, None);
      var final := FinalOf(ros.status);
      MoveTouches(f, id, Executing);
      MoveKeepsSends(f, id, Executing);
      var g := if ros.dispatched then d else if ros.status == StatusCancelled then m else f;
      assert Finish(f, id, ros) == Close(g, id, final);
      FinishAbsorbed(f, id, ros);
      CloseWrites(g, id, final);
      CloseSends(g, id, final);
    }
  }

  lemma MoveKeepsSends(f: Flow, id: Id, next: State)
    ensures Sends(Move(f, id, next).s.history) == Sends(f.s.history)
  {
    hide Sends;
    if Legal(f, id, next) {
      SendsSnoc(f.s.history, Audit(id, Row(Some(f.s.commands[id].state), next)));
    }
  }

  lemma StrikeFair(d: Duel, t: Stroke, intent: Option<Intent>, sent: seq<Id>)
    requires Fair(d, intent, sent)
    ensures Fair(Strike(d, t), intent, sent)
  {
    hide Sends, GateOpen, IsPoseQuery, Finish, QueryPose;
    var f := Flow(d.s, Clear);
    match if t.first then d.one else d.two
    case Past => MoveKeepsSends(f, d.id, Confirmed);
    case AtConfirmed => MoveKeepsSends(f, d.id, ExecutionRequested);
    case AtBoundary => SendsSnoc(d.s.history, Sent(d.id));
    case AtResult =>
      QueryLeaves(f, d.id, t.env.pose);
      FinishLeaves(f, d.id, t.env.ros);
    case _ =>
  }

  lemma {:induction false} FightFair(d: Duel, strokes: seq<Stroke>, intent: Option<Intent>, sent: seq<Id>)
    requires Fair(d, intent, sent)
    ensures Fair(Fight(d, strokes), intent, sent) && Fight(d, strokes).id == d.id
    decreases |strokes|
  {
    hide Fair, Walk;
    if strokes != [] {
      StrikeFair(d, strokes[0], intent, sent);
      FightFair(Strike(d, strokes[0]), strokes[1..], intent, sent);
    }
  }

  /** In every interleaving of the two requests at most one walks the waiting command on, and it alone
      hands it over, once.  The other is refused, with the invalid-transition error, exactly when its gate
      lets it try after that. */
  lemma AtMostOneHandsOver(s: Supervisor, id: Id, strokes: seq<Stroke>)
    requires Waiting(s, id)
    ensures var u := Fight(Duel(s, id, AtGate, AtGate), strokes);
            && !(Walked(u.one) && Walked(u.two))
            && Sends(u.s.history) == Sends(s.history)
                 + (if !IsPoseQuery(s.commands[id].intent) && (HandedOver(u.one) || HandedOver(u.two)) then [id] else [])
            && (u.one == Barred <==> Tried(u.one) && Walked(u.two))
            && (u.two == Barred <==> Tried(u.two) && Walked(u.one))
  {
    hide Fight, Sends;
    FightFair(Duel(s, id, AtGate, AtGate), strokes, s.commands[id].intent, Sends(s.history));
  }

  /** The first to try walks the record on; who tries after it is refused and changes nothing. */
  lemma FirstToTryWalks(s: Supervisor, id: Id, strokes: seq<Stroke>, t: Stroke)
    requires Waiting(s, id)
    requires var u := Fight(Duel(s, id, AtGate, AtGate), strokes); (if t.first then u.one else u.two) == Past
    ensures var u := Fight(Duel(s, id, AtGate, AtGate), strokes);
            var v := Strike(u, t);
            var mine, other := if t.first then v.one else v.two, if t.first then u.two else u.one;
            && (mine == AtConfirmed <==> !Walked(other))
            && (mine == Barred <==> Walked(other))
            && (Walked(other) ==> v.s == u.s)
  {
    hide Fight, Sends;
    FightFair(Duel(s, id, AtGate, AtGate), strokes, s.commands[id].intent, Sends(s.history));
  }

  lemma FiveStrokes(d: Duel, t: Stroke)
    ensures Fight(d, [t, t, t, t, t]) == Strike(Strike(Strike(Strike(Strike(d, t), t), t), t), t)
  {
    hide Strike;
    var a := Strike(d, t);
    var b := Strike(a, t);
    var c := Strike(b, t);
    var e := Strike(c, t);
    assert [t, t, t, t, t][1..] == [t, t, t, t] && [t, t, t, t][1..] == [t, t, t];
    assert [t, t, t][1..] == [t, t] && [t, t][1..] == [t] && [t][1..] == [];
    assert Fight(d, [t, t, t, t, t]) == Fight(a, [t, t, t, t]);
    assert Fight(a, [t, t, t, t]) == Fight(b, [t, t, t]);
    assert Fight(b, [t, t, t]) == Fight(c, [t, t]);
    assert Fight(c, [t, t]) == Fight(e, [t]);
    assert Fight(e, [t]) == Strike(e, t);
  }

  /** Past its gate, in two strokes, a request alone has prepared the record. */
  lemma TwoStrokesPrepare(d: Duel, t: Stroke)
    requires t.first && d.one == Past && Waiting(d.s, d.id)
    ensures Strike(Strike(d, t), t) == d.(s := Prepare(Flow(d.s, Clear), d.id).s, one := AtBoundary)
    ensures Prepare(Flow(d.s, Clear), d.id).fault == Clear
  {
    hide Move;
    var f := Flow(d.s, Clear);
    MoveTouches(f, d.id, Confirmed);
    MoveTouches(Move(f, d.id, Confirmed), d.id, ExecutionRequested);
    assert Move(f, d.id, Confirmed) == Flow(Move(f, d.id, Confirmed).s, Clear);
  }

  /** One request alone, in five strokes, is the atomic attempt. */
  lemma AloneIsTheAttempt(s: Supervisor, id: Id, env: StepEnv)
    requires Waiting(s, id)
    ensures var t := Stroke(true, env);
            Fight(Duel(s, id, AtGate, AtGate), [t, t, t, t, t]).s == ConfirmInternal(Flow(s, Clear), id, env).s
  {
    hide GateOpen, IsPoseQuery, Finish, QueryPose, Rows, Prepare, Move, Fight;
    var t := Stroke(true, env);
    var d := Duel(s, id, AtGate, AtGate);
    FiveStrokes(d, t);
    if GateOpen(s.commands[id], env) {
      var a := Strike(d, t);
      TwoStrokesPrepare(a, t);
      var p := Prepare(Flow(s, Clear), id);
      PrepareAbsorbed(Flow(s, Clear), id);
      assert Flow(p.s, Clear) == p;
      HandedAndEnded(a.(s := p.s, one := AtBoundary), t);
    } else {
      TurnedAwayStays(d, t);
    }
  }

  lemma HandedAndEnded(d: Duel, t: Stroke)
    requires t.first && d.one == AtBoundary && d.id in d.s.commands
    ensures var f := Flow(d.s, Clear);
            Strike(Strike(d, t), t).s ==
              if IsPoseQuery(d.s.commands[d.id].intent) then QueryPose(f, d.id, t.env.pose).s
              else Finish(Issue(f, d.id), d.id, t.env.ros).s
  {
    hide IsPoseQuery, Finish, QueryPose;
  }

  lemma TurnedAwayStays(d: Duel, t: Stroke)
    requires t.first && d.one == AtGate && d.id in d.s.commands && !GateOpen(d.s.commands[d.id], t.env)
    ensures Strike(Strike(Strike(Strike(Strike(d, t), t), t), t), t).s == d.s
  {
    hide GateOpen, IsPoseQuery, Finish, QueryPose, Move;
    var a := Strike(d, t);
    assert a == d.(one := TurnedAway);
    assert Strike(a, t) == a;
  }
}
