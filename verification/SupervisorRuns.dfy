/** Whole runs of the supervisor: any sequence of calls, in any order, with any answers from the
    clock, the sensors, the router and an honest adapter. */
module SupervisorRuns {
  import opened Wrappers
  import opened Lifecycle
  import opened Validation
  import opened SupervisorModel
  import opened SupervisorInvariants
  import opened SupervisorCalls
  import opened SequenceRuns
  import opened CallEffects
  import opened CallAnswers
  import opened Submissions
  import Lock = SessionLock

  datatype Call =
    | SubmitCall(caller: Caller, clock: Clock, request: Request, submission: SubmitEnv)
    | ConfirmCommandCall(caller: Caller, clock: Clock, id: Id, fingerprint: string, env: StepEnv)
    | ConfirmSequenceCall(caller: Caller, clock: Clock, id: Id, fingerprint: string, steps: nat -> StepEnv)
    | CancelCommandCall(caller: Caller, clock: Clock, id: Id, abortOk: bool)
    | CancelSequenceCall(caller: Caller, clock: Clock, id: Id, abortOk: bool)
    | PollCall(now: int)
    | LeaseCall(event: Lock.Event, canAcquire: bool)

  /** One call. */
  function Step(s: Supervisor, cfg: Config, c: Call): Outcome {
    match c
    case SubmitCall(caller, clock, request, env) => Submit(s, cfg, caller, clock, request, env)
    case ConfirmCommandCall(caller, clock, id, fp, env) => ConfirmCommand(s, caller, clock, id, fp, env)
    case ConfirmSequenceCall(caller, clock, id, fp, env) => ConfirmSequence(s, caller, clock, id, fp, env)
    case CancelCommandCall(caller, clock, id, ok) => CancelCommand(s, caller, clock, id, ok)
    case CancelSequenceCall(caller, clock, id, ok) => CancelSequence(s, caller, clock, id, ok)
    case PollCall(now) =>
      var f := ExpirePending(s, now);
      Outcome(f.s, if f.fault == Clear then Accepted else Crashed(f.fault))
    case LeaseCall(event, canAcquire) =>
      if event.call.AcquireCall? && !canAcquire then Outcome(s, Conflict)
      else
        var (slot, answer) := Lock.Respond(s.lock, event);
        Outcome(s.(lock := slot), if !answer.Refused? then Accepted else if event.call.AcquireCall? then Declined else Forbidden)
  }

  function Run(s: Supervisor, cfg: Config, calls: seq<Call>): Supervisor
    decreases |calls|
  {
    if calls == [] then s else Step(Run(s, cfg, calls[..|calls| - 1]), cfg, calls[|calls| - 1]).s
  }

  /** The adapter keeps its contract in everything the call reads. */
  ghost predicate HonestCall(c: Call) {
    match c
    case SubmitCall(_, _, _, env) => forall j: nat :: Honest(env.autoEnv(j).ros)
    case ConfirmCommandCall(_, _, _, _, env) => Honest(env.ros)
    case ConfirmSequenceCall(_, _, _, _, env) => forall j: nat :: Honest(env(j).ros)
    case _ => true
  }

  /** How a send in this call came about. */
  ghost predicate SentBy(s: Supervisor, cfg: Config, c: Call, id: Id) {
    match c
    case ConfirmCommandCall(caller, clock, target, fp, env) =>
      id == target && Authorised(s, caller, clock, id, fp, Command) && GateOpen(s.commands[id], env)
    case ConfirmSequenceCall(caller, clock, target, fp, env) =>
      Authorised(s, caller, clock, target, fp, Sequence) && StepReached(s, target, env, id)
    case SubmitCall(caller, clock, request, env) =>
      cfg.simAutoConfirm && SubmitMode(env) == Sim && LeaseCheck(s, caller, clock.lease).1
      && !request.hasStructured && AutoSend(s, cfg, caller, clock, env, id)
    case _ => false
  }

  function SubmitMode(env: SubmitEnv): Mode {
    if env.requestedMode.Some? then env.requestedMode.value else env.runtime.mode
  }

  /** The step is listed at a position whose predecessors all succeed and whose own gate opens. */
  ghost predicate StepReached(s: Supervisor, seqId: Id, env: nat -> StepEnv, id: Id) {
    && seqId in s.commands
    && (forall c | c in s.commands[seqId].children :: c in s.commands)
    && exists j: nat | j < |s.commands[seqId].children| ::
         StepReachedAt(s.commands[seqId].children, StepRecords(s, s.commands[seqId].children), j, env, id)
  }

  ghost predicate StepReachedAt(steps: seq<Id>, plan: seq<Record>, j: nat, env: nat -> StepEnv, id: Id)
    requires j < |steps| == |plan|
  {
    && steps[j] == id && GateOpen(plan[j], env(j)) && !IsPoseQuery(plan[j].intent)
    && forall i: nat | i < j :: Succeeds(plan[i], env(i))
  }

  /** The auto-confirmation of a submission: the new command itself behind both gates, or a step
      reached in an authorised confirmation of the sequence just planned. */
  ghost predicate AutoSend(s: Supervisor, cfg: Config, caller: Caller, clock: Clock, env: SubmitEnv, id: Id) {
    match env.resolution
    case Unresolved => false
    case RoutingRaises => false
    case SingleIntent(parsed) =>
      && id == s.nextId && parsed.Some?
      && CommandGate(env.runtime, env.sensors, true, Sim, false)
      && CommandGate(env.autoEnv(0).runtime, env.autoEnv(0).sensors, true, Sim, true)
    case OrderedSteps(intents) =>
      && intents.Some? && JudgedOpen(Sim, |intents.value|, env)
      && var planned := PlannedBy(s, cfg, caller, clock, env, intents);
         && s.nextId in planned.commands && planned.commands[s.nextId].fingerprint.Some?
         && Authorised(planned, caller, env.autoClock, s.nextId, planned.commands[s.nextId].fingerprint.value, Sequence)
         && StepReached(planned, s.nextId, env.autoEnv, id)
  }

  /** The state once the submission has passed the expiry sweep and the lease check. */
  function Entered(s: Supervisor, caller: Caller, clock: Clock): Supervisor {
    LeaseCheck(ExpirePending(s, clock.sweep).s, caller, clock.lease).0
  }

  /** The state in which a submitted sequence is auto-confirmed. */
  function PlannedBy(s: Supervisor, cfg: Config, caller: Caller, clock: Clock, env: SubmitEnv,
                     intents: Option<seq<Intent>>): Supervisor {
    PlanSequence(Entered(s, caller, clock), cfg, caller, Sim, intents, clock.stamp, env).s
  }

  lemma {:induction false} HandedReached(plan: seq<Record>, steps: seq<Id>, i: nat, env: nat -> StepEnv, id: Id)
    requires |plan| == |steps| && i <= |plan| && id in Handed(plan, steps, i, env)
    requires forall m: nat | m < i :: Succeeds(plan[m], env(m))
    ensures exists j: nat | j < |steps| :: StepReachedAt(steps, plan, j, env, id)
    decreases |plan| - i
  {
    hide GateOpen, AttemptFinal, IsPoseQuery;
    if !IsPoseQuery(plan[i].intent) && id == steps[i] {
      assert StepReachedAt(steps, plan, i, env, id);
    } else {
      HandedReached(plan, steps, i + 1, env, id);
    }
  }

  lemma StepsReached(s: Supervisor, seqId: Id, env: nat -> StepEnv, ids: seq<Id>)
    requires seqId in s.commands && (forall c | c in s.commands[seqId].children :: c in s.commands)
    requires ids == Handed(StepRecords(s, s.commands[seqId].children), s.commands[seqId].children, 0, env)
    ensures forall id | id in ids :: StepReached(s, seqId, env, id)
  {
    hide GateOpen, AttemptFinal, IsPoseQuery;
    forall id | id in ids ensures StepReached(s, seqId, env, id) {
      HandedReached(StepRecords(s, s.commands[seqId].children), s.commands[seqId].children, 0, env, id);
    }
  }

  /** The effect of a call on the dispatch log. */
  ghost predicate SendsExplained(s: Supervisor, cfg: Config, c: Call, t: Supervisor) {
    exists sent: seq<Id> :: Sends(t.history) == Sends(s.history) + sent
        && forall id | id in sent :: SentBy(s, cfg, c, id)
  }

  ghost predicate GoodStep(s: Supervisor, cfg: Config, c: Call) {
    var o := Step(s, cfg, c);
    && Inv(o.s) && o.reply != Crashed(InvalidTransition) && o.reply != Crashed(MissingKey)
    && SendsExplained(s, cfg, c, o.s)
  }

  lemma NothingSent(s: Supervisor, cfg: Config, c: Call, t: Supervisor)
    requires Sends(t.history) == Sends(s.history)
    ensures SendsExplained(s, cfg, c, t)
  {
    hide SentBy;
    assert Sends(t.history) == Sends(s.history) + [];
  }

  lemma OneSent(s: Supervisor, cfg: Config, c: Call, t: Supervisor, id: Id)
    requires Sends(t.history) == Sends(s.history) + [id] && SentBy(s, cfg, c, id)
    ensures SendsExplained(s, cfg, c, t)
  {
    hide SentBy, Sends;
  }

  lemma ConfirmCommandGood(s: Supervisor, cfg: Config, c: Call)
    requires Inv(s) && c.ConfirmCommandCall? && HonestCall(c)
    ensures GoodStep(s, cfg, c)
  {
    hide Inv, Sends, GateOpen, Authorised, ConfirmCommand, SendsExplained;
    ConfirmCommandInv(s, c.caller, c.clock, c.id, c.fingerprint, c.env);
    var t := Step(s, cfg, c).s;
    if Sends(t.history) == Sends(s.history) {
      NothingSent(s, cfg, c, t);
    } else {
      OneSent(s, cfg, c, t, c.id);
    }
  }

  lemma ConfirmSequenceGood(s: Supervisor, cfg: Config, c: Call)
    requires Inv(s) && c.ConfirmSequenceCall? && HonestCall(c)
    ensures GoodStep(s, cfg, c)
  {
    hide Inv, Sends, LeaseCheck, ConfirmSequence, StepReached, Handed, MarchSteps, MarchEnd, FirstStop;
    ConfirmSequenceInv(s, c.caller, c.clock, c.id, c.fingerprint, c.steps);
    var t := Step(s, cfg, c).s;
    if Authorised(s, c.caller, c.clock, c.id, c.fingerprint, Sequence) {
      var steps := s.commands[c.id].children;
      StepsReached(s, c.id, c.steps, Handed(StepRecords(s, steps), steps, 0, c.steps));
    } else {
      NothingSent(s, cfg, c, t);
    }
  }

  lemma QuietGood(s: Supervisor, cfg: Config, c: Call)
    requires Inv(s) && (c.CancelCommandCall? || c.CancelSequenceCall? || c.PollCall? || c.LeaseCall?)
    ensures GoodStep(s, cfg, c)
  {
    hide Inv, Sends, CancelCommand, CancelSequence, ExpirePending, SendsExplained;
    match c {
      case CancelCommandCall(caller, clock, id, ok) => CancelCommandInv(s, caller, clock, id, ok);
      case CancelSequenceCall(caller, clock, id, ok) => CancelSequenceInv(s, caller, clock, id, ok);
      case PollCall(now) => SweepInv(s, now);
      case LeaseCall(event, _) => LockInv(s, Lock.Respond(s.lock, event).0);
    }
    NothingSent(s, cfg, c, Step(s, cfg, c).s);
  }

  // ---- submissions ----

  lemma SubmitGates(s: Supervisor, cfg: Config, caller: Caller, clock: Clock, request: Request, env: SubmitEnv)
    requires Inv(s)
    ensures var f := ExpirePending(s, clock.sweep);
            var s1 := LeaseCheck(f.s, caller, clock.lease).0;
            && f.fault == Clear && Inv(f.s) && Inv(s1) && s1.nextId == s.nextId
            && Sends(f.s.history) == Sends(s.history) && Sends(s1.history) == Sends(s.history)
            && LeaseCheck(f.s, caller, clock.lease).1 == LeaseCheck(s, caller, clock.lease).1
            && (!JobActive(s1) ==> NoJob(s1))
  {
    hide Core, Staged, Sends, ExpirePending, JobActive, NoJob;
    SweepInv(s, clock.sweep);
    var f := ExpirePending(s, clock.sweep);
    LockInv(f.s, LeaseCheck(f.s, caller, clock.lease).0.lock);
    IdleMeansNoJob(LeaseCheck(f.s, caller, clock.lease).0);
  }

  lemma SubmitSingleGood(s: Supervisor, s1: Supervisor, cfg: Config, c: Call)
    requires c.SubmitCall? && HonestCall(c) && c.submission.resolution.SingleIntent? && !c.request.hasStructured
    requires Inv(s1) && NoJob(s1) && s1.nextId == s.nextId && Sends(s1.history) == Sends(s.history)
    requires LeaseCheck(s, c.caller, c.clock.lease).1
    ensures var o := SubmitSingle(s1, cfg, c.caller, SubmitMode(c.submission), c.submission.resolution.parsed, c.clock.stamp, c.submission);
            && Inv(o.s) && o.reply != Crashed(InvalidTransition) && o.reply != Crashed(MissingKey)
            && SendsExplained(s, cfg, c, o.s)
  {
    hide Inv, NoJob, Sends, CommandGate, SubmitSingle, LeaseCheck, SendsExplained;
    var env := c.submission;
    var o := SubmitSingle(s1, cfg, c.caller, SubmitMode(env), env.resolution.parsed, c.clock.stamp, env);
    assert Honest(env.autoEnv(0).ros);
    SubmitSingleInv(s1, cfg, c.caller, SubmitMode(env), env.resolution.parsed, c.clock.stamp, env);
    if Sends(o.s.history) == Sends(s1.history) {
      NothingSent(s, cfg, c, o.s);
    } else {
      assert AutoSend(s, cfg, c.caller, c.clock, env, s.nextId);
      OneSent(s, cfg, c, o.s, s.nextId);
    }
  }

  lemma SubmitSequenceGood(s: Supervisor, s1: Supervisor, cfg: Config, c: Call)
    requires c.SubmitCall? && HonestCall(c) && c.submission.resolution.OrderedSteps? && !c.request.hasStructured
    requires Inv(s1) && NoJob(s1) && s1.nextId == s.nextId && Sends(s1.history) == Sends(s.history)
    requires LeaseCheck(s, c.caller, c.clock.lease).1 && s1 == Entered(s, c.caller, c.clock)
    ensures var o := SubmitSequence(s1, cfg, c.caller, SubmitMode(c.submission), c.submission.resolution.steps, c.clock.stamp, c.submission);
            && Inv(o.s) && o.reply != Crashed(InvalidTransition) && o.reply != Crashed(MissingKey)
            && SendsExplained(s, cfg, c, o.s)
  {
    hide Inv, NoJob, Sends, JudgedOpen, SubmitSequence, PlanSequence, LeaseCheck, Authorised, Handed,
         StepReached, Entered;
    var env := c.submission;
    var intents := env.resolution.steps;
    var o := SubmitSequence(s1, cfg, c.caller, SubmitMode(env), intents, c.clock.stamp, env);
    SubmitSequenceInv(s1, cfg, c.caller, SubmitMode(env), intents, c.clock.stamp, env);
    if Sends(o.s.history) == Sends(s1.history) {
      NothingSent(s, cfg, c, o.s);
    } else {
      var planned := PlanSequence(s1, cfg, c.caller, SubmitMode(env), intents, c.clock.stamp, env).s;
      var steps := planned.commands[s.nextId].children;
      var sent := Handed(StepRecords(planned, steps), steps, 0, env.autoEnv);
      StepsReached(planned, s.nextId, env.autoEnv, sent);
      assert planned == PlannedBy(s, cfg, c.caller, c.clock, env, intents);
    }
  }

  lemma SubmitGood(s: Supervisor, cfg: Config, c: Call)
    requires Inv(s) && c.SubmitCall? && HonestCall(c)
    ensures GoodStep(s, cfg, c)
  {
    hide Inv, NoJob, Sends, JobActive, LeaseCheck, ExpirePending, SubmitSingle, SubmitSequence,
         RejectSubmission, SendsExplained, HonestCall;
    var env := c.submission;
    var f := ExpirePending(s, c.clock.sweep);
    var (s1, granted) := LeaseCheck(f.s, c.caller, c.clock.lease);
    SubmitGates(s, cfg, c.caller, c.clock, c.request, env);
    NothingSent(s, cfg, c, f.s);
    NothingSent(s, cfg, c, s1);
    if granted && !JobActive(s1) {
      if c.request.hasStructured || env.resolution == Unresolved {
        RejectSubmissionInv(s1, c.caller, SubmitMode(env));
        NothingSent(s, cfg, c, RejectSubmission(s1, c.caller, SubmitMode(env)).s);
      } else if env.resolution.RoutingRaises? {
      } else if env.resolution.SingleIntent? {
        SubmitSingleGood(s, s1, cfg, c);
      } else {
        SubmitSequenceGood(s, s1, cfg, c);
      }
    }
  }

  lemma StepGood(s: Supervisor, cfg: Config, c: Call)
    requires Inv(s) && HonestCall(c)
    ensures GoodStep(s, cfg, c)
  {
    hide Inv, GoodStep, HonestCall;
    if c.SubmitCall? {
      SubmitGood(s, cfg, c);
    } else if c.ConfirmCommandCall? {
      ConfirmCommandGood(s, cfg, c);
    } else if c.ConfirmSequenceCall? {
      ConfirmSequenceGood(s, cfg, c);
    } else {
      QuietGood(s, cfg, c);
    }
  }

  // ---- runs ----

  ghost predicate HonestRun(calls: seq<Call>) {
    forall c | c in calls :: HonestCall(c)
  }

  lemma InitialInv(ttl: int)
    ensures Inv(Initial(ttl))
  {
  }

  /** The invariant holds after every honest run. */
  lemma {:induction false} RunInv(ttl: int, cfg: Config, calls: seq<Call>)
    requires HonestRun(calls)
    ensures Inv(Run(Initial(ttl), cfg, calls))
    decreases |calls|
  {
    hide Inv, HonestCall, Step;
    InitialInv(ttl);
    if calls != [] {
      var front := calls[..|calls| - 1];
      RunInv(ttl, cfg, front);
      assert calls[|calls| - 1] in calls;
      StepGood(Run(Initial(ttl), cfg, front), cfg, calls[|calls| - 1]);
    }
  }

  /** No call of an honest run raises the invalid-transition error or misses a record. */
  lemma NoInvalidTransition(ttl: int, cfg: Config, calls: seq<Call>, next: Call)
    requires HonestRun(calls) && HonestCall(next)
    ensures var o := Step(Run(Initial(ttl), cfg, calls), cfg, next);
            o.reply != Crashed(InvalidTransition) && o.reply != Crashed(MissingKey)
  {
    hide Inv, HonestCall, Step;
    RunInv(ttl, cfg, calls);
    StepGood(Run(Initial(ttl), cfg, calls), cfg, next);
  }

  /** At most one record without a parent is not over, and the supervisor names it: as the active
      sequence, or as the active command with no active sequence. */
  lemma OneActiveJob(ttl: int, cfg: Config, calls: seq<Call>, a: Id)
    requires HonestRun(calls)
    ensures var s := Run(Initial(ttl), cfg, calls);
            a in s.commands && s.commands[a].parent.None? && !Terminal(s.commands[a].state) ==>
              && (if s.commands[a].kind == Sequence then s.activeSequence == Some(a)
                  else s.activeCommand == Some(a) && s.activeSequence == None)
              && JobActive(s)
              && forall b | b in s.commands && s.commands[b].parent.None? && !Terminal(s.commands[b].state) :: b == a
  {
    hide HonestCall, Step, Sound, Families, Finals, Staged;
    RunInv(ttl, cfg, calls);
    var s := Run(Initial(ttl), cfg, calls);
    if a in s.commands && s.commands[a].parent.None? && !Terminal(s.commands[a].state) {
      assert Named(s, a);
      forall b | b in s.commands && s.commands[b].parent.None? && !Terminal(s.commands[b].state) ensures b == a {
        assert Named(s, b);
      }
    }
  }

  /** Over a run no record is handed to ROS twice. */
  lemma AtMostOnce(ttl: int, cfg: Config, calls: seq<Call>, i: nat, j: nat)
    requires HonestRun(calls)
    requires var h := Run(Initial(ttl), cfg, calls).history; i < j < |h| && h[i].Sent? && h[j].Sent?
    ensures var h := Run(Initial(ttl), cfg, calls).history; h[i].id != h[j].id
  {
    RunInv(ttl, cfg, calls);
    DistinctSends(Run(Initial(ttl), cfg, calls).history, i, j);
  }

  lemma {:induction false} DistinctSends(h: seq<Event>, i: nat, j: nat)
    requires Distinct(Sends(h)) && i < j < |h| && h[i].Sent? && h[j].Sent?
    ensures h[i].id != h[j].id
    decreases |h|
  {
    var front := h[..|h| - 1];
    assert h == front + [h[|h| - 1]];
    SendsSnoc(front, h[|h| - 1]);
    if j == |h| - 1 {
      SendIsListed(front, i);
      var a :| 0 <= a < |Sends(front)| && Sends(front)[a] == h[i].id;
      assert Sends(h)[a] == h[i].id && Sends(h)[|Sends(front)|] == h[j].id;
    } else {
      assert forall a, b | 0 <= a < b < |Sends(front)| :: Sends(front)[a] == Sends(h)[a] && Sends(front)[b] == Sends(h)[b];
      DistinctSends(front, i, j);
    }
  }

  /** No step is handed to ROS once its sequence has been audited terminal. */
  lemma NoSendAfterSequenceOver(ttl: int, cfg: Config, calls: seq<Call>, i: nat, j: nat)
    requires HonestRun(calls)
    requires var h := Run(Initial(ttl), cfg, calls).history;
             i < j < |h| && h[i].Audit? && Terminal(h[i].row.to) && h[j].Sent?
    ensures var s := Run(Initial(ttl), cfg, calls);
            s.history[j].id in s.commands && s.commands[s.history[j].id].parent != Some(s.history[i].id)
  {
    RunInv(ttl, cfg, calls);
    var s := Run(Initial(ttl), cfg, calls);
    assert Before(s.history, j, s.commands[s.history[j].id].parent);
  }

  /** The audit rows of every record are a path of at most eight rows with rising rank that ends in
      its current state, and its final state agrees with it. */
  lemma AuditTellsTheTruth(ttl: int, cfg: Config, calls: seq<Call>, id: Id)
    requires HonestRun(calls) && id in Run(Initial(ttl), cfg, calls).commands
    ensures var s := Run(Initial(ttl), cfg, calls);
            var rows := Rows(s.history, id);
            && Contiguous(rows) && |rows| <= 8 && rows[|rows| - 1].to == s.commands[id].state
            && (forall i, j | 0 <= i < j < |rows| :: Rank(rows[i].to) < Rank(rows[j].to))
            && Finalised(s.commands[id])
  {
    hide HonestCall, Step, Families, SingleJob, Staged;
    RunInv(ttl, cfg, calls);
    PathShape(Rows(Run(Initial(ttl), cfg, calls).history, id));
  }

  /** The k-th call hands the record to ROS, which no call before it did. */
  ghost predicate SentInCall(ttl: int, cfg: Config, calls: seq<Call>, k: nat, id: Id)
    requires k < |calls|
  {
    && id !in Sends(Run(Initial(ttl), cfg, calls[..k]).history)
    && id in Sends(Run(Initial(ttl), cfg, calls[..k + 1]).history)
  }

  lemma NothingSentYet(ttl: int, cfg: Config)
    ensures Sends(Run(Initial(ttl), cfg, []).history) == []
  {
  }

  /** The k-th call hands the record to ROS and was entitled to it. */
  ghost predicate EntitledAt(ttl: int, cfg: Config, calls: seq<Call>, k: nat, id: Id)
    requires k < |calls|
  {
    SentInCall(ttl, cfg, calls, k, id) && SentBy(Run(Initial(ttl), cfg, calls[..k]), cfg, calls[k], id)
  }

  lemma EntitledLater(ttl: int, cfg: Config, calls: seq<Call>, k: nat, id: Id)
    requires k + 1 < |calls| && EntitledAt(ttl, cfg, calls[..|calls| - 1], k, id)
    ensures EntitledAt(ttl, cfg, calls, k, id)
  {
    hide Run, Sends, SentBy;
    var front := calls[..|calls| - 1];
    assert front[..k] == calls[..k] && front[..k + 1] == calls[..k + 1];
  }

  lemma EntitledLast(ttl: int, cfg: Config, calls: seq<Call>, id: Id)
    requires HonestRun(calls) && calls != []
    requires id in Sends(Run(Initial(ttl), cfg, calls).history)
    requires id !in Sends(Run(Initial(ttl), cfg, calls[..|calls| - 1]).history)
    ensures EntitledAt(ttl, cfg, calls, |calls| - 1, id)
  {
    hide Inv, HonestCall, Step, SentBy, Sends;
    var n := |calls| - 1;
    assert calls[n] in calls;
    assert calls[..n + 1] == calls;
    RunInv(ttl, cfg, calls[..n]);
    StepGood(Run(Initial(ttl), cfg, calls[..n]), cfg, calls[n]);
  }

  /** Every send of a run happened in a call that was entitled to it. */
  lemma {:induction false} EverySendEntitled(ttl: int, cfg: Config, calls: seq<Call>, id: Id)
    requires HonestRun(calls) && id in Sends(Run(Initial(ttl), cfg, calls).history)
    ensures exists k | 0 <= k < |calls| :: EntitledAt(ttl, cfg, calls, k, id)
    decreases |calls|
  {
    hide HonestCall, Run, EntitledAt, SentBy, SentInCall, Sends;
    if calls == [] {
      NothingSentYet(ttl, cfg);
    } else {
      var n := |calls| - 1;
      if id in Sends(Run(Initial(ttl), cfg, calls[..n]).history) {
        EverySendEntitled(ttl, cfg, calls[..n], id);
        var k :| 0 <= k < n && EntitledAt(ttl, cfg, calls[..n], k, id);
        EntitledLater(ttl, cfg, calls, k, id);
      } else {
        EntitledLast(ttl, cfg, calls, id);
      }
    }
  }

  // ---- the calls that touch no job ----

  /** A poll sweeps, and only that. */
  lemma PollAnswers(s: Supervisor, cfg: Config, now: int)
    requires Inv(s)
    ensures var o := Step(s, cfg, PollCall(now));
            && o.reply == Accepted && SweptTo(s, o.s, now) && o.s.lock == s.lock && o.s.nextId == s.nextId
            && o.s.activeCommand == s.activeCommand && o.s.activeSequence == s.activeSequence
  {
    hide Inv, ExpirePending, SweptTo;
    SweepsExactly(s, now);
  }

  /** A lease call writes the lock alone.  An acquire is a conflict while acquiring is switched off; else a
      call is granted exactly when the lease in time, or its absence, allows it, a refused acquire is
      declined, and every other refusal is forbidden. */
  lemma LeaseCallAnswers(s: Supervisor, cfg: Config, event: Lock.Event, canAcquire: bool)
    ensures var o := Step(s, cfg, LeaseCall(event, canAcquire));
            var inTime := s.lock.active.Some? && event.now < s.lock.active.value.expiresAt;
            && o.s == s.(lock := o.s.lock)
            && (o.reply == Conflict <==> event.call.AcquireCall? && !canAcquire)
            && (o.reply == Conflict ==> o.s == s)
            && (o.reply == Declined ==> event.call.AcquireCall?) && (o.reply == Forbidden ==> !event.call.AcquireCall?)
            && (o.reply == Accepted || o.reply == Conflict || o.reply == Declined || o.reply == Forbidden)
            && (o.reply == Accepted <==>
                  match event.call
                  case AcquireCall(sid, _, force, reason) =>
                    canAcquire && (!inTime || s.lock.active.value.sessionId == sid || (force && reason != ""))
                  case RenewCall(sid, oid, token) => inTime && Owns(s.lock.active.value, sid, oid, token)
                  case ReleaseCall(sid, oid, token) => s.lock.active.None? || Owns(s.lock.active.value, sid, oid, token)
                  case AssertCall(sid, oid, token) =>
                    token.Some? && inTime && Owns(s.lock.active.value, sid, oid, token.value)
                  case CurrentCall => true)
  {
    hide Lock.Acquire, Lock.Renew, Lock.Release, Lock.AssertController;
    match event.call
    case AcquireCall(sid, oid, force, reason) => Lock.AcquireAnswers(s.lock, event.now, sid, oid, force, reason);
    case RenewCall(sid, oid, token) => Lock.RenewAnswers(s.lock, event.now, sid, oid, token);
    case ReleaseCall(sid, oid, token) => Lock.ReleaseAnswers(s.lock, sid, oid, token);
    case AssertCall(sid, oid, token) => Lock.AssertAnswers(s.lock, event.now, sid, oid, token);
    case CurrentCall =>
  }

  predicate Owns(lease: Lock.Lease, sessionId: string, operatorId: string, token: Lock.Token) {
    lease.sessionId == sessionId && lease.operatorId == operatorId && lease.token == token
  }
}
