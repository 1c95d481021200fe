/** The supervisor as a machine on values: its state, the elementary writes every path is made of,
    and one function for each service call (hmi/backend/services/supervisor_*.py).

    A call is one atomic step.  Ids come from a counter.  What a call reads from the clock, the
    sensors, the router and ROS is a parameter.  An exception that escapes a path is a `Fault`
    carried by the flow: once it is set every further write of that call is skipped, and the writes
    made before it stay. */
module SupervisorModel {
  import opened Wrappers
  import opened Lifecycle
  import opened Validation
  import Lock = SessionLock

  type Id = nat

  datatype Kind = Command | Sequence

  datatype Action = IoSet | GetPose | OtherAction(name: string)

  /** A parsed intent: its action and, when normalised, the primitive it became. */
  datatype Intent = Intent(action: Action, primitive: Option<Action>)

  datatype Record = Record(
    kind: Kind, sessionId: string, operatorId: string, mode: Mode,
    parent: Option<Id>, stepIndex: nat, children: seq<Id>,
    intent: Option<Intent>,
    state: State, finalState: Option<State>,
    fingerprint: Option<string>, expiresAt: Option<int>,
    currentStep: Option<nat>, manualRecovery: bool)

  /** What is written outside the records, in the order it is written: the audit rows and the
      requests handed to the ROS adapter. */
  datatype Event =
    | Audit(id: Id, row: Row)
    | Sent(id: Id)

  datatype Supervisor = Supervisor(
    commands: map<Id, Record>, nextId: Id,
    activeCommand: Option<Id>, activeSequence: Option<Id>,
    lock: Lock.Slot, history: seq<Event>)

  datatype Fault = Clear | InvalidTransition | AdapterRaised | MissingKey | ParserRaised

  datatype Flow = Flow(s: Supervisor, fault: Fault)

  datatype Config = Config(window: int, simAutoConfirm: bool)

  function Initial(ttl: int): Supervisor {
    Supervisor(map[], 0, None, None, Lock.Slot(None, ttl, 0), [])
  }

  // ---- the audit log and the dispatch log, read back ----

  /** The audit rows of one record, oldest first. */
  function Rows(history: seq<Event>, id: Id): seq<Row> {
    if history == [] then []
    else
      var rest := Rows(history[..|history| - 1], id);
      match history[|history| - 1]
      case Audit(who, row) => if who == id then rest + [row] else rest
      case Sent(_) => rest
  }

  /** The records handed to the ROS adapter, in order. */
  function Sends(history: seq<Event>): seq<Id> {
    if history == [] then []
    else
      var rest := Sends(history[..|history| - 1]);
      match history[|history| - 1]
      case Audit(_, _) => rest
      case Sent(id) => rest + [id]
  }

  // ---- elementary writes ----

  function Put(s: Supervisor, id: Id, r: Record): Supervisor {
    s.(commands := s.commands[id := r])
  }

  /** `_transition_command` and `_transition_top_level_record`: check the table, write the state,
      append the audit row. */
  function Move(f: Flow, id: Id, next: State): Flow {
    if f.fault != Clear then f
    else if id !in f.s.commands then f.(fault := MissingKey)
    else
      var r := f.s.commands[id];
      if !Allowed(r.state, next) then f.(fault := InvalidTransition)
      else
        f.(s := Put(f.s, id, r.(state := next)).(history := f.s.history + [Audit(id, Row(Some(r.state), next))]))
  }

  function SetFinal(f: Flow, id: Id, final: Option<State>): Flow {
    if f.fault != Clear then f
    else if id !in f.s.commands then f.(fault := MissingKey)
    else f.(s := Put(f.s, id, f.s.commands[id].(finalState := final)))
  }

  /** The pair of writes with which every terminal outcome is recorded. */
  function Close(f: Flow, id: Id, final: State): Flow {
    Move(SetFinal(f, id, Some(final)), id, final)
  }

  /** Hand the record to the ROS adapter. */
  function Issue(f: Flow, id: Id): Flow {
    if f.fault != Clear then f
    else f.(s := f.s.(history := f.s.history + [Sent(id)]))
  }

  /** Insert a record at RECEIVED with its first audit row. */
  function Insert(s: Supervisor, r: Record): Supervisor {
    Put(s, s.nextId, r).(nextId := s.nextId + 1,
                         history := s.history + [Audit(s.nextId, Row(None, Received))])
  }

  // ---- confirmation of one command: gate, hand-over, result ----

  datatype RosStatus = StatusSucceeded | StatusCancelled | StatusOther

  /** The adapter's answer: an exception, or a status and whether ROS was reached. */
  datatype RosResult = RosRaises | RosReturns(status: RosStatus, dispatched: bool)

  datatype PoseReply = PoseRaises | NoPose | PoseKnown

  /** Everything one execution attempt reads. */
  datatype StepEnv = StepEnv(runtime: Runtime, sensors: Sensors, ros: RosResult, pose: PoseReply)

  function IsPoseQuery(intent: Option<Intent>): bool {
    intent.Some? &&
    (if intent.value.primitive.Some? then intent.value.primitive.value else intent.value.action) == GetPose
  }

  function GateOpen(r: Record, env: StepEnv): bool {
    CommandGate(env.runtime, env.sensors, r.intent.Some?, r.mode, true)
  }

  /** From NEEDS_CONFIRMATION to the execution boundary. */
  function Prepare(f: Flow, id: Id): Flow {
    Move(Move(f, id, Confirmed), id, ExecutionRequested)
  }

  /** Record the adapter's answer. */
  function Finish(f: Flow, id: Id, ros: RosResult): Flow {
    if f.fault != Clear then f
    else
      match ros
      case RosRaises => f.(fault := AdapterRaised)
      case RosReturns(status, dispatched) =>
        var g := if dispatched then SetFinal(Move(f, id, Executing), id, None) else f;
        match status
        case StatusSucceeded => Close(g, id, Succeeded)
        case StatusCancelled => Close(if dispatched then g else Move(g, id, Executing), id, Cancelled)
        case StatusOther => Close(g, id, Failed)
  }

  /** `_execute_get_pose_query`: answered by a service call, never sent to the adapter. */
  function QueryPose(f: Flow, id: Id, pose: PoseReply): Flow {
    if f.fault != Clear then f
    else if id !in f.s.commands then f.(fault := MissingKey)
    else if pose == PoseRaises then f.(fault := AdapterRaised)
    else
      var g := if f.s.commands[id].state != Validating then Move(f, id, Executing) else f;
      Close(g, id, if pose == PoseKnown then Succeeded else Failed)
  }

  function Execute(f: Flow, id: Id, env: StepEnv): Flow {
    var g := Prepare(f, id);
    if g.fault != Clear then g
    else if IsPoseQuery(g.s.commands[id].intent) then QueryPose(g, id, env.pose)
    else Finish(Issue(g, id), id, env.ros)
  }

  function ConfirmInternal(f: Flow, id: Id, env: StepEnv): Flow {
    if f.fault != Clear then f
    else if id !in f.s.commands then f.(fault := MissingKey)
    else if !GateOpen(f.s.commands[id], env) then f
    else Execute(f, id, env)
  }

  // ---- expiry ----

  predicate Overdue(r: Record, now: int) {
    r.state == NeedsConfirmation && r.parent.None? && r.expiresAt.Some? && r.expiresAt.value <= now
  }

  /** The overdue records among the first n ids, in insertion order. */
  function Expiring(commands: map<Id, Record>, n: nat, now: int): seq<Id> {
    if n == 0 then []
    else
      Expiring(commands, n - 1, now)
      + (if n - 1 in commands && Overdue(commands[n - 1], now) then [n - 1] else [])
  }

  function CloseAll(f: Flow, ids: seq<Id>, final: State): Flow
    decreases |ids|
  {
    if ids == [] then f else Close(CloseAll(f, ids[..|ids| - 1], final), ids[|ids| - 1], final)
  }

  function ExpirePending(s: Supervisor, now: int): Flow {
    CloseAll(Flow(s, Clear), Expiring(s.commands, s.nextId, now), Expired)
  }

  // ---- calls ----

  datatype Caller = Caller(sessionId: string, operatorId: string, token: Option<Lock.Token>)

  /** The clock readings of one call: at the expiry sweep, at the lease check, and at the window. */
  datatype Clock = Clock(sweep: int, lease: int, stamp: int)

  datatype Reply =
    | Accepted | Declined | Conflict | Forbidden | NotFound
    | Crashed(fault: Fault)

  datatype Outcome = Outcome(s: Supervisor, reply: Reply)

  function LeaseCheck(s: Supervisor, caller: Caller, now: int): (Supervisor, bool) {
    var (slot, answer) := Lock.AssertController(s.lock, now, caller.sessionId, caller.operatorId, caller.token);
    (s.(lock := slot), answer.Granted?)
  }

  function Owns(caller: Caller, r: Record): bool {
    r.sessionId == caller.sessionId && r.operatorId == caller.operatorId
  }

  /** What confirm and cancel have in common: sweep, lease, ownership.  The reply is Accepted when
      the call may go on. */
  function Enter(s: Supervisor, caller: Caller, clock: Clock, id: Id): Outcome {
    var f := ExpirePending(s, clock.sweep);
    if f.fault != Clear then Outcome(f.s, Crashed(f.fault))
    else
      var (s1, granted) := LeaseCheck(f.s, caller, clock.lease);
      if !granted then Outcome(s1, Forbidden)
      else if id !in s1.commands then Outcome(s1, NotFound)
      else if !Owns(caller, s1.commands[id]) then Outcome(s1, Forbidden)
      else Outcome(s1, Accepted)
  }

  predicate WindowClosed(r: Record, now: int) {
    r.expiresAt.None? || r.expiresAt.value <= now
  }

  /** The three checks a record passes before its confirmation takes effect. */
  function CheckWaiting(s: Supervisor, id: Id, fingerprint: string, now: int): Outcome
    requires id in s.commands
  {
    var r := s.commands[id];
    if r.state != NeedsConfirmation then Outcome(s, Conflict)
    else if WindowClosed(r, now) then
      var f := Close(Flow(s, Clear), id, Expired);
      Outcome(f.s, if f.fault == Clear then Conflict else Crashed(f.fault))
    else if r.fingerprint != Some(fingerprint) then Outcome(s, Conflict)
    else Outcome(s, Accepted)
  }

  /** The reply of an execution attempt. */
  function Verdict(f: Flow, id: Id): Outcome {
    if f.fault != Clear then Outcome(f.s, Crashed(f.fault))
    else Outcome(f.s, if id in f.s.commands
        && f.s.commands[id].finalState == Some(Succeeded) then Accepted else Declined)
  }

  function ConfirmCommand(s: Supervisor, caller: Caller, clock: Clock, id: Id, fingerprint: string,
                          env: StepEnv): Outcome {
    var o := Enter(s, caller, clock, id);
    if o.reply != Accepted then o
    else if id !in o.s.commands || o.s.commands[id].kind != Command || o.s.commands[id].parent.Some? then Outcome(o.s, Conflict)
    else
      var w := CheckWaiting(o.s, id, fingerprint, clock.stamp);
      if w.reply != Accepted then w
      else Verdict(ConfirmInternal(Flow(w.s, Clear), id, env), id)
  }

  // ---- sequences ----

  /** Point the sequence's cursor and the active command at the step about to run. */
  function PointAt(f: Flow, seqId: Id, step: Id): Flow {
    if f.fault != Clear then f
    else if seqId !in f.s.commands || step !in f.s.commands then f.(fault := MissingKey)
    else
      var r := f.s.commands[seqId].(currentStep := Some(f.s.commands[step].stepIndex));
      f.(s := Put(f.s, seqId, r).(activeCommand := Some(step)))
  }

  predicate IsIoSet(r: Record) {
    r.intent.Some? && r.intent.value.action == IoSet
  }

  /** Some step up to and including position k sets controller IO. */
  predicate TouchedIo(commands: map<Id, Record>, steps: seq<Id>, k: nat) {
    exists i | 0 <= i < |steps| && i <= k :: steps[i] in commands && IsIoSet(commands[steps[i]])
  }

  /** A step did not succeed: the sequence takes over its outcome. */
  function FailSequence(f: Flow, seqId: Id, step: Id): Flow {
    if f.fault != Clear then f
    else if seqId !in f.s.commands || step !in f.s.commands then f.(fault := MissingKey)
    else
      var c := f.s.commands[step];
      var r := f.s.commands[seqId];
      var r' := r.(finalState := c.finalState, manualRecovery := TouchedIo(f.s.commands, r.children, c.stepIndex));
      Move(f.(s := Put(f.s, seqId, r')), seqId, if c.finalState.Some? then c.finalState.value else Failed)
  }

  /** All steps succeeded. */
  function CompleteSequence(f: Flow, seqId: Id): Flow {
    if f.fault != Clear then f
    else if seqId !in f.s.commands then f.(fault := MissingKey)
    else
      var r := f.s.commands[seqId];
      var r' := if |r.children| > 0 then r.(currentStep := Some(|r.children| - 1)) else r;
      Close(f.(s := Put(f.s, seqId, r')), seqId, Succeeded)
  }

  predicate StepSucceeded(s: Supervisor, step: Id) {
    step in s.commands && s.commands[step].finalState == Some(Succeeded)
  }

  /** Steps i, i+1, ... in order, stopping at the first that does not succeed. */
  function RunSteps(f: Flow, seqId: Id, steps: seq<Id>, i: nat, env: nat -> StepEnv): Flow
    decreases |steps| - i
  {
    if f.fault != Clear then f
    else if i >= |steps| then CompleteSequence(f, seqId)
    else
      var g := ConfirmInternal(PointAt(f, seqId, steps[i]), steps[i], env(i));
      if g.fault != Clear then g
      else if !StepSucceeded(g.s, steps[i]) then FailSequence(g, seqId, steps[i])
      else RunSteps(g, seqId, steps, i + 1, env)
  }

  function StartSequence(f: Flow, seqId: Id): Flow {
    Move(Prepare(f, seqId), seqId, Executing)
  }

  function ConfirmSequence(s: Supervisor, caller: Caller, clock: Clock, id: Id, fingerprint: string,
                           env: nat -> StepEnv): Outcome {
    var o := Enter(s, caller, clock, id);
    if o.reply != Accepted then o
    else if id !in o.s.commands || o.s.commands[id].kind != Sequence then Outcome(o.s, NotFound)
    else
      var w := CheckWaiting(o.s, id, fingerprint, clock.stamp);
      if w.reply != Accepted || id !in w.s.commands then w
      else Verdict(RunSteps(StartSequence(Flow(w.s, Clear), id), id, w.s.commands[id].children, 0, env), id)
  }

  // ---- cancellation ----

  predicate InFlight(r: Record) {
    r.state == ExecutionRequested || r.state == Executing
  }

  /** `cancel_command` looks at the parent, not at the kind: it also accepts a sequence's id. */
  function CancelCommand(s: Supervisor, caller: Caller, clock: Clock, id: Id, abortOk: bool): Outcome {
    var o := Enter(s, caller, clock, id);
    if o.reply != Accepted || id !in o.s.commands then o
    else
      var r := o.s.commands[id];
      if r.parent.Some? then Outcome(o.s, Conflict)
      else if Terminal(r.state) then o
      else if InFlight(r) && !abortOk then Outcome(o.s, Conflict)
      else
        var f := Close(Flow(o.s, Clear), id, Cancelled);
        Outcome(f.s, if f.fault == Clear then Accepted else Crashed(f.fault))
  }

  /** Cancel the steps that are not over yet, from position i on. */
  function CancelSteps(f: Flow, steps: seq<Id>, i: nat): Flow
    decreases |steps| - i
  {
    if f.fault != Clear || i >= |steps| then f
    else if steps[i] !in f.s.commands then f.(fault := MissingKey)
    else
      var g := if Terminal(f.s.commands[steps[i]].state) then f else Close(f, steps[i], Cancelled);
      CancelSteps(g, steps, i + 1)
  }

  predicate CurrentStepInFlight(s: Supervisor, seqId: Id) {
    s.activeCommand.Some? && s.activeCommand.value in s.commands &&
    var c := s.commands[s.activeCommand.value];
    c.parent == Some(seqId) && InFlight(c)
  }

  /** The writes of a sequence's cancellation. */
  function CancelJob(s: Supervisor, id: Id): Flow
    requires id in s.commands
  {
    Close(CancelSteps(Flow(s, Clear), s.commands[id].children, 0), id, Cancelled)
  }

  function CancelSequence(s: Supervisor, caller: Caller, clock: Clock, id: Id, abortOk: bool): Outcome {
    var o := Enter(s, caller, clock, id);
    if o.reply != Accepted then o
    else if id !in o.s.commands || o.s.commands[id].kind != Sequence then Outcome(o.s, NotFound)
    else if Terminal(o.s.commands[id].state) then o
    else if CurrentStepInFlight(o.s, id) && !abortOk then Outcome(o.s, Conflict)
    else
      var f := CancelJob(o.s, id);
      Outcome(f.s, if f.fault == Clear then Accepted else Crashed(f.fault))
  }

  // ---- submission ----

  /** The three inputs an operator may fill in. */
  datatype Request = Request(hasText: bool, hasQuickCommand: bool, hasStructured: bool)

  /** What resolving and parsing the request produced; the routing itself may raise. */
  datatype Resolution =
    | Unresolved
    | RoutingRaises
    | SingleIntent(parsed: Option<Intent>)
    | OrderedSteps(steps: Option<seq<Intent>>)

  /** What a submission reads: the runtime once, the sensors at every validation.  The parser of a
      sequence may raise once the record is there; that of a single command catches everything. */
  datatype SubmitEnv = SubmitEnv(
    runtime: Runtime, requestedMode: Option<Mode>, resolution: Resolution, parserRaises: bool,
    sensors: Sensors, digest: string,
    stepSensors: nat -> Sensors, stepDigest: nat -> string,
    pose: PoseReply,
    autoClock: Clock, autoEnv: nat -> StepEnv)

  /** `_assert_no_active_job`. */
  predicate JobActive(s: Supervisor) {
    || (s.activeSequence.Some? && s.activeSequence.value in s.commands
        && !Terminal(s.commands[s.activeSequence.value].state))
    || (s.activeCommand.Some? && s.activeCommand.value in s.commands
        && var c := s.commands[s.activeCommand.value];
           c.kind == Command && c.parent.None? && !Terminal(c.state))
  }

  function Blank(kind: Kind, caller: Caller, mode: Mode): Record {
    Record(kind, caller.sessionId, caller.operatorId, mode, None, 0, [], None,
           Received, None, None, None, None, false)
  }

  /** Insert a top-level record and name it as the active job. */
  function Admit(s: Supervisor, r: Record): Supervisor {
    Insert(s, r).(activeCommand := if r.kind == Command then Some(s.nextId) else None,
                  activeSequence := if r.kind == Sequence then Some(s.nextId) else None)
  }

  function RejectSubmission(s: Supervisor, caller: Caller, mode: Mode): Flow {
    Close(Flow(Admit(s, Blank(Command, caller, mode)), Clear), s.nextId, Rejected)
  }

  function SetIntent(f: Flow, id: Id, intent: Intent): Flow {
    if f.fault != Clear || id !in f.s.commands then f
    else f.(s := Put(f.s, id, f.s.commands[id].(intent := Some(intent))))
  }

  function SetFingerprint(f: Flow, id: Id, accepted: bool, digest: string): Flow {
    if f.fault != Clear || id !in f.s.commands then f
    else f.(s := Put(f.s, id, f.s.commands[id].(fingerprint := if accepted then Some(digest) else None)))
  }

  function OpenWindow(f: Flow, id: Id, until: int): Flow {
    if f.fault != Clear || id !in f.s.commands then f
    else f.(s := Put(f.s, id, f.s.commands[id].(expiresAt := Some(until))))
  }

  function AutoConfirms(s: Supervisor, cfg: Config, id: Id): bool {
    cfg.simAutoConfirm && id in s.commands && s.commands[id].mode == Sim && s.commands[id].fingerprint.Some?
  }

  /** Up to the wait for confirmation: parse, validate, open the window. */
  function PlanSingle(s: Supervisor, cfg: Config, caller: Caller, mode: Mode, parsed: Option<Intent>,
                      now: int, env: SubmitEnv): Flow {
    var id := s.nextId;
    var f := Move(Flow(Admit(s, Blank(Command, caller, mode)), Clear), id, Parsing);
    if parsed.None? then Close(f, id, Rejected)
    else
      var g := Move(SetIntent(f, id, parsed.value), id, Validating);
      var accepted := CommandGate(env.runtime, env.sensors, true, mode, false);
      var h := SetFingerprint(g, id, accepted, env.digest);
      if !accepted then Close(h, id, Rejected)
      else if IsPoseQuery(parsed) then QueryPose(h, id, env.pose)
      else Move(OpenWindow(h, id, now + cfg.window), id, NeedsConfirmation)
  }

  predicate Waiting(s: Supervisor, id: Id) {
    id in s.commands && s.commands[id].state == NeedsConfirmation
  }

  function SubmitSingle(s: Supervisor, cfg: Config, caller: Caller, mode: Mode, parsed: Option<Intent>,
                        now: int, env: SubmitEnv): Outcome {
    var f := PlanSingle(s, cfg, caller, mode, parsed, now, env);
    if f.fault == Clear && Waiting(f.s, s.nextId) && AutoConfirms(f.s, cfg, s.nextId) then
      Verdict(ConfirmInternal(f, s.nextId, env.autoEnv(0)), s.nextId)
    else Settle(f, s.nextId)
  }

  function StepRecord(p: Record, seqId: Id, i: nat, intent: Intent): Record {
    Record(Command, p.sessionId, p.operatorId, p.mode, Some(seqId), i, [], Some(intent),
           Received, None, None, None, None, false)
  }

  /** List and insert step i of a sequence. */
  function Grow(s: Supervisor, seqId: Id, i: nat, intent: Intent): Supervisor
    requires seqId in s.commands
  {
    var p := s.commands[seqId];
    Insert(Put(s, seqId, p.(children := p.children + [s.nextId])), StepRecord(p, seqId, i, intent))
  }

  /** Insert step i and walk it to VALIDATING. */
  function AddStep(f: Flow, seqId: Id, i: nat, intent: Intent): Flow {
    if f.fault != Clear then f
    else if seqId !in f.s.commands then f.(fault := MissingKey)
    else
      var id := f.s.nextId;
      Move(Move(f.(s := Grow(f.s, seqId, i, intent)), id, Parsing), id, Validating)
  }

  function AddSteps(f: Flow, seqId: Id, intents: seq<Intent>): Flow
    decreases |intents|
  {
    if intents == [] then f
    else AddStep(AddSteps(f, seqId, intents[..|intents| - 1]), seqId, |intents| - 1, intents[|intents| - 1])
  }

  /** Every step's own gate at submission, in order. */
  predicate StepGate(env: SubmitEnv, mode: Mode, i: nat) {
    CommandGate(env.runtime, env.stepSensors(i), true, mode, false)
  }

  predicate StepGates(env: SubmitEnv, mode: Mode, n: nat) {
    forall i: nat | i < n :: StepGate(env, mode, i)
  }

  function FingerprintSteps(f: Flow, steps: seq<Id>, mode: Mode, env: SubmitEnv): Flow
    decreases |steps|
  {
    if steps == [] then f
    else
      var i := |steps| - 1;
      SetFingerprint(FingerprintSteps(f, steps[..i], mode, env), steps[i], StepGate(env, mode, i), env.stepDigest(i))
  }

  /** Move the steps to NEEDS_CONFIRMATION under the sequence's window. */
  function OpenSteps(f: Flow, steps: seq<Id>, until: int): Flow
    decreases |steps|
  {
    if steps == [] then f
    else
      var i := |steps| - 1;
      Move(OpenWindow(OpenSteps(f, steps[..i], until), steps[i], until), steps[i], NeedsConfirmation)
  }

  /** Name the first step and rewind the cursor. */
  function PointAtFirst(f: Flow, seqId: Id): Flow {
    if f.fault != Clear || seqId !in f.s.commands then f
    else
      var steps := f.s.commands[seqId].children;
      f.(s := Put(f.s, seqId, f.s.commands[seqId].(currentStep := Some(0)))
              .(activeCommand := if steps == [] then None else Some(steps[0])))
  }

  /** Parse the steps, insert them, and start validating the sequence. */
  function BuildSequence(s: Supervisor, caller: Caller, mode: Mode, intents: seq<Intent>): Flow {
    var id := s.nextId;
    var f := Move(Flow(Admit(s, Blank(Sequence, caller, mode)), Clear), id, Parsing);
    Move(PointAtFirst(AddSteps(f, id, intents), id), id, Validating)
  }

  /** Validate the sequence and its steps; reject it, or open the window for all of them. */
  function JudgeSequence(f: Flow, cfg: Config, seqId: Id, mode: Mode, now: int, env: SubmitEnv): Flow {
    if f.fault != Clear || seqId !in f.s.commands then f
    else
      var steps := f.s.commands[seqId].children;
      var accepted := SequenceGate(env.runtime, env.sensors, mode);
      var g := FingerprintSteps(SetFingerprint(f, seqId, accepted, env.digest), steps, mode, env);
      if !accepted || !StepGates(env, mode, |steps|) then Close(g, seqId, Rejected)
      else Move(OpenSteps(OpenWindow(g, seqId, now + cfg.window), steps, now + cfg.window), seqId, NeedsConfirmation)
  }

  function PlanSequence(s: Supervisor, cfg: Config, caller: Caller, mode: Mode, intents: Option<seq<Intent>>,
                        now: int, env: SubmitEnv): Flow {
    if env.parserRaises then
      Move(Flow(Admit(s, Blank(Sequence, caller, mode)), Clear), s.nextId, Parsing).(fault := ParserRaised)
    else if intents.None? then
      Close(Move(Flow(Admit(s, Blank(Sequence, caller, mode)), Clear), s.nextId, Parsing), s.nextId, Rejected)
    else
      JudgeSequence(BuildSequence(s, caller, mode, intents.value), cfg, s.nextId, mode, now, env)
  }

  function SubmitSequence(s: Supervisor, cfg: Config, caller: Caller, mode: Mode, intents: Option<seq<Intent>>,
                          now: int, env: SubmitEnv): Outcome {
    var f := PlanSequence(s, cfg, caller, mode, intents, now, env);
    if f.fault == Clear && Waiting(f.s, s.nextId) && AutoConfirms(f.s, cfg, s.nextId) then
      ConfirmSequence(f.s, caller, env.autoClock, s.nextId, f.s.commands[s.nextId].fingerprint.value, env.autoEnv)
    else Settle(f, s.nextId)
  }

  /** The reply of a submission that is not confirmed on the spot: accepted when it waits for
      confirmation or has succeeded. */
  function Settle(f: Flow, id: Id): Outcome {
    if f.fault != Clear then Outcome(f.s, Crashed(f.fault))
    else Outcome(f.s, if id in f.s.commands
        && f.s.commands[id].state in {NeedsConfirmation, Succeeded} then Accepted else Declined)
  }

  function Submit(s: Supervisor, cfg: Config, caller: Caller, clock: Clock, request: Request, env: SubmitEnv): Outcome {
    var f := ExpirePending(s, clock.sweep);
    if f.fault != Clear then Outcome(f.s, Crashed(f.fault))
    else if !request.hasText && !request.hasQuickCommand && !request.hasStructured then Outcome(f.s, Conflict)
    else if request.hasText && request.hasQuickCommand then Outcome(f.s, Conflict)
    else
      var (s1, granted) := LeaseCheck(f.s, caller, clock.lease);
      var mode := if env.requestedMode.Some? then env.requestedMode.value else env.runtime.mode;
      if !granted then Outcome(s1, Forbidden)
      else if JobActive(s1) then Outcome(s1, Conflict)
      else if request.hasStructured || env.resolution == Unresolved then
        Settle(RejectSubmission(s1, caller, mode), s1.nextId)
      else if env.resolution == RoutingRaises then Outcome(s1, Crashed(ParserRaised))
      else if env.resolution.SingleIntent? then
        SubmitSingle(s1, cfg, caller, mode, env.resolution.parsed, clock.stamp, env)
      else
        SubmitSequence(s1, cfg, caller, mode, env.resolution.steps, clock.stamp, env)
  }
}
