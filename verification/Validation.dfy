/** The gates a command and a sequence pass before confirmation and again before execution
    (hmi/backend/services/supervisor_validation.py and `_validate_sequence`). */
module Validation {
  datatype Mode = Sim | Hardware | Unknown

  datatype SystemState = Normal | Fault | Estop | Hold | Timeout | LostConn | SafetyBlocked

  datatype Freshness = Fresh | Stale | Unavailable

  datatype Source = Source(name: string, active: bool, freshness: Freshness)

  datatype Preflight = Preflight(accepted: bool, reasons: seq<string>)

  datatype Runtime = Runtime(mode: Mode, systemState: SystemState)

  /** What one validation reads besides the runtime snapshot. */
  datatype Sensors = Sensors(sources: seq<Source>, preflight: Preflight)

  datatype Reason =
    | IntentUnavailable | ModeNotCapable | ModeMismatch | HardBlockingState
    | StaleSources(names: seq<string>) | PreflightReason(text: string)

  const EVENT_DRIVEN_SOURCE_NAMES: set<string> := {"llm_debug", "llm_command", "review_intent_service"}
  const POST_PARSE_INFO_ONLY_SOURCE_NAMES: set<string> := {"gateway_status", "supervisor_alerts"}
  const EXECUTION_BOUNDARY_SOURCE_NAMES: set<string> := {"validate_command_service", "execute_motion_action"}
  const BLOCKING_RUNTIME_STATES: set<SystemState> := {Fault, Estop, LostConn, SafetyBlocked}

  function NonblockingSourceNames(enforce: bool): set<string> {
    EVENT_DRIVEN_SOURCE_NAMES + POST_PARSE_INFO_ONLY_SOURCE_NAMES
    + (if enforce then {} else EXECUTION_BOUNDARY_SOURCE_NAMES)
  }

  predicate OccursAt(text: string, name: string, i: nat) {
    i + |name| <= |text| && text[i..i + |name|] == name
  }

  /** The text contains the name. */
  predicate Mentions(text: string, name: string) {
    exists i | 0 <= i <= |text| :: OccursAt(text, name, i)
  }

  predicate MentionsIgnored(text: string) {
    exists name | name in POST_PARSE_INFO_ONLY_SOURCE_NAMES + EXECUTION_BOUNDARY_SOURCE_NAMES :: Mentions(text, name)
  }

  function StaleNames(sources: seq<Source>, ignored: set<string>): (names: seq<string>)
    ensures names == [] <==> forall src | src in sources && src.active && src.name !in ignored :: src.freshness == Fresh
  {
    if sources == [] then []
    else
      var rest := StaleNames(sources[..|sources| - 1], ignored);
      var last := sources[|sources| - 1];
      assert sources == sources[..|sources| - 1] + [last];
      if last.active && last.name !in ignored && last.freshness != Fresh then rest + [last.name] else rest
  }

  function FilteredPreflightReasons(reasons: seq<string>, enforce: bool): (kept: seq<Reason>)
    ensures kept == [] <==> forall text | text in reasons :: !enforce && MentionsIgnored(text)
  {
    if reasons == [] then []
    else
      var rest := FilteredPreflightReasons(reasons[..|reasons| - 1], enforce);
      var last := reasons[|reasons| - 1];
      assert reasons == reasons[..|reasons| - 1] + [last];
      if !enforce && MentionsIgnored(last) then rest else rest + [PreflightReason(last)]
  }

  function AddIf(reasons: seq<Reason>, condition: bool, reason: Reason): seq<Reason> {
    if condition then reasons + [reason] else reasons
  }

  /** The reasons both gates share, in the order they are reported. */
  function BlockingReasons(runtime: Runtime, sensors: Sensors, hasIntent: bool, mode: Mode,
                           ignored: set<string>, enforce: bool): seq<Reason> {
    var stale := StaleNames(sensors.sources, ignored);
    var r := AddIf([], !hasIntent, IntentUnavailable);
    var r := AddIf(r, mode == Unknown, ModeNotCapable);
    var r := AddIf(r, runtime.mode != mode, ModeMismatch);
    var r := AddIf(r, runtime.systemState in BLOCKING_RUNTIME_STATES, HardBlockingState);
    var r := AddIf(r, stale != [], StaleSources(stale));
    if sensors.preflight.accepted then r else r + FilteredPreflightReasons(sensors.preflight.reasons, enforce)
  }

  predicate CommandGate(runtime: Runtime, sensors: Sensors, hasIntent: bool, mode: Mode, enforce: bool) {
    BlockingReasons(runtime, sensors, hasIntent, mode, NonblockingSourceNames(enforce), enforce) == []
  }

  predicate SequenceGate(runtime: Runtime, sensors: Sensors, mode: Mode) {
    BlockingReasons(runtime, sensors, true, mode, EVENT_DRIVEN_SOURCE_NAMES, true) == []
  }

  /** The validator as the service runs it: reasons are appended to one list. */
  method ValidateCommand(runtime: Runtime, sensors: Sensors, hasIntent: bool, mode: Mode, enforce: bool)
    returns (accepted: bool, reasons: seq<Reason>)
    ensures reasons == BlockingReasons(runtime, sensors, hasIntent, mode, NonblockingSourceNames(enforce), enforce)
    ensures accepted == CommandGate(runtime, sensors, hasIntent, mode, enforce)
  {
    reasons := [];
    if !hasIntent {
      reasons := reasons + [IntentUnavailable];
    }
    if mode == Unknown {
      reasons := reasons + [ModeNotCapable];
    }
    if runtime.mode != mode {
      reasons := reasons + [ModeMismatch];
    }
    if runtime.systemState in BLOCKING_RUNTIME_STATES {
      reasons := reasons + [HardBlockingState];
    }
    var ignored := NonblockingSourceNames(enforce);
    var stale := CollectStaleNames(sensors.sources, ignored);
    if stale != [] {
      reasons := reasons + [StaleSources(stale)];
    }
    if !sensors.preflight.accepted {
      var kept := FilterPreflightReasons(sensors.preflight.reasons, enforce);
      reasons := reasons + kept;
    }
    accepted := reasons == [];
  }

  method CollectStaleNames(sources: seq<Source>, ignored: set<string>) returns (stale: seq<string>)
    ensures stale == StaleNames(sources, ignored)
  {
    stale := [];
    for i := 0 to |sources|
      invariant stale == StaleNames(sources[..i], ignored)
    {
      assert sources[..i + 1][..i] == sources[..i];
      var source := sources[i];
      if source.active && source.name !in ignored && source.freshness != Fresh {
        stale := stale + [source.name];
      }
    }
    assert sources[..|sources|] == sources;
  }

  method FilterPreflightReasons(reasons: seq<string>, enforce: bool) returns (kept: seq<Reason>)
    ensures kept == FilteredPreflightReasons(reasons, enforce)
  {
    kept := [];
    for i := 0 to |reasons|
      invariant kept == FilteredPreflightReasons(reasons[..i], enforce)
    {
      assert reasons[..i + 1][..i] == reasons[..i];
      if enforce || !MentionsIgnored(reasons[i]) {
        kept := kept + [PreflightReason(reasons[i])];
      }
    }
    assert reasons[..|reasons|] == reasons;
  }

  /** Exactly when the command gate lets a command through.  A preflight that refuses without
      giving a reason does not block. */
  lemma CommandGateExactly(runtime: Runtime, sensors: Sensors, hasIntent: bool, mode: Mode, enforce: bool)
    ensures CommandGate(runtime, sensors, hasIntent, mode, enforce) <==>
            && hasIntent
            && mode != Unknown && runtime.mode == mode
            && runtime.systemState !in {Fault, Estop, LostConn, SafetyBlocked}
            && (forall src | src in sensors.sources
                && src.active :: src.freshness == Fresh || src.name in NonblockingSourceNames(enforce))
            && (sensors.preflight.accepted || forall text | text in sensors.preflight.reasons :: !enforce && MentionsIgnored(text))
  {
    var stale := StaleNames(sensors.sources, NonblockingSourceNames(enforce));
    var kept := FilteredPreflightReasons(sensors.preflight.reasons, enforce);
    assert CommandGate(runtime, sensors, hasIntent, mode, enforce) <==>
           && hasIntent && mode != Unknown && runtime.mode == mode
           && runtime.systemState !in BLOCKING_RUNTIME_STATES
           && stale == [] && (sensors.preflight.accepted || kept == []);
    assert stale == [] <==> forall src | src in sensors.sources
        && src.active :: src.freshness == Fresh || src.name in NonblockingSourceNames(enforce);
    assert kept == [] <==> forall text | text in sensors.preflight.reasons :: !enforce && MentionsIgnored(text);
  }

  /** The gate run again before execution only ever tightens the gate run at submission. */
  lemma ExecutionGateIsStricter(runtime: Runtime, sensors: Sensors, hasIntent: bool, mode: Mode)
    requires CommandGate(runtime, sensors, hasIntent, mode, true)
    ensures CommandGate(runtime, sensors, hasIntent, mode, false)
  {
    CommandGateExactly(runtime, sensors, hasIntent, mode, true);
    CommandGateExactly(runtime, sensors, hasIntent, mode, false);
  }

  /** The sequence gate is the strictest: on the same readings it implies both command gates. */
  lemma SequenceGateIsStrictest(runtime: Runtime, sensors: Sensors, mode: Mode, enforce: bool)
    requires SequenceGate(runtime, sensors, mode)
    ensures CommandGate(runtime, sensors, true, mode, enforce)
  {
    CommandGateExactly(runtime, sensors, true, mode, enforce);
  }

  // ---- the gates, name by name ----

  /** The text has the name somewhere in it. */
  ghost predicate Contains(text: string, name: string) {
    exists before: string, behind: string :: text == before + name + behind
  }

  lemma ContainsAt(text: string, name: string, i: nat)
    requires OccursAt(text, name, i)
    ensures Contains(text, name)
  {
    assert text == text[..i] + name + text[i + |name|..];
  }

  lemma MentionsExactly(text: string, name: string)
    ensures Mentions(text, name) <==> Contains(text, name)
  {
    if Mentions(text, name) {
      var i :| 0 <= i <= |text| && OccursAt(text, name, i);
      ContainsAt(text, name, i);
    }
    if Contains(text, name) {
      var before, behind :| text == before + name + behind;
      assert OccursAt(text, name, |before|);
    }
  }

  /** Of a preflight's reasons, the one that still blocks a submission names none of four sources. */
  ghost predicate BlocksSubmission(text: string) {
    && !Contains(text, "gateway_status") && !Contains(text, "supervisor_alerts")
    && !Contains(text, "validate_command_service") && !Contains(text, "execute_motion_action")
  }

  lemma BlocksExactly(text: string)
    ensures MentionsIgnored(text) <==> !BlocksSubmission(text)
  {
    hide Mentions, Contains;
    MentionsExactly(text, "gateway_status");
    MentionsExactly(text, "supervisor_alerts");
    MentionsExactly(text, "validate_command_service");
    MentionsExactly(text, "execute_motion_action");
    var names := POST_PARSE_INFO_ONLY_SOURCE_NAMES + EXECUTION_BOUNDARY_SOURCE_NAMES;
    assert "gateway_status" in names && "supervisor_alerts" in names;
    assert "validate_command_service" in names && "execute_motion_action" in names;
  }

  /** What all three gates ask of the mode and the runtime. */
  predicate ModeServes(runtime: Runtime, mode: Mode) {
    && (mode == Sim || mode == Hardware) && runtime.mode == mode
    && (runtime.systemState == Normal || runtime.systemState == Hold || runtime.systemState == Timeout)
  }

  /** Every active source outside the given names is fresh. */
  predicate FreshBut(sources: seq<Source>, names: seq<string>) {
    forall src | src in sources && src.active && src.freshness != Fresh :: src.name in names
  }

  /** The command gate at submission: an intent, a mode the runtime serves, fresh sources but for seven
      names, and a preflight that accepts or gives no reason that blocks. */
  lemma SubmissionGateExactly(runtime: Runtime, sensors: Sensors, hasIntent: bool, mode: Mode)
    ensures CommandGate(runtime, sensors, hasIntent, mode, false) <==>
            && hasIntent && ModeServes(runtime, mode)
            && FreshBut(sensors.sources,
                        ["llm_debug", "llm_command", "review_intent_service", "gateway_status", "supervisor_alerts",
                         "validate_command_service", "execute_motion_action"])
            && (sensors.preflight.accepted || forall text | text in sensors.preflight.reasons :: !BlocksSubmission(text))
  {
    hide CommandGate, MentionsIgnored, BlocksSubmission;
    CommandGateExactly(runtime, sensors, hasIntent, mode, false);
    forall text | text in sensors.preflight.reasons ensures MentionsIgnored(text) <==> !BlocksSubmission(text) {
      BlocksExactly(text);
    }
  }

  /** Before execution five names are ignored, and any reason of a refusing preflight blocks. */
  lemma ExecutionGateExactly(runtime: Runtime, sensors: Sensors, hasIntent: bool, mode: Mode)
    ensures CommandGate(runtime, sensors, hasIntent, mode, true) <==>
            && hasIntent && ModeServes(runtime, mode)
            && FreshBut(sensors.sources,
                        ["llm_debug", "llm_command", "review_intent_service", "gateway_status", "supervisor_alerts"])
            && (sensors.preflight.accepted || sensors.preflight.reasons == [])
  {
    hide CommandGate;
    CommandGateExactly(runtime, sensors, hasIntent, mode, true);
    if sensors.preflight.reasons != [] {
      assert sensors.preflight.reasons[0] in sensors.preflight.reasons;
    }
  }

  /** For a sequence three names are ignored, and any reason blocks. */
  lemma SequenceGateExactly(runtime: Runtime, sensors: Sensors, mode: Mode)
    ensures SequenceGate(runtime, sensors, mode) <==>
            && ModeServes(runtime, mode)
            && FreshBut(sensors.sources, ["llm_debug", "llm_command", "review_intent_service"])
            && (sensors.preflight.accepted || sensors.preflight.reasons == [])
  {
    var stale := StaleNames(sensors.sources, EVENT_DRIVEN_SOURCE_NAMES);
    var kept := FilteredPreflightReasons(sensors.preflight.reasons, true);
    assert SequenceGate(runtime, sensors, mode) <==>
           && mode != Unknown && runtime.mode == mode
           && runtime.systemState !in BLOCKING_RUNTIME_STATES
           && stale == [] && (sensors.preflight.accepted || kept == []);
    if sensors.preflight.reasons != [] {
      assert sensors.preflight.reasons[0] in sensors.preflight.reasons;
    }
  }
}
