# Verification of the GP4 work cell's supervisor and perception

The work cell's HMI backend turns operator intents into commands and ordered sequences, validates
them, waits for a confirmation, hands them to ROS one at a time and records every lifecycle change in
an audit log. A controller lease decides who may call. Its perception package tracks detections over
frames, suppresses overlapping candidates, rejects bad calibration samples and guards depth noise.
This project models that logic in Dafny and proves what it guarantees over every input, every run
and, where threads interleave, every interleaving.

The supervisor appears twice. `SupervisorModel` is a machine on values, one function for each service
call, about which the theorems are proved. `SupervisorService` is the program's own form: record
objects updated in place, a map of them, the active ids, a lock object. Each of its methods is proved
equal to its function, and `ServeAll` carries that to whole runs, so every theorem about
`SupervisorRuns.Run` is a theorem about the object. The trackers, the suppression pass, the rejection
step, the telemetry bridge and the dispatcher are treated the same way: loops and objects proved
against functions, theorems about the functions.

| file | subject |
|---|---|
| `Lifecycle.dfy` | states, transition table, audit paths |
| `SessionLock.dfy` | the controller lease, its object and its runs |
| `Validation.dfy` | the command and sequence gates |
| `SupervisorModel.dfy` | the supervisor's state and calls |
| `SupervisorInvariants.dfy`, `SupervisorCalls.dfy`, `SequenceRuns.dfy`, `CallEffects.dfy`, `Submissions.dfy`, `PlannedSequences.dfy` | what each write and each call keeps and does |
| `CallAnswers.dfy`, `SubmissionAnswers.dfy` | what each call answers and leaves, field by field |
| `SupervisorRuns.dfy`, `WaitingRecords.dfy` | whole runs, and what waits between calls |
| `Interleaving.dfy`, `CommandInterleaving.dfy` | a confirmation in progress, interrupted by cancellations |
| `StageFrames.dfy`, `CancelledByCommand.dfy` | what a cancelled sequence's thread still sends |
| `DelayedCancels.dfy` | cancel calls that wait for their abort |
| `StaleThreads.dfy` | new submissions beside the thread of a sequence that is over |
| `Confirmations.dfy` | every confirmation a run can start meets those modules' conditions |
| `Duels.dfy` | two requests confirming one command |
| `SupervisorService.dfy` | the supervisor as an object, refining the model |
| `CommandDispatch.dfy` | the ROS adapter's answers |
| `TelemetryLog.dfy` | the telemetry change log and event queues |
| `RuntimePlan.dfy` | unrolling plan trees |
| `Counting.dfy`, `TemporalTracker.dfy`, `VisualTracker.dfy` | the two trackers |
| `Boxes.dfy`, `Suppression.dfy` | overlap and non-maximum suppression |
| `OutlierRejection.dfy` | robust sample rejection |
| `SafetyGuards.dfy` | interpolated noise thresholds |
| `Wrappers.dfy` | the optional value |

## What stands for the environment

- Clocks are parameters of each call, read where the code reads them. UUIDs and lease tokens are
  counters. The plan digest (JSON and sha256) is a value the call is given.
- Sensor readings, the router and the intent parser, preflight answers and ROS results are arbitrary
  parameters. The one assumption about ROS results, `Honest`, is proved of the adapter in
  `CommandDispatch`; `RaisesExactly` says what happens without it.
- A service call is one atomic step, except in the interleaving modules, where the stages of a
  confirmation are steps of their own and `AloneIsAtomic` and `UndisturbedIsAtomic` tie them back to
  the atomic calls. There a cancel call is one step, or two with its wait in between
  (`DelayedCancelRaisesExactly`, `DelayedSequenceCancelRaisesExactly`).
- An exception that leaves a path is a `Fault`: the writes made before it stay. Routing a request and
  parsing a sequence may raise; the parser of a single command catches every exception itself.
- Norms and pixel distances are functions given to the trackers; reals stand for floats.

## What the proofs turned up

- `cancel_command` checks the parent but not the kind, so it accepts a sequence's id and ends its
  record. Something is still sent after that, in some continuation, exactly when the confirming
  thread has a step ahead of it that is no pose query; otherwise nothing is, in any
  (`CancelByCommandStopsExactly`). The very next step is sent exactly when its gate opens and it is no
  pose query (`NextStepSentExactly`).
- After an effective cancellation one request can still reach ROS: that of a step or command that had
  been walked to EXECUTION_REQUESTED but not yet handed over (`CancelSequenceStops`,
  `CancelCommandStops` state it exactly).
- A cancel call writes only after its abort has returned. It raises the invalid-transition error
  exactly when the confirming thread, or another cancel request, ends the record during that wait
  (`DelayedCancelRaisesExactly`, `DelayedSequenceCancelRaisesExactly`).
- `final_state` is written before the transition is checked, so a late answer, a late stage of a
  sequence's thread or a late cancel call can contradict the lifecycle state (`FinalStateKeptExactly`,
  `SequenceFinalKeptExactly` say exactly when).
- The thread of a sequence that is over still sets the active command when it turns to a step. A
  command submitted meanwhile is then out of the single-job check's sight, and a second one is
  admitted beside it. One job at a time survives exactly when the cancellation left that thread no
  step to turn to (`CancelKeepsSingleJobExactly`).
- A sequence can end with steps that are not over. After an authorised confirmation all steps are over
  exactly when the loop got through them, or stopped at the last one with a result
  (`StepsOverExactly`); after expiry or rejection exactly when there are none (`ExpiryLeavesSteps`,
  `RejectionLeavesSteps`). With calls taken one at a time no step is sent after that all the same
  (`NoSendAfterSequenceOver`).
- An exception that escapes the sequence parser leaves the new sequence at PARSING without steps, and
  it stays the active job until it is cancelled (`PlanSequenceInv`).
- An exception that escapes the adapter leaves the record at EXECUTION_REQUESTED, and its sequence at
  EXECUTING: the job stays active until it is cancelled (`AuthorisedConfirmExactly`, `RunStepsCore`).
- An acquire from the holder's own session under another operator displaces the holder without force
  and without a reason (`SameSessionTakeover`). It is also the one displacement that leaves the token
  alive: every other one shuts the displaced credentials out for good, while after this one they are
  accepted again once the first operator acquires again (`ShutOutExactly`).
- `cancel_sequence` accepts a sequence that is already over and then touches no step. After an accepted
  call every step is over exactly when the sequence was not, or its steps already were
  (`AcceptedCancelEndsStepsExactly`). A call that comes after the window has lapsed expires the
  sequence itself, is accepted, and leaves every step waiting (`LateCancelLeavesSteps`).
- The panel's telemetry state ignores no source, the command gate ignores some. They disagree exactly
  when the state is STALE on account of nothing but ignored sources (`PanelDisagreesExactly`); with the
  shipped adapter a stale gateway alone does it (`StaleGatewayDisagrees`).
- Two requests confirming one command at once: at most one hands it over, and the other raises exactly
  when it gets past its gate after the first has confirmed (`AtMostOneHandsOver`).
- A preflight that refuses without giving a reason does not block (`CommandGateExactly`).
- A snapshot may repeat a name. A refresh then keeps the log true to that name exactly when it is
  skipped, or the name's last value differs from the previous snapshot's, or all its entries agree
  with it (`RefreshExactly`, `ReplayKeptExactly` over runs, `RepeatedNameBreaks` for the failing
  family). The shipped adapter never repeats a name, so its log always replays (`AdapterLogIsLive`).
- A name that disappears keeps its last value in the log (`VanishedStays`).
- The repetition limit of 100 is on each repeat node, not on the sequence (`NestedReachesBound`).
- The interpolated threshold is missing under "clamp", which is documented to use the nearest
  endpoint, when a single breakpoint is hit exactly (`DefinedExactly`), and depends on the listing
  order exactly when two limits are given for one distance (`OrderIndependentExactly`).
- A temporal tracker with a window of zero divides by zero in some run exactly when its hit threshold is
  not positive and its miss tolerance not negative (`ZeroWindowExactly`); with a negative window every
  frame that has a track raises while it trims the first one (`UpdateTracks`).
- A negative sigma makes outlier rejection keep no more than `min_samples` (`HalfKeptExactly`).

## Model

| member | source | states |
|---|---|---|
| Lifecycle.TransitionsExactly | hmi/backend/domain/state_machine.py:21-65 | A record moves one place on, or ends; from which places each of the five ends is allowed. |
| Lifecycle.PathShape | hmi/backend/domain/state_machine.py:21-65 | A contiguous audit path has at most eight rows, its rank rises strictly, and only its last row can be terminal. |
| Lifecycle.ExecutingWasConfirmed | hmi/backend/domain/state_machine.py:21-65 | A path reaches EXECUTING only through NEEDS_CONFIRMATION, CONFIRMED and EXECUTION_REQUESTED, in this order, immediately before. |
| SessionLock.SessionLockService.AcquireController | hmi/backend/services/session_lock_service.py:39-86 | The object's acquire has exactly the model's effect and answer: refusal, takeover with a reason, extension, or a fresh token. |
| SessionLock.SessionLockService.RenewLease | hmi/backend/services/session_lock_service.py:88-110 | Renewal extends the slot's lease only for its session, operator and token. |
| SessionLock.SessionLockService.ReleaseLease | hmi/backend/services/session_lock_service.py:112-127 | Release empties the slot only for its owner; an empty slot is released by anyone. |
| SessionLock.SessionLockService.AssertOwner | hmi/backend/services/session_lock_service.py:129-149 | The check purges an expired lease first and then compares session, operator and token. |
| SessionLock.AcquireAnswers | hmi/backend/services/session_lock_service.py:39-86 | An acquire is refused if and only if another session holds a lease in time and is not forced aside with a reason; the granted lease, token and deadline in every case. |
| SessionLock.RenewAnswers | hmi/backend/services/session_lock_service.py:88-110 | A renewal is granted if and only if the caller is the owner of a lease in time; each refusal by the first field that differs. |
| SessionLock.ReleaseAnswers | hmi/backend/services/session_lock_service.py:112-127 | A release succeeds if and only if the slot is empty or the caller the owner, and does not look at the clock. |
| SessionLock.AssertAnswers | hmi/backend/services/session_lock_service.py:129-149 | The check grants if and only if the caller presents the owner's session, operator and token in time. |
| SessionLock.DeadTokenStaysDead | hmi/backend/services/session_lock_service.py:29-149 | Over every run with a nondecreasing clock a token that is not live, its lease run out or out of the slot, is never accepted again by renew or assert_controller. |
| SessionLock.DisplacedTokenLivesExactly | hmi/backend/services/session_lock_service.py:39-127 | A call that displaces a live holder leaves the holder's token live if and only if it is an acquire of the holder's own session and the time to live is positive. |
| SessionLock.ShutOutExactly | hmi/backend/services/session_lock_service.py:29-149 | The displaced holder's renewals and checks are refused in every continuation with a nondecreasing clock if and only if the displacing call was not such an acquire. |
| SessionLock.DisplacedExactly | hmi/backend/services/session_lock_service.py:39-127 | A live holder loses its lease in a call if and only if the call is its own release, a forced takeover with a reason, or an acquire of its session under another operator. |
| SessionLock.TimelyHolderKeepsLease | hmi/backend/services/session_lock_service.py:29-110 | A holder that refreshes at gaps shorter than the time to live keeps its token over every run without a displacing call. |
| SessionLock.SameSessionTakeover | hmi/backend/services/session_lock_service.py:64-73 | An acquire of the holder's session by another operator takes the lease over without force or reason, and the holder's renewal is refused. |
| Validation.ValidateCommand | hmi/backend/services/supervisor_validation.py:282-406 | The validator collects exactly the blocking reasons, in order and before duplicates are dropped, and accepts when there are none. |
| Validation.CommandGateExactly | hmi/backend/services/supervisor_validation.py:282-436 | The gate lets a command through if and only if it has an intent, mode and runtime agree, nothing blocks, every active source outside the ignored names is fresh, and the preflight accepts or gives only ignorable reasons. |
| Validation.SubmissionGateExactly | hmi/backend/services/supervisor_validation.py:282-436 | At submission: an intent, SIM or HARDWARE as the runtime has it, none of four states, every active source fresh but for seven named ones, and a preflight that accepts or whose every reason contains one of four names. |
| Validation.ExecutionGateExactly | hmi/backend/services/supervisor_validation.py:282-436 | Before execution: the same with five names, and any reason of a refusing preflight blocks. |
| Validation.SequenceGateExactly | hmi/backend/services/supervisor_lifecycle.py:456-511 | For a sequence: the same with three names. |
| Validation.ExecutionGateIsStricter | hmi/backend/services/supervisor_validation.py:408-436 | On the same readings the gate run again before execution implies the gate run at submission. |
| Validation.SequenceGateIsStrictest | hmi/backend/services/supervisor_lifecycle.py:456-585 | On the same readings the sequence gate implies both command gates. |
| SupervisorInvariants.MoveCore | hmi/backend/services/supervisor_lifecycle.py:375-452 | An allowed transition to a state that is not terminal keeps every invariant: audit rows, dispatch log, families, single job, final states. |
| SupervisorInvariants.CloseCore | hmi/backend/services/supervisor_lifecycle.py:375-452 | So does writing a terminal final state followed by its transition, which ends the record with both equal. |
| SupervisorCalls.ConfirmInternalCore | hmi/backend/services/supervisor_execution.py:147-418 | An execution attempt on a waiting record: a shut gate changes nothing; an open one sends it once, unless it is a pose query, and ends it as reported, or leaves it at EXECUTION_REQUESTED when the service call raises. |
| SupervisorCalls.QueryPoseCore | hmi/backend/services/supervisor_execution.py:430-541 | A pose query ends SUCCEEDED or FAILED by what the service knows, is never sent, and only an escaping exception leaves the record as it was. |
| SequenceRuns.FirstStop | hmi/backend/services/supervisor_lifecycle.py:145-201 | The stopping position: all steps before it succeed and, if it is a step, it does not. |
| SequenceRuns.RunStepsCore | hmi/backend/services/supervisor_lifecycle.py:145-232 | The loop executes an ordered prefix: steps before the stop end SUCCEEDED, the stopping step decides the sequence's state, final state and recovery flag, later steps are untouched, and exactly the steps handed over appear in the dispatch log. |
| SequenceRuns.RecoveryReadsPlan | hmi/backend/services/supervisor_lifecycle.py:160-171 | The manual-recovery flag is raised if and only if an IO_SET step lies at or before the stop. |
| CallEffects.SweepInv | hmi/backend/services/supervisor_lifecycle.py:657-711 | The expiry sweep expires exactly the waiting top-level records whose window has closed and keeps the invariant. |
| CallEffects.CheckWaitingInv | hmi/backend/services/supervisor_lifecycle.py:62-76 | The confirmation checks change nothing when they pass, and passing means waiting, window open and fingerprint equal. |
| CallAnswers.EnterExactly | hmi/backend/services/supervisor_lifecycle.py:41-43 | Every confirm and cancel call is forbidden without the live lease or on somebody else's record, not found on an unknown id, and otherwise let in; before that it does nothing but the sweep, stated on the records' fields. |
| CallAnswers.RefusedConfirmCommand | hmi/backend/services/supervisor_lifecycle.py:41-70 | What a confirmation of a command that does not take effect answers, and the one record it may expire. |
| CallAnswers.StepGateExactly | hmi/backend/services/supervisor_execution.py:147-211 | The gate of an execution attempt, on the fields it reads. |
| CallAnswers.PoseQueryExactly | hmi/backend/services/supervisor_execution.py:420-428 | A pose query is one by its normalised primitive, or by its action where nothing was normalised. |
| CallAnswers.AttemptFinalExactly | hmi/backend/services/supervisor_execution.py:287-541 | Which answer of the adapter or of the pose service leads to which final state. |
| CallEffects.ConfirmCommandInv | hmi/backend/services/supervisor_lifecycle.py:30-76 | Confirming a command keeps the invariant, never raises the invalid-transition error, and sends at most that command, only when authorised and gated. |
| CallEffects.AuthorisedConfirmExactly | hmi/backend/services/supervisor_execution.py:147-418 | The exact end of an authorised command, its reply and its send, for every gate reading and every answer of the adapter. |
| CallEffects.RaisesExactly | hmi/backend/services/supervisor_execution.py:305-399 | Without the adapter's contract the invalid-transition error is raised if and only if an authorised, gated request that is not a pose query is reported successful though it never reached ROS. |
| CallEffects.ConfirmSequenceInv | hmi/backend/services/supervisor_lifecycle.py:78-232 | Confirming a sequence keeps the invariant; authorised, it runs the ordered prefix and leaves every other record alone; otherwise nothing is sent. |
| CallAnswers.ConfirmSequenceAnswers | hmi/backend/services/supervisor_lifecycle.py:145-232 | An authorised confirmation of a sequence is accepted if and only if every step passes its gate and succeeds, crashes if and only if a service call of the stopping step raises, and is declined at every other stop. |
| CallAnswers.ConfirmSequenceLeaves | hmi/backend/services/supervisor_lifecycle.py:157-232 | The sequence's state and final state after the loop; manual recovery is asked for if and only if a step at or before the stop had IO_SET for its action. |
| CallAnswers.RefusedConfirmSequence | hmi/backend/services/supervisor_lifecycle.py:90-108 | What a confirmation of a sequence that does not take effect answers, and the one record it may expire. |
| CallEffects.SequenceSucceedsWithItsSteps | hmi/backend/services/supervisor_lifecycle.py:157-232 | A confirmed sequence is SUCCEEDED if and only if all its steps are. |
| CallEffects.StepsOverExactly | hmi/backend/services/supervisor_lifecycle.py:145-232 | After an authorised confirmation every step is over if and only if the loop passed all of them or stopped at the last one with its gate open and its service call returned. |
| CallEffects.ExpiryLeavesSteps | hmi/backend/services/supervisor_lifecycle.py:657-711 | A sequence that expires leaves its steps waiting as they were, so they are over if and only if there are none. |
| CallEffects.CancelCommandInv | hmi/backend/services/supervisor_lifecycle.py:234-288 | Cancelling a command keeps the invariant, sends nothing and raises nothing; an accepted call comes from the live owner, ends the record CANCELLED unless it was over, and changes no other record. |
| CallAnswers.CancelCommandAnswers | hmi/backend/services/supervisor_lifecycle.py:234-288 | Each answer of cancel_command if and only if: accepted for the owner's record that is no step and is over, not in flight, or aborted; a refusal leaves all but the sweep alone. |
| CallEffects.CancelSequenceInv | hmi/backend/services/supervisor_lifecycle.py:290-355 | A cancellation keeps the invariant, sends nothing and raises nothing; accepted for a sequence that is not over, it leaves the sequence and every step terminal, steps that were over keeping their outcome, all else unchanged. |
| CallAnswers.CancelSequenceAnswers | hmi/backend/services/supervisor_lifecycle.py:290-355 | Each answer of cancel_sequence if and only if: accepted for the owner's sequence that is over, whose active step is not in flight, or whose abort succeeds; a refusal leaves all but the sweep alone. |
| CallEffects.AcceptedCancelEndsStepsExactly | hmi/backend/services/supervisor_lifecycle.py:303-355 | After an accepted cancellation every step is over if and only if the sequence was not over when the call entered, or all its steps were; over, it is left as it is. |
| CallEffects.LateCancelLeavesSteps | hmi/backend/services/supervisor_lifecycle.py:300-312 | The failing input: the owner's cancellation of a sequence with steps whose window has lapsed is accepted, the sequence is EXPIRED and every step still waits. |
| Submissions.IdleMeansNoJob | hmi/backend/services/supervisor_service.py:406-427 | When the single-job check passes, no parentless record is non-terminal: looking only at the two active ids is enough. |
| SubmissionAnswers.JobActiveExactly | hmi/backend/services/supervisor_service.py:406-427 | The single-job check refuses if and only if some record without a parent is not over. |
| SubmissionAnswers.IntakeExactly | hmi/backend/services/supervisor_submission.py:103-141 | A request adds a record if and only if it has an input, not both text and a quick command, the live lease, no open job after the sweep, and routing does not raise unless it is structured. |
| SubmissionAnswers.TurnedDown | hmi/backend/services/supervisor_submission.py:103-141 | Any other request leaves nothing but the sweep and is answered by the first test it fails. |
| SubmissionAnswers.RejectedRequest | hmi/backend/services/supervisor_submission.py:123-205 | An admitted structured or unresolved request becomes one REJECTED record and is declined. |
| SubmissionAnswers.SingleCommandAnswers | hmi/backend/services/supervisor_submission.py:390-627 | The record an admitted single command leaves, field by field, and its answer: waiting and accepted behind an open gate, ended at once for a pose query, rejected and declined otherwise. |
| SubmissionAnswers.AutoCommandAnswers | hmi/backend/services/supervisor_submission.py:390-627 | In SIM with auto-confirmation the waiting command is attempted in the same call; its record and answer for every gate reading and result. |
| SubmissionAnswers.SequenceTurnedDown | hmi/backend/services/supervisor_submission.py:645-860 | A sequence that is not parsed or finds a gate shut ends REJECTED and declined with its steps at VALIDATING, one whose parser raises stays at PARSING. |
| SubmissionAnswers.SequenceAnswers | hmi/backend/services/supervisor_submission.py:645-914 | Behind open gates the parsed intents wait in order under one sequence, field by field, and the answer is accepted, or that of the automatic confirmation by its own fingerprint. |
| Submissions.RejectSubmissionInv | hmi/backend/services/supervisor_submission.py:295-362 | A rejected submission adds exactly one record, ended REJECTED, changes no other, and keeps the invariant. |
| Submissions.PlanSingleInv | hmi/backend/services/supervisor_submission.py:390-612 | A single command that ends up waiting has passed the gate and carries its intent, fingerprint and window; since its parser catches everything, only the pose query can raise. |
| Submissions.SubmitSingleInv | hmi/backend/services/supervisor_submission.py:390-627 | Submitting one command sends nothing, or the command itself in SIM with auto-confirmation on and behind both gates. |
| Submissions.PlanSequenceInv | hmi/backend/services/supervisor_submission.py:645-900 | Planning a sequence keeps the invariant through every insertion and every write to a step; waiting means every gate passed; a parser that raises leaves the bare record at PARSING as the active job. |
| PlannedSequences.PlanWaitsAsParsed | hmi/backend/services/supervisor_submission.py:645-914 | When every gate passes, exactly the parsed intents wait, in order, under one sequence, each with its own fingerprint and all in one window, and older records are as they were. |
| PlannedSequences.RejectionLeavesSteps | hmi/backend/services/supervisor_submission.py:768-900 | When some gate is shut the sequence ends REJECTED and each parsed step stays at VALIDATING with the verdict on its own plan, so the steps are over if and only if there are none. |
| Submissions.SubmitSequenceInv | hmi/backend/services/supervisor_submission.py:645-914 | Submitting a sequence sends nothing, or what the authorised confirmation of the planned sequence sends. |
| SupervisorRuns.PollAnswers | hmi/backend/services/supervisor_service.py:294-356 | A poll sweeps and does nothing else. |
| SupervisorRuns.LeaseCallAnswers | hmi/backend/services/supervisor_service.py:206-286 | A lease call writes the lock alone; each answer if and only if: an acquire conflicts while acquiring is switched off, a refused acquire is declined, a refused renewal or release is forbidden. |
| SupervisorRuns.RunInv | hmi/backend/services/supervisor_service.py:63-96 | The invariant holds after every honest run of submit, confirm, cancel, poll and lease calls. |
| SupervisorRuns.NoInvalidTransition | hmi/backend/domain/state_machine.py:68-76 | After any run no call raises the invalid-transition error or misses a record it looks up. |
| SupervisorRuns.OneActiveJob | hmi/backend/services/supervisor_service.py:406-427 | In every reachable state at most one parentless record is non-terminal, and it is the one named as active sequence, or as active command with no active sequence. |
| SupervisorRuns.AtMostOnce | hmi/backend/services/supervisor_execution.py:277-286 | Over any run no record is handed to ROS twice. |
| SupervisorRuns.EverySendEntitled | hmi/backend/services/supervisor_lifecycle.py:41-157 | Every send of a run happened in a call that did it, no earlier one having, and was entitled to it: lease, ownership, waiting top-level record, open window, equal fingerprint and gate, or an auto-confirmed SIM submission. |
| SupervisorRuns.NoSendAfterSequenceOver | hmi/backend/services/supervisor_lifecycle.py:145-232 | No step is handed to ROS after its sequence has been audited terminal. |
| SupervisorRuns.AuditTellsTheTruth | hmi/backend/services/supervisor_lifecycle.py:375-452 | The audit rows of every record form a rising path of at most eight rows ending in its state, and its final state agrees with it. |
| Interleaving.TerminalIsAbsorbing | hmi/backend/services/supervisor_lifecycle.py:78-355 | In every interleaving of a sequence's confirmation with cancellations a record that is over keeps its state and gains no audit row. |
| Interleaving.CancelSequenceStops | hmi/backend/services/supervisor_lifecycle.py:290-355 | After an effective cancellation every step and the sequence are over in every continuation, and the only later send is that of a step already walked to EXECUTION_REQUESTED but not yet handed over. |
| Interleaving.SequenceCancelIsTheCall | hmi/backend/services/supervisor_lifecycle.py:290-355 | The cancellation turn of the interleaved model is what cancel_sequence does once it is let in. |
| Interleaving.CommandCancelIsTheCall | hmi/backend/services/supervisor_lifecycle.py:234-288 | The other one is what cancel_command does. |
| CancelledByCommand.NextStepSentExactly | hmi/backend/services/supervisor_lifecycle.py:145-288 | Cancelling a running sequence's id as a command ends its record, and the thread's next two stages send the step before it if and only if the gate opens and it is no pose query. |
| CancelledByCommand.CancelByCommandStopsExactly | hmi/backend/services/supervisor_lifecycle.py:145-288 | After such a cancellation some continuation sends something if and only if a step that is no pose query lies ahead of the thread; if none does, no continuation sends anything. |
| WaitingRecords.RunWaiters | hmi/backend/services/supervisor_submission.py:390-914 | After every honest run each waiting command has an intent and a mode with which some reading opens its gate. |
| Confirmations.ConfirmationStarts | hmi/backend/services/supervisor_lifecycle.py:78-157 | In every reachable state an authorised confirmation of a sequence starts a thread that is under way, the one job, with its next step unfinished, and the atomic call is that thread's undisturbed run. |
| Confirmations.ReachableIsUnderway | hmi/backend/services/supervisor_lifecycle.py:145-355 | In every interleaving of such a confirmation with cancellations it stays the named job and under way with its next step unfinished, until its sequence is over. |
| CancelledByCommand.RunningIsUnderway | hmi/backend/services/supervisor_lifecycle.py:145-355 | In every interleaving of stages and cancellations a thread that is under way stays so until its sequence is over. |
| StageFrames.HandOversRise | hmi/backend/services/supervisor_lifecycle.py:145-157 | In every interleaving the thread hands its steps over at strictly rising positions from its place on, so distinct steps at most once. |
| DelayedCancels.DelayedSequenceCancelRaisesExactly | hmi/backend/services/supervisor_lifecycle.py:303-355 | The writes of a sequence cancellation that waited for its abort raise if and only if some turn during the wait ended the sequence; all steps are over and the final state says CANCELLED either way. |
| DelayedCancels.SequenceFinalKeptExactly | hmi/backend/services/supervisor_lifecycle.py:157-232 | The thread of a cancelled sequence overwrites its final state if and only if it finds all steps done, finds a gate shut, or takes a step's failure. |
| StaleThreads.SingleJobSurvivesExactly | hmi/backend/services/supervisor_service.py:406-427 | With submissions admitted beside the thread of a sequence that is over, there is at most one job in every continuation if and only if that thread will turn to no further step. |
| StaleThreads.CancelKeepsSingleJobExactly | hmi/backend/services/supervisor_lifecycle.py:145-157 | A cancellation keeps the single-job check sound for later submissions if and only if the thread is not before a step and, for a cancellation as a command, not in a step that has a successor. |
| Interleaving.AloneIsAtomic | hmi/backend/services/supervisor_lifecycle.py:145-232 | Undisturbed, the staged thread leaves exactly the state of the atomic sequence confirmation. |
| CommandInterleaving.CommandOverIsOver | hmi/backend/services/supervisor_execution.py:213-399 | In every interleaving of a command's confirmation with cancel requests a record that is over keeps its state and its audit rows. |
| CommandInterleaving.CancelCommandStops | hmi/backend/services/supervisor_lifecycle.py:259-277 | After an effective cancellation the command is CANCELLED in every continuation, a late success included, with at most the one send stated. |
| CommandInterleaving.DelayedCancelRaisesExactly | hmi/backend/services/supervisor_lifecycle.py:259-277 | The write of a cancel call that waited for its abort raises if and only if the thread's result lands during the wait or another cancel request takes effect; the record then keeps its state under a final state CANCELLED. |
| CommandInterleaving.FinalStateKeptExactly | hmi/backend/services/supervisor_execution.py:287-541 | A late answer leaves the final state of a cancelled command alone if and only if the command is a pose query or the answer raises, reached ROS, or is itself a cancellation. |
| CommandInterleaving.UndisturbedIsAtomic | hmi/backend/services/supervisor_execution.py:147-399 | Three undisturbed stages are the atomic confirmation. |
| Duels.AtMostOneHandsOver | hmi/backend/services/supervisor_execution.py:147-399 | In every interleaving of two requests that confirm one waiting command at most one walks it on and hands it over, and the other is refused by the transition if and only if it gets past its gate after the first has confirmed. |
| Duels.FirstToTryWalks | hmi/backend/services/supervisor_execution.py:213-262 | A request past its gate confirms the command if and only if the other has not, and otherwise raises and changes nothing. |
| Duels.AloneIsTheAttempt | hmi/backend/services/supervisor_execution.py:147-399 | One of the two requests alone is the atomic confirmation. |
| SupervisorService.SupervisorService.Transition | hmi/backend/services/supervisor_lifecycle.py:375-452 | The one lifecycle write: checks the table, sets the state, appends the audit row, and touches nothing else. |
| SupervisorService.SupervisorService.RecordResult | hmi/backend/services/supervisor_execution.py:287-399 | Recording the adapter's answer has the model's effect write by write, with the fault at the write that raises. |
| SupervisorService.SupervisorService.QueryPoseNow | hmi/backend/services/supervisor_execution.py:430-541 | The pose query on the object is the model's. |
| SupervisorService.SupervisorService.ConfirmRecord | hmi/backend/services/supervisor_execution.py:147-211 | Re-running the gate and executing is the model's confirmation attempt. |
| SupervisorService.SupervisorService.ExpirePendingConfirmations | hmi/backend/services/supervisor_lifecycle.py:657-711 | Collecting and then closing the overdue records is the model's sweep. |
| SupervisorService.SupervisorService.ConfirmCommandCall | hmi/backend/services/supervisor_lifecycle.py:30-76 | The call's new state and reply are the model's. |
| SupervisorService.SupervisorService.RunStepRecords | hmi/backend/services/supervisor_lifecycle.py:145-232 | The loop over the step records is the model's recursion over the steps. |
| SupervisorService.SupervisorService.ConfirmSequenceCall | hmi/backend/services/supervisor_lifecycle.py:78-232 | The call's new state and reply are the model's. |
| SupervisorService.SupervisorService.CancelCommandCall | hmi/backend/services/supervisor_lifecycle.py:234-288 | The call's new state and reply are the model's. |
| SupervisorService.SupervisorService.CancelSequenceCall | hmi/backend/services/supervisor_lifecycle.py:290-355 | The call's new state and reply are the model's. |
| SupervisorService.SupervisorService.PlanSingleCommand | hmi/backend/services/supervisor_submission.py:390-612 | Receiving, parsing, validating and opening the window of a new record object is the model's plan. |
| SupervisorService.SupervisorService.AddStepRecords | hmi/backend/services/supervisor_submission.py:768-826 | The loop that creates, lists, inserts and walks the step records is the model's. |
| SupervisorService.SupervisorService.JudgeSequenceRecords | hmi/backend/services/supervisor_submission.py:841-900 | Validating sequence and steps, rejecting, or opening the window for all of them is the model's. |
| SupervisorService.SupervisorService.SubmitIntent | hmi/backend/services/supervisor_submission.py:89-237 | The intake of every request has the model's new state and reply, routing and sequence parsing that raise included. |
| SupervisorService.SupervisorService.ServeAll | hmi/backend/services/supervisor_service.py:63-96 | Whole runs of the object are runs of the model. |
| CommandDispatch.CommandDispatcher.ConfirmCommand | hmi/backend/ros/command_dispatch.py:29-204 | The adapter's answer is the stated one for every environment, escaping exceptions included, and no goal-table entry outlives the dispatch that made it. |
| CommandDispatch.CommandDispatcher.SendGoal | hmi/backend/ros/command_dispatch.py:535-646 | While the result is awaited the goal tables hold the command's entry if and only if the server took the goal; otherwise the answer is final and the tables are as they were. |
| CommandDispatch.CommandDispatcher.AbortCommand | hmi/backend/ros/command_dispatch.py:206-253 | An abort succeeds if and only if no goal is under way for the command, or the server answers that it is cancelling a goal; an exception of the request is a refusal. |
| CommandDispatch.ContractOfConfirm | hmi/backend/ros/command_dispatch.py:535-763 | An accepted goal is always answered; success and cancellation are reported only for requests that reached ROS, blocked ones never did, accepted means succeeded, and reaching ROS is exactly a goal accepted or a factory task run. |
| CommandDispatch.StatusTellsTheResult | hmi/backend/ros/command_dispatch.py:648-763 | The status of an accepted goal is succeeded if and only if the result says so, cancelled if and only if it does not and its message spells cancel in any case, failed otherwise. |
| CommandDispatch.UnacceptedAnswers | hmi/backend/ros/command_dispatch.py:29-640 | Which check's refusal, exception or failed hand-over gives which answer, and the factory task's status by its own reply. |
| CommandDispatch.SupervisorReads | hmi/backend/services/supervisor_execution.py:287-310 | What the supervisor reads from each of these answers. |
| CommandDispatch.AdapterIsHonest | hmi/backend/ros/command_dispatch.py:164-192 | The adapter meets the contract the supervisor's theorems assume. |
| TelemetryLog.FreshExactly | hmi/backend/services/telemetry_bridge_service.py:353-385 | The telemetry state is FRESH if and only if the transport is up and no active source is stale, none ignored; then the gate finds none stale either. |
| TelemetryLog.StatesExactly | hmi/backend/services/telemetry_bridge_service.py:353-385 | The transport by the first connection and the others, the telemetry state by the transport and the active sources, each if and only if. |
| TelemetryLog.ProjectionSays | hmi/backend/services/telemetry_bridge_service.py:406-468 | What the compared projection says of every channel. |
| TelemetryLog.ChangeReportedExactly | hmi/backend/services/telemetry_bridge_service.py:165-180 | A refresh reports a change, and replaces its base, if and only if something serialised differs. |
| TelemetryLog.PanelDisagreesExactly | hmi/backend/services/telemetry_bridge_service.py:353-385 | Telemetry state and command gate disagree on freshness if and only if the state is STALE and every stale active source is one the gate ignores. |
| TelemetryLog.StaleGatewayDisagrees | hmi/backend/ros/telemetry_snapshot.py:162-184 | With the shipped adapter's sources a stale gateway alone makes them disagree. |
| TelemetryLog.ReplayIsLatest | hmi/backend/services/telemetry_bridge_service.py:165-180 | From the baseline, replaying the log gives for every channel ever seen what the latest snapshot containing it says, skipped snapshots included. |
| TelemetryLog.ReplayIsLive | hmi/backend/services/telemetry_bridge_service.py:406-468 | The log replays to the live snapshot: transport, telemetry, runtime, every connection and every source. |
| TelemetryLog.SkippedLosesNothing | hmi/backend/services/telemetry_bridge_service.py:387-404 | Equal fingerprints mean equal projections. |
| TelemetryLog.VanishedStays | hmi/backend/services/telemetry_bridge_service.py:437-468 | A name that disappears leaves its channel at the last value it had. |
| TelemetryLog.ReplayExactly | hmi/backend/services/telemetry_bridge_service.py:406-468 | For any list of entries, repeated names included, replaying the changes recovers a name's value if and only if that value is new or every entry of the name agrees with the previous snapshot. |
| TelemetryLog.RefreshExactly | hmi/backend/services/telemetry_bridge_service.py:165-180 | One refresh keeps the log true to a name if and only if it is skipped, the name's last value differs from the base's, or all its entries agree with the base. |
| TelemetryLog.ReplayKeptExactly | hmi/backend/services/telemetry_bridge_service.py:165-180 | Over a run the log is true to a name after every refresh if and only if every refresh meets that check. |
| TelemetryLog.RepeatedNameBreaks | hmi/backend/services/telemetry_bridge_service.py:448-468 | A source listed with a changed entry and a last entry equal to the base's makes the log differ from the snapshot. |
| TelemetryLog.DuplicateNamesBreakReplay | hmi/backend/services/telemetry_bridge_service.py:448-468 | The smallest input of that family, with the value the log ends with. |
| TelemetryLog.AdapterLogIsLive | hmi/backend/ros/telemetry_snapshot.py:105-321 | The names the adapter reports are pairwise distinct, so over every run of its readings the log replays to the live snapshot. |
| TelemetryLog.TelemetryBridge.RefreshIfNeeded | hmi/backend/services/telemetry_bridge_service.py:165-180 | A refresh of the object is the model's: skip on equal fingerprints, else record the changes and replace the base. |
| TelemetryLog.TelemetryBridge.RecordStateChanges | hmi/backend/services/telemetry_bridge_service.py:406-468 | The three comparisons and two loops append exactly the rows of what changed. |
| TelemetryLog.BroadcastEvent | hmi/backend/services/telemetry_bridge_service.py:252-270 | Every subscriber is offered what the factory makes for it, and nobody else's queue changes. |
| TelemetryLog.QueueHoldsNewest | hmi/backend/services/telemetry_bridge_service.py:101-107 | A queue always holds the newest events, in order and without gaps, at most eight; a subscriber that lost none sees exactly what was sent. |
| RuntimePlan.UnrollPlan | hmi/backend/services/supervisor_sequence.py:425-507 | The recursion with its loop over children computes the plan's unrolling, errors included, and leaves the plan with the arguments of exactly the skills it converted written back. |
| RuntimePlan.UnrollAgain | hmi/backend/services/supervisor_sequence.py:478-499 | If converting written-back arguments gives what converting the original ones gave, unrolling the written-back plan gives the same steps or the same error and writes nothing new. |
| RuntimePlan.UnrollIsTrace | hmi/backend/services/supervisor_sequence.py:425-507 | Unrolling, which evaluates a repeated body once, equals the trace of a stack machine that evaluates it every time: same steps, same first error. |
| RuntimePlan.SucceedsExactly | hmi/backend/services/supervisor_sequence.py:432-507 | It succeeds if and only if every repetition is an integer from 1 to 100 over an object and every leaf converts, and the length is the number of leaves weighted by their repetitions. |
| RuntimePlan.LengthBound | hmi/backend/services/supervisor_sequence.py:462-476 | The length is at most the number of leaves times 100 to the power of the nesting depth. |
| RuntimePlan.NestedReachesBound | hmi/backend/services/supervisor_sequence.py:462-476 | That bound is reached by nested repetitions. |
| TemporalTracker.SearchExactly | src/gp4_perception/gp4_perception/temporal_tracker.py:116-128 | The match is the nearest eligible track within the jitter radius, the youngest of several; none if and only if none is near enough. |
| TemporalTracker.AbsorbAllCore | src/gp4_perception/gp4_perception/temporal_tracker.py:70-81 | Every detection touches exactly one track and no track is touched twice in a frame. |
| TemporalTracker.FrameCounts | src/gp4_perception/gp4_perception/temporal_tracker.py:70-87 | Before eviction exactly as many tracks have no miss as the frame had detections. |
| TemporalTracker.TracksAreFaithful | src/gp4_perception/gp4_perception/temporal_tracker.py:65-107 | A live track's bounded window is the end of its full history, its miss counter the trailing misses, and it is confirmed if and only if some past window held enough hits. |
| TemporalTracker.MemoryBound | src/gp4_perception/gp4_perception/temporal_tracker.py:65-107 | After every frame there are at most as many live tracks as detections fed in the last max(window, tolerance + 1) frames. |
| TemporalTracker.ThresholdAboveWindow | src/gp4_perception/gp4_perception/temporal_tracker.py:89-114 | With min_hits above the window nothing is ever emitted. |
| TemporalTracker.ZeroWindowExactly | src/gp4_perception/gp4_perception/temporal_tracker.py:34-114 | With a window of zero some run divides by zero if and only if min_hits is not positive and the tolerance is not negative. |
| TemporalTracker.EmittedExactly | src/gp4_perception/gp4_perception/temporal_tracker.py:99-114 | A detection is emitted if and only if it is the latest of a live track that once had enough hits in a window and has at most the tolerated misses since. |
| TemporalTracker.Tracker.UpdateTracks | src/gp4_perception/gp4_perception/temporal_tracker.py:50-114 | One frame on the track objects is the model's update and emission; a window of zero or less raises the stated exception and leaves the stated state. |
| TemporalTracker.Tracker.MatchTrack | src/gp4_perception/gp4_perception/temporal_tracker.py:116-128 | The loop over the objects finds the model's match. |
| VisualTracker.BlendBetween | src/gp4_perception/gp4_perception/visual_tracking.py:76-92 | For coordinates in the image and a weight from 0 to 1 the moving average stays between old and new value, and with a weight below 1 it never moves up by a single pixel. |
| VisualTracker.FollowBlends | src/gp4_perception/gp4_perception/visual_tracking.py:76-92 | A matched track becomes the detection at weight 1, stays at weight 0, and in between each of its coordinates lies between the two. |
| VisualTracker.FollowMoves | src/gp4_perception/gp4_perception/visual_tracking.py:76-92 | Confidence and distance move by exactly the weight's share of the way, coordinates by the whole pixels of it. |
| VisualTracker.SeekExactly | src/gp4_perception/gp4_perception/visual_tracking.py:60-73 | A track takes the admissible free detection with the highest score, the first of several; none if and only if none scores above -1. |
| VisualTracker.MatchIsBest | src/gp4_perception/gp4_perception/visual_tracking.py:56-73 | In terms of overlap and distance: the detection taken is of the track's class, overlaps enough or lies near enough, and has the largest of a thousand times the overlap less the distance; none is taken if and only if none of these exceeds -1000. |
| VisualTracker.EveryDetectionOnce | src/gp4_perception/gp4_perception/visual_tracking.py:56-117 | Every detection updates or creates exactly one track of its class; a track that took none has one more miss. |
| VisualTracker.LiveCount | src/gp4_perception/gp4_perception/visual_tracking.py:54-125 | After update exactly as many tracks have no miss as there were detections, if and only if the tolerance is not negative or the frame matched no confirmed track. |
| VisualTracker.SurvivesExactly | src/gp4_perception/gp4_perception/visual_tracking.py:93-125 | A live track survives a frame if and only if it keeps matching up to its max(min_hits, 2)-th frame and never misses more than tolerated after it. |
| VisualTracker.TracksAreFaithful | src/gp4_perception/gp4_perception/visual_tracking.py:54-125 | A live track was matched in every frame up to its threshold and is confirmed exactly from its threshold-th match in a row on. |
| VisualTracker.EmittedExactly | src/gp4_perception/gp4_perception/visual_tracking.py:127-135 | A detection is shown if and only if it is the latest of a live track past its threshold, marked held while misses run. |
| VisualTracker.MemoryBound | src/gp4_perception/gp4_perception/visual_tracking.py:119-125 | There are never more live tracks than detections in the last tolerance + 1 frames. |
| VisualTracker.Tracker.UpdateTracks | src/gp4_perception/gp4_perception/visual_tracking.py:54-135 | One frame on the track objects is the model's update and emission. |
| VisualTracker.Tracker.MatchTracks | src/gp4_perception/gp4_perception/visual_tracking.py:54-101 | The nested loops over tracks and free detections compute the model's sweep. |
| Boxes.IouBounds | src/gp4_perception/gp4_perception/detection_visualizer.py:99-111 | The overlap ratio is symmetric, between 0 and 1, and 0 if and only if nothing overlaps. |
| Boxes.OverlapCountsPixels | src/gp4_perception/gp4_perception/detection_visualizer.py:99-111 | The overlap is the number of shared pixels, the ratio that of shared to covered pixels. |
| Boxes.InsideMeansPixels | src/gp4_perception/gp4_perception/detection_visualizer.py:123-127 | A box lies inside another if and only if all its pixels do. |
| Boxes.CenterExactly | src/gp4_perception/gp4_perception/detection_visualizer.py:114-120 | The center test in whole half pixels, edges included. |
| Boxes.InsideImpliesCenter | src/gp4_perception/gp4_perception/detection_visualizer.py:114-127 | A box inside another has its center there, so the inside rule adds nothing to the center rule. |
| Suppression.PriorityExactly | src/gp4_perception/gp4_perception/detection_visualizer.py:206-212 | A listed class has the priority of its last listing, and every listed class comes before every unlisted one. |
| Suppression.SortCore | src/gp4_perception/gp4_perception/detection_visualizer.py:206-215 | The order by priority and confidence is an ordered permutation that keeps equal keys in their order. |
| Suppression.UniqueKernel | src/gp4_perception/gp4_perception/detection_visualizer.py:217-239 | The kept positions are the one set that is conflict-free and in which every dropped candidate conflicts with a kept one earlier in the order. |
| Suppression.ConflictExactly | src/gp4_perception/gp4_perception/detection_visualizer.py:226-236 | The limit for one class applies to candidates of one class, the other to candidates of two. |
| Suppression.PairSuppressedExactly | src/gp4_perception/gp4_perception/detection_visualizer.py:241-276 | A candidate falls to a pair rule if and only if another kept one of the rule's class meets one of the tests the rule asks for. |
| Suppression.Idempotent | src/gp4_perception/gp4_perception/detection_visualizer.py:190-276 | Suppressing twice is suppressing once. |
| Suppression.NmsOutput | src/gp4_perception/gp4_perception/detection_visualizer.py:214-276 | The output is in order, free of conflicts and free of pair suppression. |
| Suppression.OutputPairs | src/gp4_perception/gp4_perception/detection_visualizer.py:206-239 | Of two candidates in the output the earlier has the better priority, or the same and at least the confidence, and they overlap by no more than their limit. |
| Suppression.DroppedForAReason | src/gp4_perception/gp4_perception/detection_visualizer.py:214-276 | Every dropped candidate conflicts with an earlier kept one or is suppressed by another kept one under a pair rule. |
| Suppression.CrossClassNms | src/gp4_perception/gp4_perception/detection_visualizer.py:190-276 | The nested loops with their suppressed set compute the two-stage suppression. |
| OutlierRejection.HalfAtMostMedian | src/gp4_perception/gp4_perception/calibration.py:417-420 | At least half of the values, rounded up, do not exceed the median. |
| OutlierRejection.KeptAreLowest | src/gp4_perception/gp4_perception/calibration.py:417-428 | On either path no kept sample has a larger error than a rejected one, no sample within the threshold is rejected, and with a non-negative sigma no sample up to the median error is. |
| OutlierRejection.WithinExactly | src/gp4_perception/gp4_perception/calibration.py:417-421 | A sample is within the threshold if and only if its error exceeds the median by at most sigma times the median distance from it, at least a millionth. |
| OutlierRejection.KeptCount | src/gp4_perception/gp4_perception/calibration.py:417-428 | The number of kept samples, exactly. |
| OutlierRejection.HalfKeptExactly | src/gp4_perception/gp4_perception/calibration.py:417-428 | Half of the samples is guaranteed for all errors if and only if sigma is not negative or min_samples is already that many. |
| OutlierRejection.SelectedInOrder | src/gp4_perception/gp4_perception/calibration.py:430-432 | The result is an order-preserving subsequence of the samples. |
| OutlierRejection.RejectionIsRobust | src/gp4_perception/gp4_perception/calibration.py:364-432 | With enough samples and a non-negative sigma at least max(min_samples, half) are kept, the counts add up, and kept errors do not exceed rejected ones. |
| OutlierRejection.RejectOutlierSamples | src/gp4_perception/gp4_perception/calibration.py:364-432 | The loops that fill the errors and rewrite the mask in place compute the rejection. |
| SafetyGuards.InterpolateThreshold | src/gp4_perception/gp4_perception/safety_guards.py:63-93 | The sorted copy, the range checks and the loop with early returns compute the threshold. |
| SafetyGuards.DefinedExactly | src/gp4_perception/gp4_perception/safety_guards.py:63-93 | When a threshold exists, for every list, distance and mode. |
| SafetyGuards.LiesBetween | src/gp4_perception/gp4_perception/safety_guards.py:85-93 | Inside the range the threshold lies between the limits of two neighbouring breakpoints that enclose the distance. |
| SafetyGuards.LinearInside | src/gp4_perception/gp4_perception/safety_guards.py:85-93 | Inside a segment the threshold is the same share of the way between the limits as the distance is between the breakpoints. |
| SafetyGuards.OrderIndependentExactly | src/gp4_perception/gp4_perception/safety_guards.py:76-93 | The threshold is independent of the listing order if and only if breakpoints at one distance agree. |
| SafetyGuards.FirstListedWins | src/gp4_perception/gp4_perception/safety_guards.py:76-93 | At the distance of the first listed of two or more breakpoints the threshold is that breakpoint's limit. |
| SafetyGuards.ThresholdMonotone | src/gp4_perception/gp4_perception/safety_guards.py:63-93 | Where limits rise with the distance, the threshold does, wherever it exists. |
| SafetyGuards.QualityOnlyWorsens | src/gp4_perception/gp4_perception/safety_guards.py:118-157 | More noise never improves the tier; where limits rise with the distance, nor does coming nearer, unless the nearer point alone has a threshold. |
| SafetyGuards.NearerIsNoBetterExactly | src/gp4_perception/gp4_perception/safety_guards.py:118-157 | Where limits rise, coming nearer never improves the tier at any noise if and only if the farther point has a threshold whenever the nearer one has. |
| SafetyGuards.GoodExactly | src/gp4_perception/gp4_perception/safety_guards.py:96-141 | The top tier is the noise check under the same extrapolation, and under their defaults the two differ exactly outside the range. |
| SafetyGuards.TiersExactly | src/gp4_perception/gp4_perception/safety_guards.py:96-157 | Each tier if and only if, and the noise check with it. |

## Left out

- Message text, chat history, traces, console events and the serialised responses: no lifecycle effect.
- The fields `execution_result`, `reject_reason`, `confirm_at`, `execute_at`, risk level, planner and frame of a command record: written, never read back by a modelled decision.
- The lease's id, role and takeover text, and the last controller: they do not enter any check.
- The router, the normaliser and the sequence parser, blended sequences and return-to-start steps: what a request resolves to is an arbitrary parameter.
- Exceptions raised by the audit database, or while the supervisor reads the runtime, the sensors or the preflight: rows and upserts always succeed, and readings are values.
- The servo start and hold calls of the supervisor: they touch no command record.
- Two submissions at once: the single-job check and the insertion are not under one lock in the code, so an admission is one step here; `StaleThreads` interleaves admissions with everything else.
- Physical motion after an abort: without a goal handle an abort answers success and says nothing about the robot.
- The timeouts and futures of the dispatcher and the contents of its payload: a timeout is a failure, a payload builds, is refused or raises.
- SupervisorService.SupervisorService.SubmitIntent: the cursor of a sequence is rewound after its steps are inserted, not before; nothing reads it in between.
- TelemetryLog.ReplayIsLatest: the fingerprint is the tuple of what is serialised, so JSON encoding is taken to be injective; timestamps and topics are outside the comparison, as in the code.
- RuntimePlan.UnrollPlan: a node object that occurs twice in the tree is two nodes here; the conversion of a leaf, hydration included, and the arguments it writes back are functions of the leaf.
- VisualTracker.SeekExactly: float rounding of overlap, distance and score is not modelled, here or in the other perception modules.
- Suppression.CrossClassNms: the same candidate object listed twice is two candidates here, while the code compares identities; missing keys default to the empty class and zero confidence there.
- OutlierRejection.RejectOutlierSamples: the hand-eye solve and the transforms are outside; the pairwise errors and the order argsort returns are inputs, ties broken arbitrarily.
- The other suppression helpers (contour metrics, shape filters, white-workpiece detection), depth medians and drawing: image processing.
- FastAPI routes, WebSockets, the operator interface, launch files and ROS nodes.
