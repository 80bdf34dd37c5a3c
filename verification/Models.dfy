/**
 The lifecycle vocabulary: workflow states, attempt phases, the phase table and
 the legal transition relation, together with the persisted run record.
 */
module Models {
  import opened Wrappers

  datatype WorkflowState =
    | PREPARING
    | PREPARED
    | IMPLEMENTING
    | VERIFYING
    | REVIEWING
    | CORRECTION_PENDING
    | CORRECTING
    | REPORTING
    | READY_FOR_HUMAN
    | HUMAN_REQUIRED
    | FAILED

  datatype AttemptPhase =
    | PreparingPhase
    | ImplementingPhase
    | VerifyingPhase
    | ReviewingPhase
    | CorrectingPhase
    | ReportingPhase

  datatype AttemptStatus = Started | Completed | NeedsHuman | Failed

  datatype StageOutcome = StageCompleted | CorrectionRequired | StageHumanRequired | StageFailed

  datatype StopCategory =
    | PREPARATION_REJECTED
    | BASELINE_FAILURE
    | EXTERNAL_TOOL_FAILURE
    | VERIFICATION_INFRASTRUCTURE
    | SAFETY_VIOLATION
    | REPOSITORY_UNCERTAIN
    | HUMAN_JUDGMENT_REQUIRED
    | CONTROLLER_FAILURE

  datatype StopReason = StopReason(category: StopCategory, retryable: bool)

  datatype TerminalStop = TerminalStop(state: WorkflowState, reason: StopReason)

  predicate Terminal(s: WorkflowState) {
    s in {READY_FOR_HUMAN, HUMAN_REQUIRED, FAILED}
  }

  predicate FailureStop(s: WorkflowState) {
    s in {HUMAN_REQUIRED, FAILED}
  }

  /** Whether the phase table lets a phase write the target repository. */
  predicate Writes(p: AttemptPhase) {
    p in {ImplementingPhase, CorrectingPhase}
  }

  /** The phase table: read-only phases restart after an interruption, writable ones never do. */
  predicate AutomaticallyRetried(p: AttemptPhase) {
    !Writes(p)
  }

  function ActiveState(p: AttemptPhase): WorkflowState {
    match p
    case PreparingPhase => PREPARING
    case ImplementingPhase => IMPLEMENTING
    case VerifyingPhase => VERIFYING
    case ReviewingPhase => REVIEWING
    case CorrectingPhase => CORRECTING
    case ReportingPhase => REPORTING
  }

  function PhaseForActiveState(s: WorkflowState): (r: Option<AttemptPhase>)
    ensures forall p :: r == Some(p) <==> ActiveState(p) == s
  {
    match s
    case PREPARING => Some(PreparingPhase)
    case IMPLEMENTING => Some(ImplementingPhase)
    case VERIFYING => Some(VerifyingPhase)
    case REVIEWING => Some(ReviewingPhase)
    case CORRECTING => Some(CorrectingPhase)
    case REPORTING => Some(ReportingPhase)
    case _ => None
  }

  function StatusForOutcome(o: StageOutcome): AttemptStatus {
    match o
    case StageCompleted => Completed
    case CorrectionRequired => Completed
    case StageHumanRequired => NeedsHuman
    case StageFailed => Failed
  }

  function LegalTransitions(s: WorkflowState): set<WorkflowState> {
    match s
    case PREPARING => {PREPARED, HUMAN_REQUIRED, FAILED}
    case PREPARED => {IMPLEMENTING, HUMAN_REQUIRED, FAILED}
    case IMPLEMENTING => {VERIFYING, HUMAN_REQUIRED, FAILED}
    case VERIFYING => {REVIEWING, CORRECTION_PENDING, HUMAN_REQUIRED, FAILED}
    case REVIEWING => {REPORTING, CORRECTION_PENDING, HUMAN_REQUIRED, FAILED}
    case CORRECTION_PENDING => {CORRECTING, HUMAN_REQUIRED, FAILED}
    case CORRECTING => {VERIFYING, HUMAN_REQUIRED, FAILED}
    case REPORTING => {READY_FOR_HUMAN, HUMAN_REQUIRED, FAILED}
    case _ => {}
  }

  /** The mutable part of the persisted run record; the immutable part is Lifecycle's RunConfig. */
  datatype RunRecord = RunRecord(
    state: WorkflowState,
    correctionRound: nat,
    reviewRound: nat,
    stop: Option<StopReason>)
  {
    /** The constructor check: terminal stop evidence exactly on a failure stop. */
    predicate Valid() {
      stop.Some? <==> FailureStop(state)
    }
  }

  datatype TransitionError = IllegalTransition | StopReasonMissing | StopReasonForbidden

  /** RunRecord.transition_to followed by the constructor check of the new record. */
  function TransitionTo(r: RunRecord, state: WorkflowState, correctionRound: Option<nat>,
      reviewRound: Option<nat>, stop: Option<StopReason>): (res: Result<RunRecord, TransitionError>)
    ensures res.Ok? ==> res.value.Valid() && state in LegalTransitions(r.state) && res.value.state == state
  {
    if state !in LegalTransitions(r.state) then Err(IllegalTransition)
    else if FailureStop(state) && stop.None? then Err(StopReasonMissing)
    else if !FailureStop(state) && stop.Some? then Err(StopReasonForbidden)
    else Ok(RunRecord(
      state,
      if correctionRound.None? then r.correctionRound else correctionRound.value,
      if reviewRound.None? then r.reviewRound else reviewRound.value,
      stop))
  }

  /** classify_stage_stop: FAILED is retryable tool failure, HUMAN_REQUIRED carries the stage's category. */
  function ClassifyStageStop(o: StageOutcome, category: Option<StopCategory>): TerminalStop
    requires o in {StageHumanRequired, StageFailed}
  {
    if o.StageFailed? then
      TerminalStop(FAILED, StopReason(EXTERNAL_TOOL_FAILURE, true))
    else
      TerminalStop(HUMAN_REQUIRED,
        StopReason(if category.None? then HUMAN_JUDGMENT_REQUIRED else category.value, false))
  }

  /** classify_unexpected_controller_failure: an exception in a writable state leaves the repository uncertain. */
  function ClassifyControllerFailure(s: WorkflowState): TerminalStop {
    if s in {IMPLEMENTING, CORRECTING} then
      TerminalStop(HUMAN_REQUIRED, StopReason(REPOSITORY_UNCERTAIN, false))
    else
      TerminalStop(FAILED, StopReason(CONTROLLER_FAILURE, false))
  }
}
