/**
 The six stages and their handlers: what each one decides from the ledger, the
 captures and the answers of its collaborators, and how a decision is applied.
 */
module Stages {
  import opened Wrappers
  import opened Models
  import opened Snapshots
  import opened TaskResults
  import opened Verification
  import opened Attempts
  import opened AgentExecutions
  import opened GuardedOperation
  import opened Corrections
  import opened Handoff

  /** What run creation establishes: a clean captured baseline on the recorded branch, usable commands. */
  predicate ValidConfig(cfg: RunConfig) {
    && Canonical(cfg.baseline)
    && SafetyChanges(cfg.baseline, cfg.repositoryPath, Some(cfg.branch), cfg.headSha, true, true) == []
    && cfg.commands != []
    && forall i :: 0 <= i < |cfg.commands| ==> ValidCommand(cfg.commands[i])
  }

  predicate ValidCommand(c: Command) {
    !Blank(c.name) && c.argv != [] && forall item :: item in c.argv ==> !Blank(item)
  }

  // ----- stage results -----

  datatype StageResult = StageResult(
    outcome: StageOutcome,
    after: Option<Fingerprint>,
    processStarted: bool,
    category: Option<StopCategory>,
    correctionRound: Option<nat>,
    reviewRound: Option<nat>,
    artifact: Option<Artifact>,
    execution: Option<ExecutionEvidence>)

  /** A stage returns a result or raises into the controller. */
  datatype StageRun = Raised | Returned(result: StageResult)

  /** What one verification round meets: captures, processes and clock readings. */
  datatype RoundInput = RoundInput(
    before: Capture,
    ticketPresent: bool,
    outcomes: seq<ProcessOutcome>,
    times: seq<Timing>,
    afterRound: Capture,
    time: Timing,
    final: Capture)

  /** What one review meets; evidenceReadable covers the ticket and the prompt template. */
  datatype ReviewInput = ReviewInput(
    before: Capture,
    evidenceReadable: bool,
    execution: AgentExecution,
    after: Capture,
    final: Capture)

  /** What one writable stage meets. */
  datatype WriteInput = WriteInput(ticketIntact: bool, promptReady: bool, script: Script)

  datatype StageInput =
    | StageRaises
    | PreparationFails
    | RoundRun(roundInput: RoundInput)
    | ReviewRun(reviewInput: ReviewInput)
    | WriteRun(writeInput: WriteInput)
    | ReportRun(handoffInput: HandoffInput)

  predicate CanonicalCapture(c: Capture) {
    c.Some? ==> Canonical(c.value)
  }

  predicate ValidRoundInput(cfg: RunConfig, r: RoundInput) {
    && |r.outcomes| == |r.times| == |cfg.commands|
    && CanonicalCapture(r.before) && CanonicalCapture(r.afterRound) && CanonicalCapture(r.final)
  }

  predicate ValidReviewInput(r: ReviewInput) {
    && r.execution.task.ReviewTask? && r.execution.Valid()
    && CanonicalCapture(r.before) && CanonicalCapture(r.after) && CanonicalCapture(r.final)
  }

  predicate ValidWriteInput(w: WriteInput) {
    && w.script.Valid() && CanonicalCapture(w.script.before) && CanonicalCapture(w.script.after)
    && (w.script.executor.Ok? ==> !w.script.executor.value.task.ReviewTask?)
  }

  /** Inputs that the collaborators' types allow for a stage in state s. */
  predicate ValidInput(cfg: RunConfig, s: WorkflowState, i: StageInput) {
    match i
    case StageRaises => true
    case PreparationFails => s.PREPARING?
    case RoundRun(r) => s in {PREPARING, VERIFYING} && ValidRoundInput(cfg, r)
    case ReviewRun(r) => s.REVIEWING? && ValidReviewInput(r)
    case WriteRun(w) => s in {IMPLEMENTING, CORRECTING} && ValidWriteInput(w)
    case ReportRun(h) => s.REPORTING? && CanonicalCapture(h.initial) && CanonicalCapture(h.final)
  }

  // ----- evidence the stages consult -----

  /** baseline_verification_evidence_problem finds nothing; ticketIntact compares the ticket's digest. */
  predicate BaselineEvidence(cfg: RunConfig, ledger: seq<Attempt>, ticketIntact: bool) {
    var a := Latest(ledger, {PreparingPhase}, {Completed});
    && ticketIntact && a.Some?
    && a.value.before == Some(FingerprintOf(cfg.baseline)) && a.value.after == Some(FingerprintOf(cfg.baseline))
    && RoundOf(a.value).Some? && ValidResult(RoundOf(a.value).value, {Pass}, cfg.commands, true)
  }

  /** read_verification_result_text accepts the round that the review prompt quotes. */
  predicate QuotableRound(ledger: seq<Attempt>) {
    var a := Latest(ledger, {VerifyingPhase}, {Completed});
    a.Some? && RoundOf(a.value).Some? && RoundOf(a.value).value.status.Pass? && RoundOf(a.value).value.duration >= 0
  }

  // ----- verification rounds -----

  function StartingRoundChanges(cfg: RunConfig, attempt: Attempt, i: RoundInput, baseline: bool): seq<string> {
    (if i.before.None? then ["repository-inspection"]
     else if baseline then
       ChangeNames(SafetyChanges(i.before.value, cfg.repositoryPath, Some(cfg.branch), cfg.headSha, true, true))
       + (if FingerprintOf(i.before.value) != FingerprintOf(cfg.baseline) then ["baseline-workspace"] else [])
       + (if i.ticketPresent then [] else ["ticket"])
     else ChangeNames(SafetyChanges(i.before.value, cfg.repositoryPath, Some(cfg.branch), cfg.headSha, true, false)))
    + (if CapturedFingerprint(i.before) != attempt.before then ["attempt-workspace"] else [])
  }

  /** _after_violations. */
  function RoundChanges(before: Snapshot, after: Capture): seq<string> {
    if after.None? then ["repository-inspection"] else ChangeNames(Compare(before, after.value))
  }

  function RoundFor(cfg: RunConfig, roundIndex: nat, attempt: Attempt, i: RoundInput, baseline: bool): Round
    requires |i.outcomes| == |i.times| == |cfg.commands|
  {
    var starting := StartingRoundChanges(cfg, attempt, i, baseline);
    if starting != [] then ControllerErrorRound(roundIndex, starting, i.time.startedAt)
    else
      RunRound(cfg.commands, cfg.repositoryPath, roundIndex, i.outcomes, i.times,
        RoundChanges(i.before.value, i.afterRound), !baseline, i.time)
  }

  function RoundResult(cfg: RunConfig, roundIndex: nat, attempt: Attempt, i: RoundInput, baseline: bool): StageResult
    requires |i.outcomes| == |i.times| == |cfg.commands|
  {
    var round := RoundFor(cfg, roundIndex, attempt, i, baseline);
    var outcome := FinishOutcome(round, baseline);
    var category :=
      if !outcome.StageHumanRequired? then None
      else if baseline then Some(BASELINE_FAILURE)
      else if round.violations != [] then Some(SAFETY_VIOLATION)
      else Some(VERIFICATION_INFRASTRUCTURE);
    StageResult(outcome, CapturedFingerprint(i.final), RoundProcessStarted(round.commands), category, None, None,
      Some(RoundArtifact(round)), None)
  }

  /** PreparationFailureResult: the handler turns an operating-system or run error into a baseline failure. */
  const PREPARATION_FAILURE := StageResult(StageHumanRequired, None, false, Some(BASELINE_FAILURE), None, None, None, None)

  // ----- review -----

  function ReviewStop(outcome: StageOutcome, category: Option<StopCategory>, artifact: Artifact,
      execution: Option<AgentExecution>, round: nat, final: Capture): StageResult
  {
    StageResult(outcome, CapturedFingerprint(final),
      execution.Some? && execution.value.start.InvocationStarted?, category, None, Some(round), Some(artifact),
      if execution.None? then None else Some(EvidenceOf(execution.value)))
  }

  /** Whether the review's inputs still describe the verified workspace; otherwise it stops before the agent runs. */
  predicate ReviewMayStart(cfg: RunConfig, ledger: seq<Attempt>, attempt: Attempt, i: ReviewInput) {
    && i.before.Some? && attempt.before == Some(FingerprintOf(i.before.value))
    && SafetyChanges(i.before.value, cfg.repositoryPath, Some(cfg.branch), cfg.headSha, true, false) == []
    && VerificationSource(ledger, {Pass}, cfg.commands).Some?
    && MatchesFingerprint(i.before.value, VerificationSource(ledger, {Pass}, cfg.commands).value)
    && i.evidenceReadable && QuotableRound(ledger)
  }

  function ReviewStage(cfg: RunConfig, record: RunRecord, ledger: seq<Attempt>, attempt: Attempt, i: ReviewInput)
    : StageRun
    requires i.execution.Valid() && i.execution.task.ReviewTask?
  {
    var round := record.reviewRound + 1;
    if !ReviewMayStart(cfg, ledger, attempt, i) then
      Returned(ReviewStop(StageHumanRequired, Some(SAFETY_VIOLATION), MessageArtifact(StageHumanRequired), None, round, i.final))
    else if i.after.None? then Raised
    else
      var changed := Compare(i.before.value, i.after.value) != [];
      match i.execution.failure
      case Some(failure) =>
        var outcome :=
          if changed || failure.category in {INVALID_RESULT, INVOCATION_CLEANUP_UNCERTAIN} then StageHumanRequired
          else StageFailed;
        var category :=
          if outcome.StageFailed? then None
          else if changed then Some(SAFETY_VIOLATION)
          else Some(HUMAN_JUDGMENT_REQUIRED);
        Returned(ReviewStop(outcome, category, MessageArtifact(outcome), Some(i.execution), round, i.final))
      case None =>
        var artifact := i.execution.result.value;
        if changed then
          Returned(ReviewStop(StageHumanRequired, Some(SAFETY_VIOLATION), artifact, Some(i.execution), round, i.final))
        else
          var outcome := ReviewOutcome(artifact.review);
          var category := if outcome.StageHumanRequired? then Some(HUMAN_JUDGMENT_REQUIRED) else None;
          Returned(ReviewStop(outcome, category, artifact, Some(i.execution), round, i.final))
  }

  // ----- writable stages -----

  /** The stop category of a writable stage that ended HUMAN_REQUIRED. */
  function WriteCategory(a: WritableAudit, reportedViolations: bool, answered: bool): StopCategory {
    if a.execution.Some? && a.execution.value.failure.Some? then REPOSITORY_UNCERTAIN
    else if reportedViolations || a.guard.newEnvironments != {} then SAFETY_VIOLATION
    else if answered then HUMAN_JUDGMENT_REQUIRED
    else REPOSITORY_UNCERTAIN
  }

  function WriteResult(outcome: StageOutcome, a: WritableAudit, category: StopCategory, artifact: Artifact,
      execution: Option<ExecutionEvidence>, round: Option<nat>): StageResult
  {
    StageResult(outcome, CapturedFingerprint(a.after), a.start.InvocationStarted?,
      if outcome.StageHumanRequired? then Some(category) else None, round, None, Some(artifact), execution)
  }

  /** A stage-owned rejection always stops for a human. */
  function RejectedWrite(o: GuardedOutcome, round: Option<nat>): StageResult {
    WriteResult(StageHumanRequired, o.audit, WriteCategory(o.audit, o.audit.violations != [], false),
      MessageArtifact(StageHumanRequired), None, round)
  }

  /** The execution evidence file that a guarded call leaves. */
  function WrittenEvidence(o: GuardedOutcome, s: Script): Option<ExecutionEvidence>
    requires s.Valid()
  {
    if o.audit.execution.Some? && Invoke(s).error.None? then Some(EvidenceOf(o.audit.execution.value)) else None
  }

  /** The stage's reading of a guarded outcome other than success. */
  function FailedWrite(o: GuardedOutcome, s: Script, round: Option<nat>): StageResult
    requires s.Valid() && !o.Succeeded?
  {
    var outcome := if ReportedHarmless(o) then StageFailed else StageHumanRequired;
    var answer :=
      if o.SafetyStopped? && o.audit.execution.Some? && o.audit.execution.value.Successful()
      then o.audit.execution.value.result else None;
    WriteResult(outcome, o.audit, WriteCategory(o.audit, o.audit.violations != [], answer.Some?),
      if answer.Some? then answer.value else MessageArtifact(outcome), WrittenEvidence(o, s), round)
  }

  predicate Blocked(result: Artifact) {
    result.ImplementationArtifact? && result.implementation.status.ImplementationBlocked?
  }

  function ImplementationBaseline(cfg: RunConfig): WritableBaseline {
    WritableBaseline(cfg.repositoryPath, Some(cfg.branch), cfg.headSha, Some(FingerprintOf(cfg.baseline)), true)
  }

  function CorrectionBaseline(cfg: RunConfig, source: Option<Fingerprint>): WritableBaseline {
    WritableBaseline(cfg.repositoryPath, Some(cfg.branch), cfg.headSha, source, false)
  }

  /** The stage's reading of a guarded success: an agent that gave up, or wrote nothing it had to write, is stopped. */
  function SucceededWrite(o: GuardedOutcome, s: Script, stopped: bool, round: Option<nat>): StageResult
    requires s.Valid() && o.Succeeded?
  {
    WriteResult(if stopped then StageHumanRequired else StageCompleted, o.audit, WriteCategory(o.audit, false, true),
      o.result, WrittenEvidence(o, s), round)
  }

  function ImplementationStage(cfg: RunConfig, ledger: seq<Attempt>, i: WriteInput): StageResult
    requires i.script.Valid()
  {
    var b := ImplementationBaseline(cfg);
    if !BaselineEvidence(cfg, ledger, i.ticketIntact) then
      RejectedWrite(RejectBeforeStart(b, i.script, ["baseline-verification"], "baseline evidence"), None)
    else
      var o := Guarded(b, i.script);
      if o.Succeeded? then SucceededWrite(o, i.script, Blocked(o.result) || o.audit.changedFiles == [], None)
      else FailedWrite(o, i.script, None)
  }

  /** The checks that a correction passes before its agent may run, or the rejection of the first that fails. */
  function CorrectionRejection(cfg: RunConfig, record: RunRecord, ledger: seq<Attempt>, i: WriteInput)
    : Option<GuardedOutcome>
  {
    var source := VerificationSource(ledger, {Fail, Pass}, cfg.commands);
    var unsourced := CorrectionBaseline(cfg, None);
    if record.correctionRound >= cfg.maxRounds then
      Some(RejectBeforeStart(unsourced, i.script, [], "rounds exhausted"))
    else if !BaselineEvidence(cfg, ledger, i.ticketIntact) then
      Some(RejectBeforeStart(unsourced, i.script, ["baseline-verification"], "baseline evidence"))
    else if source.None? then
      Some(RejectBeforeStart(unsourced, i.script, ["verification-evidence"], "correction source"))
    else if !i.promptReady then
      Some(RejectBeforeStart(CorrectionBaseline(cfg, source), i.script, [], "prompt"))
    else None
  }

  /** The stage's reading of the rejection or, without one, of the guarded call. */
  function CorrectionReading(rejection: Option<GuardedOutcome>, o: GuardedOutcome, s: Script, round: nat): StageResult
    requires s.Valid()
  {
    if rejection.Some? then RejectedWrite(rejection.value, Some(round))
    else if o.Succeeded? then SucceededWrite(o, s, Blocked(o.result), Some(round + 1))
    else FailedWrite(o, s, Some(round))
  }

  function CorrectionStage(cfg: RunConfig, record: RunRecord, ledger: seq<Attempt>, i: WriteInput): StageRun
    requires i.script.Valid()
  {
    if PlanPending(ledger).Err? then Raised
    else
      var b := CorrectionBaseline(cfg, VerificationSource(ledger, {Fail, Pass}, cfg.commands));
      Returned(CorrectionReading(CorrectionRejection(cfg, record, ledger, i), Guarded(b, i.script), i.script,
        record.correctionRound))
  }

  // ----- reporting -----

  function ReportingStage(cfg: RunConfig, record: RunRecord, ledger: seq<Attempt>, attempt: Attempt, i: HandoffInput)
    : StageResult
  {
    var h := Accept(cfg, record, ledger, attempt, i);
    match h
    case HandoffAccepted(_, final, _, _) =>
      StageResult(StageCompleted, Some(FingerprintOf(final)), false, None, None, None,
        Some(MessageArtifact(StageCompleted)), None)
    case HandoffRejected(_, finalSeen) =>
      StageResult(StageHumanRequired, CapturedFingerprint(finalSeen), false, Some(SAFETY_VIOLATION), None, None,
        Some(MessageArtifact(StageHumanRequired)), None)
  }

  /** The handler of an active state, run on its controller-owned attempt. */
  function RunStage(cfg: RunConfig, record: RunRecord, ledger: seq<Attempt>, attempt: Attempt, i: StageInput): StageRun
    requires ValidInput(cfg, record.state, i)
  {
    match i
    case StageRaises => Raised
    case PreparationFails => Returned(PREPARATION_FAILURE)
    case RoundRun(r) =>
      if record.state.PREPARING? then Returned(RoundResult(cfg, 0, attempt, r, true))
      else Returned(RoundResult(cfg, record.correctionRound, attempt, r, false))
    case ReviewRun(r) => ReviewStage(cfg, record, ledger, attempt, r)
    case WriteRun(w) =>
      if record.state.IMPLEMENTING? then Returned(ImplementationStage(cfg, ledger, w))
      else CorrectionStage(cfg, record, ledger, w)
    case ReportRun(h) => Returned(ReportingStage(cfg, record, ledger, attempt, h))
  }

  // ----- decisions -----

  datatype StageDecision = StageDecision(
    source: WorkflowState,
    requested: WorkflowState,
    completion: Option<StageResult>,
    stop: Option<TerminalStop>,
    correctionRound: Option<nat>,
    reviewRound: Option<nat>)

  datatype DecisionError = InvalidOutcome | InvalidRoundUpdate | SourceMismatch | InvalidTransition

  /** _COMPLETED_TRANSITIONS. */
  const COMPLETED_TRANSITIONS: map<WorkflowState, WorkflowState> := map[
    PREPARING := PREPARED,
    IMPLEMENTING := VERIFYING,
    VERIFYING := REVIEWING,
    REVIEWING := REPORTING,
    CORRECTING := VERIFYING,
    REPORTING := READY_FOR_HUMAN]

  /** _requested_state_for_outcome; the stop is classified exactly for the terminal outcomes. */
  function RequestedState(s: WorkflowState, o: StageOutcome, category: Option<StopCategory>)
    : Result<WorkflowState, DecisionError>
  {
    match o
    case StageHumanRequired => Ok(ClassifyStageStop(o, category).state)
    case StageFailed => Ok(ClassifyStageStop(o, category).state)
    case CorrectionRequired => if s in {VERIFYING, REVIEWING} then Ok(CORRECTION_PENDING) else Err(InvalidOutcome)
    case StageCompleted => if s in COMPLETED_TRANSITIONS then Ok(COMPLETED_TRANSITIONS[s]) else Err(InvalidOutcome)
  }

  /** decision_for_stage_result. */
  function DecisionFor(record: RunRecord, r: StageResult): Result<StageDecision, DecisionError> {
    var requested := RequestedState(record.state, r.outcome, r.category);
    if requested.Err? then Err(requested.error)
    else if r.correctionRound.Some? && record.state != CORRECTING then Err(InvalidRoundUpdate)
    else if r.reviewRound.Some? && record.state != REVIEWING then Err(InvalidRoundUpdate)
    else
      var stop :=
        if r.outcome in {StageHumanRequired, StageFailed} then Some(ClassifyStageStop(r.outcome, r.category)) else None;
      Ok(StageDecision(record.state, requested.value, Some(r), stop, r.correctionRound, r.reviewRound))
  }

  /** The decisions that need no attempt: PREPARED starts the implementation, CORRECTION_PENDING checks the limit. */
  function ImmediateDecision(cfg: RunConfig, record: RunRecord): StageDecision
    requires record.state in {PREPARED, CORRECTION_PENDING}
  {
    if record.state == PREPARED then StageDecision(PREPARED, IMPLEMENTING, None, None, None, None)
    else if record.correctionRound >= cfg.maxRounds then
      StageDecision(CORRECTION_PENDING, HUMAN_REQUIRED, None,
        Some(TerminalStop(HUMAN_REQUIRED, StopReason(HUMAN_JUDGMENT_REQUIRED, false))), None, None)
    else StageDecision(CORRECTION_PENDING, CORRECTING, None, None, None, None)
  }

  /** _apply_stage_decision. */
  function ApplyDecision(record: RunRecord, d: StageDecision): Result<RunRecord, DecisionError> {
    if d.source != record.state then Err(SourceMismatch)
    else
      var updated := TransitionTo(record, d.requested, d.correctionRound, d.reviewRound,
        if d.stop.None? then None else Some(d.stop.value.reason));
      if updated.Err? then Err(InvalidTransition) else Ok(updated.value)
  }

  /** What a stage may decide: the state it goes to and the rounds it sets. */
  predicate RoundsFit(record: RunRecord, r: StageResult) {
    && (r.correctionRound.Some? <==> record.state == CORRECTING)
    && (r.reviewRound.Some? <==> record.state == REVIEWING)
    && (r.reviewRound.Some? ==> r.reviewRound.value == record.reviewRound + 1)
    && (r.correctionRound.Some? ==> record.correctionRound <= r.correctionRound.value <= record.correctionRound + 1)
    && (record.state == CORRECTING && r.outcome.StageCompleted? ==>
          r.correctionRound == Some(record.correctionRound + 1))
    && (r.outcome.CorrectionRequired? ==> record.state in {VERIFYING, REVIEWING})
  }
}
