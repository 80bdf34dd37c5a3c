/**
 Runs in which nothing but the agent's own writes touches the workspace: such
 a run survives any number of crashes outside its writable stages, always
 resumes, and its report is never rejected.
 */
module QuietRuns {
  import opened Wrappers
  import opened Models
  import opened Snapshots
  import opened Verification
  import opened Attempts
  import opened Handoff
  import opened Stages
  import opened StageProperties
  import opened Resume
  import opened Lifecycle
  import opened LifecycleInvariant
  import opened LifecycleTheorems

  // ----- quiet steps -----

  /** Every capture shows the workspace, and every clock moves forward. */
  predicate QuietInput(workspace: Snapshot, i: StageInput) {
    var seen := Some(workspace);
    match i
    case StageRaises => false
    case PreparationFails => false
    case RoundRun(r) => r.before == r.afterRound == r.final == seen && NonDecreasing(r.times, r.time)
    case ReviewRun(r) => r.before == r.after == r.final == seen
    case WriteRun(w) => w.script.after == seen
    case ReportRun(h) => h.initial == h.final == seen && h.patchCaptured
  }

  predicate QuietResume(workspace: Snapshot, i: ResumeInput) {
    && i.compatible && i.configured && i.artifactsIntact && i.ticketIntact
    && i.preflight == i.policy == Some(workspace)
  }

  /** A stage before the report ends its attempt COMPLETED. */
  predicate EndsWell(s: WorkflowState, run: StageRun) {
    run.Returned? && (s != REPORTING ==> StatusForOutcome(run.result.outcome).Completed?)
  }

  /**
   The workspace changes only while a writable stage runs; stages see it as it is and neither raise nor end
   an attempt FAILED or HUMAN_REQUIRED; crashes spare the writable states.
   */
  predicate QuietStep(cfg: RunConfig, w: World, s: Step) {
    && Enabled(cfg, w, s)
    && match s
       case StartAttempt(_, capture) => capture == Some(w.workspace)
       case RunHandler(input) =>
         && QuietInput(w.workspace, input)
         && EndsWell(w.record.state, RunStage(cfg, w.record, w.ledger, Newest(w.ledger), input))
       case ControllerException => false
       case Crash => !WritableState(w.record.state)
       case ResumeRun(resume) => QuietResume(w.workspace, resume)
       case EditWorkspace(_) => w.control.InStage? && WritableState(w.record.state)
       case _ => true
  }

  predicate QuietRun(cfg: RunConfig, w: World, steps: seq<Step>)
    decreases |steps|
  {
    steps == [] || (QuietStep(cfg, w, steps[0]) && QuietRun(cfg, Next(cfg, w, steps[0]), steps[1..]))
  }

  lemma {:induction false} QuietIsExecutable(cfg: RunConfig, w: World, steps: seq<Step>)
    requires QuietRun(cfg, w, steps)
    ensures Executable(cfg, w, steps)
    decreases |steps|
  {
    if steps != [] {
      QuietIsExecutable(cfg, Next(cfg, w, steps[0]), steps[1..]);
    }
  }

  // ----- what a persisted state stands on -----

  /** The newest write left the workspace with fingerprint f. */
  predicate Written(ledger: seq<Attempt>, f: Fingerprint) {
    var a := Latest(ledger, WRITABLE, ANY_STATUS);
    a.Some? && a.value.status.Completed? && a.value.after == Some(f)
  }

  /** The newest verification passed authoritatively on f, after every write. */
  predicate Verified(cfg: RunConfig, ledger: seq<Attempt>, roundIndex: nat, f: Fingerprint) {
    var v := Latest(ledger, {VerifyingPhase}, ANY_STATUS);
    && v.Some? && v.value.status.Completed? && v.value.before == Some(f) && v.value.after == Some(f)
    && RoundOf(v.value).Some? && AuthoritativePass(RoundOf(v.value).value, cfg.commands, cfg.repositoryPath, roundIndex)
    && forall a :: a in ledger && Writes(a.phase) ==> a.sequence < v.value.sequence
  }

  /** The newest review passed on f, and only reports follow it. */
  predicate Reviewed(ledger: seq<Attempt>, f: Fingerprint) {
    var r := Latest(ledger, {ReviewingPhase}, ANY_STATUS);
    && r.Some? && r.value.status.Completed? && r.value.before == Some(f) && r.value.after == Some(f)
    && ReviewOf(r.value).Some? && ReviewOf(r.value).value.verdict.PASS?
    && forall a :: a in ledger && !a.phase.ReportingPhase? ==> a.sequence <= r.value.sequence
  }

  predicate Clean(ledger: seq<Attempt>) {
    !Tainted(ledger) && AgentEvidenceIntact(ledger)
  }

  predicate AwaitsWorkspace(s: WorkflowState) {
    s in {VERIFYING, REVIEWING, CORRECTION_PENDING, REPORTING}
  }

  /** The evidence that a nonterminal record has behind it when nothing disturbed the run. */
  ghost predicate Standing(cfg: RunConfig, record: RunRecord, ledger: seq<Attempt>, s: Snapshot) {
    var f := FingerprintOf(s);
    && Clean(ledger)
    && (record.state in {PREPARING, PREPARED} ==> f == FingerprintOf(cfg.baseline))
    && (record.state != PREPARING ==> BaselineEvidence(cfg, ledger, true))
    && (AwaitsWorkspace(record.state) ==> HandoverWorkspace(cfg, s) && Written(ledger, f))
    && (record.state in {REVIEWING, REPORTING} ==> Verified(cfg, ledger, record.correctionRound, f))
    && (record.state == REPORTING ==> Reviewed(ledger, f) && record.reviewRound >= 1)
  }

  ghost predicate RecordStands(cfg: RunConfig, w: World) {
    !Terminal(w.record.state) ==> Standing(cfg, w.record, w.ledger, w.workspace)
  }

  /** A read-only attempt in progress started from the current workspace. */
  predicate StartedHere(w: World) {
    w.control.InStage? && w.ledger != [] && !WritableState(w.record.state) ==>
      Newest(w.ledger).before == Some(FingerprintOf(w.workspace))
  }

  /** A decided transition has its evidence before it is persisted. */
  ghost predicate DecisionStands(cfg: RunConfig, w: World) {
    match w.control
    case Decided(d, u) =>
      d.completion.Some? ==>
        && (w.record.state == REPORTING || !Terminal(u.state)) && w.ledger != []
        && (!Terminal(u.state) ==>
              Standing(cfg, u, Replaced(w.ledger, EndedAttempt(Newest(w.ledger), d.completion.value)), w.workspace))
    case AttemptEnded(_, u) => !Terminal(u.state) && Standing(cfg, u, w.ledger, w.workspace)
    case _ => true
  }

  ghost predicate QuietInv(cfg: RunConfig, w: World) {
    && Canonical(w.workspace)
    && (w.control.Down? || w.control.Raising? ==> !WritableState(w.record.state))
    && RecordStands(cfg, w) && StartedHere(w) && DecisionStands(cfg, w)
  }

  // ----- evidence under ledger updates -----

  lemma CleanAppended(ledger: seq<Attempt>, a: Attempt)
    requires Clean(ledger) && a.status.Started?
    ensures Clean(ledger + [a])
  {
    forall i | 0 <= i < |ledger + [a]| ensures (ledger + [a])[i].status !in {NeedsHuman, AttemptStatus.Failed} {
      assert i < |ledger| ==> (ledger + [a])[i] == ledger[i];
    }
  }

  lemma CleanReplaced(ledger: seq<Attempt>, a: Attempt)
    requires Clean(ledger) && ledger != [] && a.status in {Started, Completed}
    requires IsAgentPhase(a.phase) && a.status.Completed? ==> AgentEvidenceSound(a)
    ensures Clean(Replaced(ledger, a))
  {
    var later := Replaced(ledger, a);
    assert later == Older(ledger) + [a] && ledger == Older(ledger) + [Newest(ledger)];
    forall i | 0 <= i < |later| ensures later[i].status !in {NeedsHuman, AttemptStatus.Failed} {
      assert i < |later| - 1 ==> later[i] == ledger[i];
    }
  }

  /** Queries that do not ask for the phase of the newest attempt do not see it change. */
  lemma QueriesSkip(ledger: seq<Attempt>, a: Attempt, phases: set<AttemptPhase>, statuses: set<AttemptStatus>)
    requires ledger != [] && a.phase == Newest(ledger).phase && a.phase !in phases
    ensures Latest(Replaced(ledger, a), phases, statuses) == Latest(ledger, phases, statuses)
  {
  }

  lemma BaselineReplaced(cfg: RunConfig, ledger: seq<Attempt>, a: Attempt)
    requires ledger != [] && a.phase == Newest(ledger).phase
    requires Newest(ledger).status.Started? && (a.phase.PreparingPhase? ==> a.status.Started?)
    ensures BaselineEvidence(cfg, Replaced(ledger, a), true) <==> BaselineEvidence(cfg, ledger, true)
  {
    LatestReplaced(ledger, a, {PreparingPhase});
  }

  lemma SequencesReplaced(ledger: seq<Attempt>, a: Attempt, b: Attempt)
    requires ledger != [] && a.phase == Newest(ledger).phase && a.sequence == Newest(ledger).sequence
    requires b in Replaced(ledger, a)
    ensures exists c :: c in ledger && c.phase == b.phase && c.sequence == b.sequence
  {
    assert Replaced(ledger, a) == Older(ledger) + [a] && ledger == Older(ledger) + [Newest(ledger)];
    if b == a {
      assert Newest(ledger) in ledger;
    } else {
      assert b in ledger;
    }
  }

  lemma VerifiedReplaced(cfg: RunConfig, ledger: seq<Attempt>, a: Attempt, roundIndex: nat, f: Fingerprint)
    requires ledger != [] && a.phase == Newest(ledger).phase && a.sequence == Newest(ledger).sequence
    requires !a.phase.VerifyingPhase? && Verified(cfg, ledger, roundIndex, f)
    ensures Verified(cfg, Replaced(ledger, a), roundIndex, f)
  {
    QueriesSkip(ledger, a, {VerifyingPhase}, ANY_STATUS);
    forall b | b in Replaced(ledger, a) && Writes(b.phase)
      ensures b.sequence < Latest(ledger, {VerifyingPhase}, ANY_STATUS).value.sequence
    {
      SequencesReplaced(ledger, a, b);
    }
  }

  lemma ReviewedReplaced(ledger: seq<Attempt>, a: Attempt, f: Fingerprint)
    requires ledger != [] && a.phase == Newest(ledger).phase && a.sequence == Newest(ledger).sequence
    requires a.phase.ReportingPhase? && Reviewed(ledger, f)
    ensures Reviewed(Replaced(ledger, a), f)
  {
    QueriesSkip(ledger, a, {ReviewingPhase}, ANY_STATUS);
    forall b | b in Replaced(ledger, a) && !b.phase.ReportingPhase?
      ensures b.sequence <= Latest(ledger, {ReviewingPhase}, ANY_STATUS).value.sequence
    {
      SequencesReplaced(ledger, a, b);
    }
  }

  /** An attempt in progress leaves everything the persisted state stands on as it was. */
  lemma StandingInProgress(cfg: RunConfig, record: RunRecord, ledger: seq<Attempt>, s: Snapshot, a: Attempt)
    requires Standing(cfg, record, ledger, s) && ledger != []
    requires a.phase == Newest(ledger).phase && a.sequence == Newest(ledger).sequence
    requires a.status.Started? && Newest(ledger).status.Started?
    requires PhaseForActiveState(record.state) == Some(a.phase)
    ensures Standing(cfg, record, Replaced(ledger, a), s)
  {
    var f := FingerprintOf(s);
    CleanReplaced(ledger, a);
    BaselineReplaced(cfg, ledger, a);
    if AwaitsWorkspace(record.state) {
      QueriesSkip(ledger, a, WRITABLE, ANY_STATUS);
    }
    if record.state in {REVIEWING, REPORTING} {
      VerifiedReplaced(cfg, ledger, a, record.correctionRound, f);
    }
    if record.state == REPORTING {
      ReviewedReplaced(ledger, a, f);
    }
  }

  lemma StandingAppended(cfg: RunConfig, record: RunRecord, ledger: seq<Attempt>, s: Snapshot, a: Attempt)
    requires Standing(cfg, record, ledger, s) && a.status.Started?
    requires PhaseForActiveState(record.state) == Some(a.phase)
    ensures Standing(cfg, record, ledger + [a], s)
  {
    CleanAppended(ledger, a);
    LatestAppended(ledger, a, {PreparingPhase}, {Completed});
    LatestAppended(ledger, a, WRITABLE, ANY_STATUS);
    LatestAppended(ledger, a, {VerifyingPhase}, ANY_STATUS);
    LatestAppended(ledger, a, {ReviewingPhase}, ANY_STATUS);
  }

  // ----- the end of each stage -----

  lemma NewestIsLast(ledger: seq<Attempt>, a: Attempt)
    requires Ordered(ledger) && ledger != [] && a.sequence == Newest(ledger).sequence && a.phase == Newest(ledger).phase
    ensures Latest(Replaced(ledger, a), {a.phase}, ANY_STATUS) == Some(a)
    ensures a.status.Completed? ==> Latest(Replaced(ledger, a), {a.phase}, {Completed}) == Some(a)
    ensures Writes(a.phase) ==> Latest(Replaced(ledger, a), WRITABLE, ANY_STATUS) == Some(a)
    ensures forall b :: b in Replaced(ledger, a) ==> b == a || b.sequence < a.sequence
  {
    EveryStatus(a.status);
    OrderedReplaced(ledger, a);
    var later := Replaced(ledger, a);
    forall b | b in later ensures b == a || b.sequence < a.sequence {
      var i :| 0 <= i < |later| && later[i] == b;
      assert i == |later| - 1 || later[i].sequence < later[|later| - 1].sequence;
    }
  }

  /** A passing clean baseline is the evidence that preparation leaves. */
  lemma PreparationStands(cfg: RunConfig, record: RunRecord, next: RunRecord, ledger: seq<Attempt>, s: Snapshot, a: Attempt)
    requires Standing(cfg, record, ledger, s) && Ordered(ledger) && ledger != []
    requires record.state == PREPARING && next.state == PREPARED
    requires a.sequence == Newest(ledger).sequence && a.phase == Newest(ledger).phase && a.phase.PreparingPhase?
    requires a.status.Completed? && a.before == a.after == Some(FingerprintOf(s))
    requires RoundOf(a).Some? && ValidResult(RoundOf(a).value, {Pass}, cfg.commands, true)
    ensures Standing(cfg, next, Replaced(ledger, a), s)
  {
    CleanReplaced(ledger, a);
    NewestIsLast(ledger, a);
  }

  /** A completed write leaves a safe workspace and sound evidence of its agent. */
  lemma WriteStands(cfg: RunConfig, record: RunRecord, next: RunRecord, ledger: seq<Attempt>, s: Snapshot, a: Attempt)
    requires Standing(cfg, record, ledger, s) && Ordered(ledger) && ledger != [] && Newest(ledger).status.Started?
    requires WritableState(record.state) && next.state == VERIFYING
    requires a.sequence == Newest(ledger).sequence && a.phase == Newest(ledger).phase && Writes(a.phase)
    requires a.status.Completed? && AgentEvidenceSound(a) && a.after == Some(FingerprintOf(s)) && HandoverWorkspace(cfg, s)
    ensures Standing(cfg, next, Replaced(ledger, a), s)
  {
    CleanReplaced(ledger, a);
    BaselineReplaced(cfg, ledger, a);
    NewestIsLast(ledger, a);
  }

  lemma VerificationStands(cfg: RunConfig, record: RunRecord, next: RunRecord, ledger: seq<Attempt>, s: Snapshot, a: Attempt)
    requires Standing(cfg, record, ledger, s) && Ordered(ledger) && ledger != [] && Newest(ledger).status.Started?
    requires record.state == VERIFYING && next.state in {REVIEWING, CORRECTION_PENDING}
    requires next.correctionRound == record.correctionRound
    requires a.sequence == Newest(ledger).sequence && a.phase == Newest(ledger).phase && a.phase.VerifyingPhase?
    requires a.status.Completed?
    requires next.state == REVIEWING ==>
      && a.before == a.after == Some(FingerprintOf(s)) && RoundOf(a).Some?
      && AuthoritativePass(RoundOf(a).value, cfg.commands, cfg.repositoryPath, record.correctionRound)
    ensures Standing(cfg, next, Replaced(ledger, a), s)
  {
    CleanReplaced(ledger, a);
    BaselineReplaced(cfg, ledger, a);
    QueriesSkip(ledger, a, WRITABLE, ANY_STATUS);
    NewestIsLast(ledger, a);
  }

  lemma ReviewStands(cfg: RunConfig, record: RunRecord, next: RunRecord, ledger: seq<Attempt>, s: Snapshot, a: Attempt)
    requires Standing(cfg, record, ledger, s) && Ordered(ledger) && ledger != [] && Newest(ledger).status.Started?
    requires record.state == REVIEWING && next.state in {REPORTING, CORRECTION_PENDING}
    requires next.correctionRound == record.correctionRound && next.reviewRound == record.reviewRound + 1
    requires a.sequence == Newest(ledger).sequence && a.phase == Newest(ledger).phase && a.phase.ReviewingPhase?
    requires a.status.Completed? && AgentEvidenceSound(a)
    requires next.state == REPORTING ==>
      a.before == a.after == Some(FingerprintOf(s)) && ReviewOf(a).Some? && ReviewOf(a).value.verdict.PASS?
    ensures Standing(cfg, next, Replaced(ledger, a), s)
  {
    CleanReplaced(ledger, a);
    BaselineReplaced(cfg, ledger, a);
    QueriesSkip(ledger, a, WRITABLE, ANY_STATUS);
    NewestIsLast(ledger, a);
    if next.state == REPORTING {
      VerifiedReplaced(cfg, ledger, a, record.correctionRound, FingerprintOf(s));
    }
  }

  // ----- what quiet stages return -----

  /** In a quiet workspace a passing round is an authoritative pass about that workspace. */
  lemma QuietRoundPasses(cfg: RunConfig, roundIndex: nat, attempt: Attempt, r: RoundInput, baseline: bool, s: Snapshot)
    requires ValidConfig(cfg) && |r.outcomes| == |r.times| == |cfg.commands| && QuietInput(s, RoundRun(r))
    requires RoundResult(cfg, roundIndex, attempt, r, baseline).outcome.StageCompleted?
    ensures attempt.before == Some(FingerprintOf(s))
    ensures RoundResult(cfg, roundIndex, attempt, r, baseline).after == Some(FingerprintOf(s))
    ensures AuthoritativePass(RoundFor(cfg, roundIndex, attempt, r, baseline), cfg.commands, cfg.repositoryPath, roundIndex)
  {
    var changes := RoundChanges(s, r.afterRound);
    PassingRoundIsPass(cfg, roundIndex, attempt, r, baseline);
    RunRoundJudged(cfg.commands, cfg.repositoryPath, roundIndex, r.outcomes, r.times, changes, !baseline, r.time);
    RoundExits(cfg, roundIndex, r, changes, !baseline);
  }

  lemma PassingRoundIsPass(cfg: RunConfig, roundIndex: nat, attempt: Attempt, r: RoundInput, baseline: bool)
    requires |r.outcomes| == |r.times| == |cfg.commands|
    requires RoundResult(cfg, roundIndex, attempt, r, baseline).outcome.StageCompleted?
    ensures StartingRoundChanges(cfg, attempt, r, baseline) == []
    ensures r.before.Some? && CapturedFingerprint(r.before) == attempt.before
    ensures RoundFor(cfg, roundIndex, attempt, r, baseline) == RunRound(cfg.commands, cfg.repositoryPath, roundIndex,
      r.outcomes, r.times, RoundChanges(r.before.value, r.afterRound), !baseline, r.time)
    ensures RoundFor(cfg, roundIndex, attempt, r, baseline).violations == []
    ensures !AnyWithStatus(RoundFor(cfg, roundIndex, attempt, r, baseline).commands, Error)
    ensures !AnyWithStatus(RoundFor(cfg, roundIndex, attempt, r, baseline).commands, Fail)
  {
  }

  lemma RoundExits(cfg: RunConfig, roundIndex: nat, r: RoundInput, changes: seq<string>, failures: bool)
    requires |r.outcomes| == |r.times| == |cfg.commands|
    ensures var round := RunRound(cfg.commands, cfg.repositoryPath, roundIndex, r.outcomes, r.times, changes, failures, r.time);
      !AnyWithStatus(round.commands, Error) && !AnyWithStatus(round.commands, Fail) ==> AllExitedZero(r.outcomes)
  {
    CommandStatuses(cfg.commands, cfg.repositoryPath, r.outcomes, r.times);
  }

  lemma QuietReviewPasses(cfg: RunConfig, record: RunRecord, ledger: seq<Attempt>, attempt: Attempt, r: ReviewInput, s: Snapshot)
    requires r.execution.Valid() && r.execution.task.ReviewTask? && QuietInput(s, ReviewRun(r))
    requires ReviewStage(cfg, record, ledger, attempt, r).Returned?
    requires ReviewStage(cfg, record, ledger, attempt, r).result.outcome.StageCompleted?
    ensures var result := ReviewStage(cfg, record, ledger, attempt, r).result;
      && attempt.before == Some(FingerprintOf(s)) && result.after == Some(FingerprintOf(s))
      && result.artifact.Some? && result.artifact.value.ReviewArtifact? && result.artifact.value.review.verdict.PASS?
  {
  }

  // ----- the handler's ledger -----

  /** The ledger after a handler returned and its attempt was ended. */
  function EndedLedger(w: World, r: StageResult): seq<Attempt>
    requires w.ledger != []
  {
    Replaced(w.ledger, EndedAttempt(WithFiles(Newest(w.ledger), r), r))
  }

  /** What the decided record must stand on. */
  ghost predicate Promised(cfg: RunConfig, w: World, run: StageRun)
    requires w.ledger != []
  {
    run.Returned? && DecisionFor(w.record, run.result).Ok?
      && ApplyDecision(w.record, DecisionFor(w.record, run.result).value).Ok?
      && !Terminal(ApplyDecision(w.record, DecisionFor(w.record, run.result).value).value.state) ==>
      Standing(cfg, ApplyDecision(w.record, DecisionFor(w.record, run.result).value).value, EndedLedger(w, run.result),
        w.workspace)
  }

  /** The next record of a result that keeps the run going. */
  lemma NextRecord(record: RunRecord, r: StageResult)
    requires RoundsFit(record, r) && PhaseForActiveState(record.state).Some?
    requires DecisionFor(record, r).Ok? && ApplyDecision(record, DecisionFor(record, r).value).Ok?
    ensures var u := ApplyDecision(record, DecisionFor(record, r).value).value;
      !Terminal(u.state) ==>
        && r.outcome in {StageCompleted, CorrectionRequired}
        && (r.outcome.CorrectionRequired? <==> u.state == CORRECTION_PENDING)
        && (r.outcome.StageCompleted? ==> record.state in COMPLETED_TRANSITIONS && u.state == COMPLETED_TRANSITIONS[record.state])
        && (record.state != CORRECTING ==> u.correctionRound == record.correctionRound)
        && (record.state == REVIEWING ==> u.reviewRound == record.reviewRound + 1)
        && record.state != REPORTING
    ensures r.outcome in {StageCompleted, CorrectionRequired} && record.state != REPORTING ==>
      !Terminal(ApplyDecision(record, DecisionFor(record, r).value).value.state)
  {
    match record.state { case _ => }
  }

  lemma PreparationPromised(cfg: RunConfig, w: World, r: StageResult)
    requires Shape(cfg, w) && QuietInv(cfg, w) && w.control.InStage? && w.record.state == PREPARING
    requires RoundsFit(w.record, r) && !r.outcome.CorrectionRequired?
    requires r.outcome.StageCompleted? ==>
      && Newest(w.ledger).before == r.after == Some(FingerprintOf(w.workspace))
      && r.artifact.Some? && r.artifact.value.RoundArtifact?
      && ValidResult(r.artifact.value.round, {Pass}, cfg.commands, true)
    ensures Promised(cfg, w, Returned(r))
  {
    hide Standing, ValidResult, DecisionFor, ApplyDecision;
    FittingResultsDecide(w.record, r);
    NextRecord(w.record, r);
    if r.outcome.StageCompleted? {
      PreparationStands(cfg, w.record, ApplyDecision(w.record, DecisionFor(w.record, r).value).value, w.ledger,
        w.workspace, EndedAttempt(WithFiles(Newest(w.ledger), r), r));
    }
  }

  lemma QuietPreparation(cfg: RunConfig, w: World, r: RoundInput)
    requires ValidConfig(cfg) && Shape(cfg, w) && QuietInv(cfg, w) && w.control.InStage? && ValidRoundInput(cfg, r)
    requires w.record.state == PREPARING && QuietInput(w.workspace, RoundRun(r))
    ensures Promised(cfg, w, Returned(RoundResult(cfg, 0, Newest(w.ledger), r, true)))
  {
    hide Standing, Promised, ValidResult, AuthoritativePass;
    var a := Newest(w.ledger);
    RoundFits(cfg, w.record, a, r);
    RoundResultFacts(cfg, 0, a, r, true);
    if RoundResult(cfg, 0, a, r, true).outcome.StageCompleted? {
      QuietRoundPasses(cfg, 0, a, r, true, w.workspace);
    }
    PreparationPromised(cfg, w, RoundResult(cfg, 0, a, r, true));
  }

  lemma VerificationPromised(cfg: RunConfig, w: World, r: StageResult)
    requires Shape(cfg, w) && QuietInv(cfg, w) && w.control.InStage? && w.record.state == VERIFYING
    requires RoundsFit(w.record, r)
    requires r.outcome.StageCompleted? ==>
      && Newest(w.ledger).before == r.after == Some(FingerprintOf(w.workspace))
      && r.artifact.Some? && r.artifact.value.RoundArtifact?
      && AuthoritativePass(r.artifact.value.round, cfg.commands, cfg.repositoryPath, w.record.correctionRound)
    ensures Promised(cfg, w, Returned(r))
  {
    hide Standing, AuthoritativePass, DecisionFor, ApplyDecision;
    FittingResultsDecide(w.record, r);
    NextRecord(w.record, r);
    if r.outcome in {StageCompleted, CorrectionRequired} {
      VerificationStands(cfg, w.record, ApplyDecision(w.record, DecisionFor(w.record, r).value).value, w.ledger,
        w.workspace, EndedAttempt(WithFiles(Newest(w.ledger), r), r));
    }
  }

  lemma QuietVerification(cfg: RunConfig, w: World, r: RoundInput)
    requires ValidConfig(cfg) && Shape(cfg, w) && QuietInv(cfg, w) && w.control.InStage? && ValidRoundInput(cfg, r)
    requires w.record.state == VERIFYING && QuietInput(w.workspace, RoundRun(r))
    ensures Promised(cfg, w, Returned(RoundResult(cfg, w.record.correctionRound, Newest(w.ledger), r, false)))
  {
    var a, c := Newest(w.ledger), w.record.correctionRound;
    RoundFits(cfg, w.record, a, r);
    RoundResultFacts(cfg, c, a, r, false);
    if RoundResult(cfg, c, a, r, false).outcome.StageCompleted? {
      QuietRoundPasses(cfg, c, a, r, false, w.workspace);
    }
    VerificationPromised(cfg, w, RoundResult(cfg, c, a, r, false));
  }

  lemma ReviewPromised(cfg: RunConfig, w: World, r: StageResult)
    requires Shape(cfg, w) && QuietInv(cfg, w) && w.control.InStage? && w.record.state == REVIEWING
    requires RoundsFit(w.record, r)
    requires r.outcome in {StageCompleted, CorrectionRequired} ==>
      && r.artifact.Some? && r.artifact.value.ReviewArtifact? && r.processStarted
      && r.execution == Some(ExecutionEvidence(true, true, r.artifact))
    requires r.outcome.StageCompleted? ==>
      && Newest(w.ledger).before == r.after == Some(FingerprintOf(w.workspace))
      && r.artifact.value.review.verdict.PASS?
    ensures Promised(cfg, w, Returned(r))
  {
    hide Standing, DecisionFor, ApplyDecision;
    FittingResultsDecide(w.record, r);
    NextRecord(w.record, r);
    if r.outcome in {StageCompleted, CorrectionRequired} {
      ReviewStands(cfg, w.record, ApplyDecision(w.record, DecisionFor(w.record, r).value).value, w.ledger,
        w.workspace, EndedAttempt(WithFiles(Newest(w.ledger), r), r));
    }
  }

  lemma QuietReview(cfg: RunConfig, w: World, r: ReviewInput)
    requires Shape(cfg, w) && QuietInv(cfg, w) && w.control.InStage? && w.record.state == REVIEWING && ValidReviewInput(r)
    requires QuietInput(w.workspace, ReviewRun(r))
    ensures Promised(cfg, w, ReviewStage(cfg, w.record, w.ledger, Newest(w.ledger), r))
  {
    var run := ReviewStage(cfg, w.record, w.ledger, Newest(w.ledger), r);
    ReviewFits(cfg, w.record, w.ledger, Newest(w.ledger), r);
    if run.Returned? {
      if run.result.outcome.StageCompleted? {
        QuietReviewPasses(cfg, w.record, w.ledger, Newest(w.ledger), r, w.workspace);
      }
      ReviewPromised(cfg, w, run.result);
    }
  }

  lemma ReviewFits(cfg: RunConfig, record: RunRecord, ledger: seq<Attempt>, a: Attempt, r: ReviewInput)
    requires r.execution.Valid() && r.execution.task.ReviewTask? && record.state == REVIEWING
    ensures var run := ReviewStage(cfg, record, ledger, a, r);
      run.Returned? ==>
        && RoundsFit(record, run.result)
        && (run.result.outcome in {StageCompleted, CorrectionRequired} ==>
              && run.result.artifact.Some? && run.result.artifact.value.ReviewArtifact? && run.result.processStarted
              && run.result.execution == Some(ExecutionEvidence(true, true, run.result.artifact)))
  {
    ReviewStageFacts(cfg, record, ledger, a, r);
  }

  lemma QuietWrite(cfg: RunConfig, w: World, r: StageResult)
    requires Shape(cfg, w) && QuietInv(cfg, w) && w.control.InStage? && WritableState(w.record.state)
    requires RoundsFit(w.record, r)
    requires r.outcome.StageCompleted? ==> SoundWrite(cfg, r, w.workspace)
    ensures Promised(cfg, w, Returned(r))
  {
    FittingResultsDecide(w.record, r);
    NextRecord(w.record, r);
    if r.outcome.StageCompleted? {
      WriteStands(cfg, w.record, ApplyDecision(w.record, DecisionFor(w.record, r).value).value, w.ledger, w.workspace,
        EndedAttempt(WithFiles(Newest(w.ledger), r), r));
    }
  }

  lemma QuietImplementation(cfg: RunConfig, w: World, i: WriteInput)
    requires Shape(cfg, w) && QuietInv(cfg, w) && w.control.InStage? && w.record.state == IMPLEMENTING
    requires ValidWriteInput(i) && i.script.after == Some(w.workspace)
    ensures Promised(cfg, w, Returned(ImplementationStage(cfg, w.ledger, i)))
  {
    ImplementationStageFacts(cfg, w.ledger, i);
    QuietWrite(cfg, w, ImplementationStage(cfg, w.ledger, i));
  }

  lemma QuietCorrection(cfg: RunConfig, w: World, i: WriteInput)
    requires Shape(cfg, w) && QuietInv(cfg, w) && w.control.InStage? && w.record.state == CORRECTING
    requires ValidWriteInput(i) && i.script.after == Some(w.workspace)
    ensures Promised(cfg, w, CorrectionStage(cfg, w.record, w.ledger, i))
  {
    CorrectionStageFacts(cfg, w.record, w.ledger, i);
    if CorrectionStage(cfg, w.record, w.ledger, i).Returned? {
      QuietWrite(cfg, w, CorrectionStage(cfg, w.record, w.ledger, i).result);
    }
  }

  lemma QuietReport(cfg: RunConfig, w: World, run: StageRun)
    requires Shape(cfg, w) && w.control.InStage? && w.record.state == REPORTING && Fitting(w.record, run)
    ensures Promised(cfg, w, run)
  {
    if run.Returned? {
      FittingResultsDecide(w.record, run.result);
      NextRecord(w.record, run.result);
    }
  }

  lemma HandlerPromises(cfg: RunConfig, w: World, input: StageInput)
    requires ValidConfig(cfg) && Shape(cfg, w) && QuietInv(cfg, w) && Enabled(cfg, w, RunHandler(input))
    requires QuietInput(w.workspace, input)
    ensures Promised(cfg, w, RunStage(cfg, w.record, w.ledger, Newest(w.ledger), input))
  {
    match input {
      case RoundRun(r) =>
        if w.record.state == PREPARING {
          QuietPreparation(cfg, w, r);
        } else {
          QuietVerification(cfg, w, r);
        }
      case ReviewRun(r) => QuietReview(cfg, w, r);
      case WriteRun(i) =>
        if w.record.state == IMPLEMENTING {
          QuietImplementation(cfg, w, i);
        } else {
          QuietCorrection(cfg, w, i);
        }
      case ReportRun(h) =>
        HandlerFits(cfg, w, input);
        QuietReport(cfg, w, RunStage(cfg, w.record, w.ledger, Newest(w.ledger), input));
    }
  }

  // ----- every quiet run -----

  lemma QuietStart(cfg: RunConfig, w: World, sequence: nat, capture: Capture)
    requires Shape(cfg, w) && QuietInv(cfg, w) && QuietStep(cfg, w, StartAttempt(sequence, capture))
    ensures QuietInv(cfg, Next(cfg, w, StartAttempt(sequence, capture)))
  {
    hide Standing, Canonical, RunStage, ValidInput, FingerprintOf;
    var a := StartedAttempt(w.record, sequence, capture);
    ActivePhase(w.record.state);
    StandingAppended(cfg, w.record, w.ledger, w.workspace, a);
    WorkingPhase(Next(cfg, w, StartAttempt(sequence, capture)));
  }

  lemma WorkingPhase(w: World)
    requires Working(w)
    ensures !Terminal(w.record.state)
    ensures Writes(Newest(w.ledger).phase) <==> WritableState(w.record.state)
  {
    ActivePhase(w.record.state);
  }

  lemma QuietProgress(cfg: RunConfig, w: World, a: Attempt)
    requires Shape(cfg, w) && QuietInv(cfg, w) && QuietStep(cfg, w, Progress(a))
    ensures QuietInv(cfg, w.(ledger := Replaced(w.ledger, a)))
  {
    hide Standing;
    WorkingPhase(w);
    StandingInProgress(cfg, w.record, w.ledger, w.workspace, a);
    assert Newest(Replaced(w.ledger, a)) == a;
  }

  lemma WellEndedContinues(record: RunRecord, r: StageResult)
    requires RoundsFit(record, r) && PhaseForActiveState(record.state).Some? && EndsWell(record.state, Returned(r))
    requires DecisionFor(record, r).Ok? && ApplyDecision(record, DecisionFor(record, r).value).Ok?
    ensures record.state == REPORTING || !Terminal(ApplyDecision(record, DecisionFor(record, r).value).value.state)
  {
    match record.state { case _ => }
  }

  /** Writing the files and then ending the attempt replaces the newest record once. */
  lemma FilesThenEnd(w: World, r: StageResult)
    requires w.ledger != []
    ensures var files := WithFiles(Newest(w.ledger), r);
      && Newest(Replaced(w.ledger, files)) == files
      && Replaced(Replaced(w.ledger, files), EndedAttempt(files, r)) == EndedLedger(w, r)
  {
  }

  lemma HandlerDecisionStands(cfg: RunConfig, w: World, r: StageResult)
    requires Shape(cfg, w) && w.control.InStage?
    requires RoundsFit(w.record, r) && EndsWell(w.record.state, Returned(r)) && Promised(cfg, w, Returned(r))
    ensures DecisionStands(cfg, AfterRun(w, Returned(r)))
  {
    FittingResultsDecide(w.record, r);
    WellEndedContinues(w.record, r);
    FilesThenEnd(w, r);
  }

  lemma HandlerRecordStands(cfg: RunConfig, w: World, r: StageResult)
    requires Shape(cfg, w) && w.control.InStage? && RoundsFit(w.record, r)
    requires Standing(cfg, w.record, w.ledger, w.workspace)
    ensures RecordStands(cfg, AfterRun(w, Returned(r))) && AfterRun(w, Returned(r)).control.Decided?
  {
    RunShape(cfg, w, Returned(r));
    StandingInProgress(cfg, w.record, w.ledger, w.workspace, WithFiles(Newest(w.ledger), r));
  }

  lemma QuietHandler(cfg: RunConfig, w: World, run: StageRun)
    requires Shape(cfg, w) && QuietInv(cfg, w) && w.control.InStage?
    requires Fitting(w.record, run) && EndsWell(w.record.state, run) && Promised(cfg, w, run)
    ensures QuietInv(cfg, AfterRun(w, run))
  {
    hide Standing, Promised, DecisionFor, ApplyDecision;
    WorkingPhase(w);
    HandlerDecisionStands(cfg, w, run.result);
    HandlerRecordStands(cfg, w, run.result);
    assert run == Returned(run.result);
  }

  /** Between an ended attempt and its transition, the old record still stands on the new ledger. */
  lemma StandingBetween(cfg: RunConfig, record: RunRecord, next: RunRecord, ledger: seq<Attempt>, s: Snapshot, a: Attempt)
    requires ledger != [] && Standing(cfg, record, ledger, s) && Standing(cfg, next, Replaced(ledger, a), s)
    requires a.phase == Newest(ledger).phase && a.sequence == Newest(ledger).sequence
    requires PhaseForActiveState(record.state) == Some(a.phase) && record.state != REPORTING
    requires next.state in LegalTransitions(record.state) && !Terminal(next.state)
    ensures Standing(cfg, record, Replaced(ledger, a), s)
  {
    if record.state == REVIEWING {
      VerifiedReplaced(cfg, ledger, a, record.correctionRound, FingerprintOf(s));
    }
    match record.state { case _ => }
  }

  lemma DecidedTransition(record: RunRecord, d: StageDecision, u: RunRecord)
    requires ApplyDecision(record, d) == Ok(u)
    ensures u.state in LegalTransitions(record.state)
  {
  }

  lemma QuietEnd(cfg: RunConfig, w: World)
    requires Enabled(cfg, w, EndAttempt) && Shape(cfg, w) && QuietInv(cfg, w)
    ensures QuietInv(cfg, AfterEnd(w))
  {
    hide Standing;
    if w.control.Decided? {
      WorkingPhase(w);
      DecidedTransition(w.record, w.control.decision, w.control.updated);
      StandingBetween(cfg, w.record, w.control.updated, w.ledger, w.workspace,
        EndedAttempt(Newest(w.ledger), w.control.decision.completion.value));
    }
  }

  lemma QuietSave(cfg: RunConfig, w: World)
    requires TransitionPending(w.control) && Shape(cfg, w) && QuietInv(cfg, w)
    ensures QuietInv(cfg, AfterSave(w))
  {
    if w.control.Decided? && w.control.decision.completion.Some? {
      ReportingEndsTheRun(w.record, w.control.decision, w.control.updated);
    }
  }

  lemma QuietEdit(cfg: RunConfig, w: World, s: Snapshot)
    requires QuietInv(cfg, w) && w.control.InStage? && WritableState(w.record.state) && Canonical(s)
    ensures QuietInv(cfg, w.(workspace := s))
  {
  }

  lemma QuietDecide(cfg: RunConfig, w: World)
    requires Shape(cfg, w) && QuietInv(cfg, w) && Enabled(cfg, w, Decide)
    ensures QuietInv(cfg, Next(cfg, w, Decide))
  {
    hide Standing, Canonical, RunStage, ValidInput, FingerprintOf, ApplyDecision;
    ImmediateDecisionsAreLegal(cfg, w.record);
  }

  lemma QuietStop(cfg: RunConfig, w: World)
    requires QuietInv(cfg, w) && !WritableState(w.record.state)
    ensures QuietInv(cfg, w.(control := Down)) && QuietInv(cfg, w.(control := AtLoop))
    ensures QuietInv(cfg, w.(record := HumanStop(w.record), control := Down))
  {
  }

  lemma QuietOther(cfg: RunConfig, w: World, s: Step)
    requires Shape(cfg, w) && QuietInv(cfg, w) && QuietStep(cfg, w, s)
    requires s.Crash? || s.Leave? || s.ResumeRun?
    ensures QuietInv(cfg, Next(cfg, w, s))
  {
    hide Standing, Problem;
    QuietStop(cfg, w);
    if s.ResumeRun? {
      assert w == w.(control := Down);
    }
  }

  lemma QuietKept(cfg: RunConfig, w: World, s: Step)
    requires ValidConfig(cfg) && Shape(cfg, w) && QuietInv(cfg, w) && QuietStep(cfg, w, s)
    ensures QuietInv(cfg, Next(cfg, w, s))
  {
    hide RunStage;
    match s {
      case StartAttempt(sequence, capture) => QuietStart(cfg, w, sequence, capture);
      case Progress(attempt) => QuietProgress(cfg, w, attempt);
      case RunHandler(input) =>
        HandlerFits(cfg, w, input);
        HandlerPromises(cfg, w, input);
        QuietHandler(cfg, w, RunStage(cfg, w.record, w.ledger, Newest(w.ledger), input));
      case EndAttempt => QuietEnd(cfg, w);
      case SaveTransition => QuietSave(cfg, w);
      case EditWorkspace(edited) => QuietEdit(cfg, w, edited);
      case Decide => QuietDecide(cfg, w);
      case _ => QuietOther(cfg, w, s);
    }
  }

  lemma {:induction false} QuietOverRuns(cfg: RunConfig, w: World, steps: seq<Step>)
    requires ValidConfig(cfg) && Inv(cfg, w) && QuietInv(cfg, w) && QuietRun(cfg, w, steps)
    ensures Executable(cfg, w, steps)
    ensures Inv(cfg, After(cfg, w, steps)) && QuietInv(cfg, After(cfg, w, steps))
    decreases |steps|
  {
    QuietIsExecutable(cfg, w, steps);
    if steps != [] {
      InvKept(cfg, w, steps[0]);
      QuietKept(cfg, w, steps[0]);
      QuietOverRuns(cfg, Next(cfg, w, steps[0]), steps[1..]);
    }
  }

  lemma InitiallyQuiet(cfg: RunConfig)
    requires ValidConfig(cfg)
    ensures QuietInv(cfg, Initial(cfg.baseline))
  {
  }

  // ----- no spurious rejection -----

  lemma StandingResumes(cfg: RunConfig, w: World, i: ResumeInput)
    requires ValidConfig(cfg) && Inv(cfg, w) && QuietInv(cfg, w) && QuietResume(w.workspace, i)
    requires w.control.Down? && !Terminal(w.record.state)
    ensures Problem(cfg, w.record, w.ledger, i).None?
  {
    ResumableIff(cfg, w.record, w.ledger, i);
    BaselineIsSafe(cfg, w.workspace);
    if AwaitsWorkspace(w.record.state) {
      LatestOfAny(w.ledger, WRITABLE);
      LatestIsUnique(w.ledger, WRITABLE, {Completed}, Latest(w.ledger, WRITABLE, ANY_STATUS).value);
    }
    match w.record.state { case _ => }
  }

  lemma BaselineIsSafe(cfg: RunConfig, s: Snapshot)
    requires ValidConfig(cfg)
    ensures HandoverWorkspace(cfg, cfg.baseline)
    ensures FingerprintOf(s) == FingerprintOf(cfg.baseline) ==> HandoverWorkspace(cfg, s)
  {
    SafetyIsExact(cfg.baseline, cfg.repositoryPath, Some(cfg.branch), cfg.headSha, true, true);
  }

  /** After any quiet run, a run whose controller is gone and that is not finished can be resumed. */
  lemma QuietRunsResume(cfg: RunConfig, steps: seq<Step>, i: ResumeInput)
    requires ValidConfig(cfg) && QuietRun(cfg, Initial(cfg.baseline), steps)
    ensures Executable(cfg, Initial(cfg.baseline), steps)
    ensures var w := After(cfg, Initial(cfg.baseline), steps);
      w.control.Down? && !Terminal(w.record.state) && QuietResume(w.workspace, i) ==>
        Problem(cfg, w.record, w.ledger, i).None?
  {
    InitiallyInv(cfg, cfg.baseline);
    InitiallyQuiet(cfg);
    QuietOverRuns(cfg, Initial(cfg.baseline), steps);
    var w := After(cfg, Initial(cfg.baseline), steps);
    if w.control.Down? && !Terminal(w.record.state) && QuietResume(w.workspace, i) {
      StandingResumes(cfg, w, i);
    }
  }

  /** A reporting attempt in progress has the whole evidence chain for the current workspace behind it. */
  lemma StandingIsChain(cfg: RunConfig, w: World)
    requires Inv(cfg, w) && QuietInv(cfg, w) && w.control.InStage? && w.record.state == REPORTING
    ensures var a, v, r := Latest(w.ledger, WRITABLE, ANY_STATUS), Latest(w.ledger, {VerifyingPhase}, ANY_STATUS),
        Latest(w.ledger, {ReviewingPhase}, ANY_STATUS);
      a.Some? && v.Some? && r.Some?
      && EvidenceChain(cfg, w.record, w.ledger, FingerprintOf(w.workspace), a.value, v.value, r.value, Newest(w.ledger))
  {
    hide AuthoritativePass, BaselineEvidence, AgentEvidenceSound;
    var p := Newest(w.ledger);
    LatestOfAny(w.ledger, WRITABLE);
    LatestOfAny(w.ledger, {VerifyingPhase});
    LatestOfAny(w.ledger, {ReviewingPhase});
    NewestIsMaximal(w.ledger);
    var v, r := Latest(w.ledger, {VerifyingPhase}, ANY_STATUS).value, Latest(w.ledger, {ReviewingPhase}, ANY_STATUS).value;
    DifferentSequences(w.ledger, v, r);
    DifferentSequences(w.ledger, r, p);
    assert SettledLedger(cfg, w.record, w.ledger);
    assert NothingNewer(w.ledger, Latest(w.ledger, WRITABLE, ANY_STATUS).value, v, r, p);
  }

  lemma NewestIsMaximal(ledger: seq<Attempt>)
    requires Ordered(ledger) && ledger != []
    ensures Newest(ledger) in ledger && forall a :: a in ledger ==> a.sequence <= Newest(ledger).sequence
  {
  }

  lemma DifferentSequences(ledger: seq<Attempt>, a: Attempt, b: Attempt)
    requires Ordered(ledger) && a in ledger && b in ledger && a.phase != b.phase
    ensures a.sequence != b.sequence
  {
    var i :| 0 <= i < |ledger| && ledger[i] == a;
    var j :| 0 <= j < |ledger| && ledger[j] == b;
  }

  lemma StandingIsAccepted(cfg: RunConfig, w: World, i: HandoffInput)
    requires Inv(cfg, w) && QuietInv(cfg, w) && w.control.InStage? && w.record.state == REPORTING
    requires QuietInput(w.workspace, ReportRun(i))
    ensures EvaluateHandoffPolicy(ReadPolicyRequest(cfg, w.record, w.ledger, w.workspace)).None?
    ensures ReportingStage(cfg, w.record, w.ledger, Newest(w.ledger), i).outcome.StageCompleted?
  {
    StandingIsChain(cfg, w);
    LatestOfAny(w.ledger, {VerifyingPhase});
    PolicyIsComplete(cfg, w.record, w.ledger, w.workspace, Latest(w.ledger, WRITABLE, ANY_STATUS).value,
      Latest(w.ledger, {VerifyingPhase}, ANY_STATUS).value, Latest(w.ledger, {ReviewingPhase}, ANY_STATUS).value,
      Newest(w.ledger));
    MatchesIffSameFingerprint(w.workspace, w.workspace);
  }

  /** After any quiet run, a report in progress is accepted by the policy and completes. */
  lemma QuietRunsAreAccepted(cfg: RunConfig, steps: seq<Step>, i: HandoffInput)
    requires ValidConfig(cfg) && QuietRun(cfg, Initial(cfg.baseline), steps)
    ensures Executable(cfg, Initial(cfg.baseline), steps)
    ensures var w := After(cfg, Initial(cfg.baseline), steps);
      w.control.InStage? && w.record.state == REPORTING && QuietInput(w.workspace, ReportRun(i)) ==>
        && EvaluateHandoffPolicy(ReadPolicyRequest(cfg, w.record, w.ledger, w.workspace)).None?
        && ReportingStage(cfg, w.record, w.ledger, Newest(w.ledger), i).outcome.StageCompleted?
  {
    InitiallyInv(cfg, cfg.baseline);
    InitiallyQuiet(cfg);
    QuietOverRuns(cfg, Initial(cfg.baseline), steps);
    var w := After(cfg, Initial(cfg.baseline), steps);
    if w.control.InStage? && w.record.state == REPORTING && QuietInput(w.workspace, ReportRun(i)) {
      StandingIsAccepted(cfg, w, i);
    }
  }
}
