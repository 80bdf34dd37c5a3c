/** What every stage result guarantees to the lifecycle, whatever the stage met. */
module StageProperties {
  import opened Wrappers
  import opened Models
  import opened Snapshots
  import opened TaskResults
  import opened Verification
  import opened Attempts
  import opened GuardedOperation
  import opened Corrections
  import opened Handoff
  import opened Stages

  // ----- rounds -----

  lemma {:induction false} FailureOrigin(results: seq<CommandResult>, f: VerificationFailure)
    requires f in Failures(results)
    ensures exists i :: 0 <= i < |results| && results[i].status.Fail? && f == FailureOf(results[i])
  {
    if results[0].status.Fail? && f == FailureOf(results[0]) {
    } else {
      assert f in Failures(results[1..]);
      FailureOrigin(results[1..], f);
      var i :| 0 <= i < |results[1..]| && results[1..][i].status.Fail? && f == FailureOf(results[1..][i]);
      assert results[i + 1] == results[1..][i];
    }
  }

  lemma CommandFailureIsUsable(c: Command, cwd: string, outcome: ProcessOutcome, t: Timing)
    requires ValidCommand(c)
    ensures FailureCause(FailureOf(RunCommand(c, cwd, outcome, t))).Valid()
  {
  }

  lemma FailureIsUsable(cfg: RunConfig, outcomes: seq<ProcessOutcome>, times: seq<Timing>, f: VerificationFailure)
    requires ValidConfig(cfg) && |outcomes| == |times| == |cfg.commands|
    requires f in Failures(RunCommands(cfg.commands, cfg.repositoryPath, outcomes, times))
    ensures FailureCause(f).Valid()
  {
    var results := RunCommands(cfg.commands, cfg.repositoryPath, outcomes, times);
    FailureOrigin(results, f);
    var i :| 0 <= i < |results| && results[i].status.Fail? && f == FailureOf(results[i]);
    CommandFailureIsUsable(cfg.commands[i], cfg.repositoryPath, outcomes[i], times[i]);
  }

  /** Every failure of a run round becomes a valid correction cause. */
  lemma FailuresBecomeCauses(cfg: RunConfig, outcomes: seq<ProcessOutcome>, times: seq<Timing>)
    requires ValidConfig(cfg) && |outcomes| == |times| == |cfg.commands|
    ensures AllValid(FailureCauses(Failures(RunCommands(cfg.commands, cfg.repositoryPath, outcomes, times))))
  {
    var failures := Failures(RunCommands(cfg.commands, cfg.repositoryPath, outcomes, times));
    forall k | 0 <= k < |failures| ensures FailureCause(failures[k]).Valid() {
      FailureIsUsable(cfg, outcomes, times, failures[k]);
    }
  }

  /** A round's outcome and artifact agree: completed means PASS, correction means FAIL with usable reasons. */
  lemma RoundResultFacts(cfg: RunConfig, roundIndex: nat, attempt: Attempt, i: RoundInput, baseline: bool)
    requires ValidConfig(cfg) && |i.outcomes| == |i.times| == |cfg.commands|
    ensures var r := RoundResult(cfg, roundIndex, attempt, i, baseline);
      && r.artifact == Some(RoundArtifact(RoundFor(cfg, roundIndex, attempt, i, baseline)))
      && r.execution.None? && r.correctionRound.None? && r.reviewRound.None?
      && (r.outcome.StageCompleted? ==>
            r.artifact.value.round.status.Pass? && ValidResult(r.artifact.value.round, {Pass}, cfg.commands, true))
      && (r.outcome.CorrectionRequired? ==>
            && !baseline && r.artifact.value.round.status.Fail?
            && r.artifact.value.round.failures != [] && AllValid(FailureCauses(r.artifact.value.round.failures))
            && ValidResult(r.artifact.value.round, {Pass, Fail}, cfg.commands, false))
  {
    var starting := StartingRoundChanges(cfg, attempt, i, baseline);
    if starting == [] {
      OutcomeMatchesArtifact(cfg.commands, cfg.repositoryPath, roundIndex, i.outcomes, i.times,
        RoundChanges(i.before.value, i.afterRound), baseline, i.time);
      FailuresBecomeCauses(cfg, i.outcomes, i.times);
    }
  }

  // ----- review -----

  /** A review that returned an answer asks for a correction only about a passing round. */
  lemma ReviewStageFacts(cfg: RunConfig, record: RunRecord, ledger: seq<Attempt>, attempt: Attempt, i: ReviewInput)
    requires i.execution.Valid() && i.execution.task.ReviewTask?
    ensures var run := ReviewStage(cfg, record, ledger, attempt, i);
      run.Returned? ==>
        && run.result.correctionRound.None? && run.result.reviewRound == Some(record.reviewRound + 1)
        && (run.result.outcome in {StageCompleted, CorrectionRequired} ==>
              && run.result.artifact.Some? && run.result.artifact.value.ReviewArtifact?
              && run.result.artifact.value.review.Valid()
              && run.result.outcome == ReviewOutcome(run.result.artifact.value.review)
              && run.result.execution == Some(ExecutionEvidence(true, true, run.result.artifact))
              && run.result.processStarted && LatestRoundPassed(ledger))
  {
    LatestPassingRound(cfg, ledger);
  }

  lemma LatestPassingRound(cfg: RunConfig, ledger: seq<Attempt>)
    ensures VerificationSource(ledger, {Pass}, cfg.commands).Some? ==> LatestRoundPassed(ledger)
  {
  }

  // ----- writable stages -----

  /** A completed write left a captured workspace that is still safe, and sound evidence of its agent call. */
  ghost predicate SoundWrite(cfg: RunConfig, r: StageResult, s: Snapshot) {
    && r.after == Some(FingerprintOf(s)) && Canonical(s) && HandoverWorkspace(cfg, s)
    && r.artifact.Some? && r.artifact.value.ImplementationArtifact?
    && r.execution == Some(ExecutionEvidence(true, true, r.artifact)) && r.processStarted
  }

  lemma SucceededFacts(b: WritableBaseline, s: Script)
    requires s.Valid() && Guarded(b, s).Succeeded?
    ensures var o := Guarded(b, s);
      && s.after.Some? && Authorized(b, s.after.value) && o.audit.after == s.after
      && s.executor.Ok? && o.audit.execution == Some(s.executor.value)
      && s.executor.value.Successful() && s.executor.value.result == Some(o.result)
      && o.audit.start.InvocationStarted? && Invoke(s).error.None?
      && o.audit.changedFiles == ChangedFilesOf(s)
  {
    SuccessIsExact(b, s);
    OutcomesAreConstructible(b, s);
    StartingIsExact(b, s);
    SuccessNeedsAnswer(b, s);
  }

  lemma SucceededWriteFacts(cfg: RunConfig, o: GuardedOutcome, s: Script, round: Option<nat>)
    requires s.Valid() && CanonicalCapture(s.after) && o.Succeeded?
    requires s.after.Some? && HandoverWorkspace(cfg, s.after.value) && o.audit.after == s.after
    requires s.executor.Ok? && !s.executor.value.task.ReviewTask? && o.audit.execution == Some(s.executor.value)
    requires s.executor.value.Successful() && s.executor.value.result == Some(o.result)
    requires o.audit.start.InvocationStarted? && Invoke(s).error.None?
    ensures SoundWrite(cfg, SucceededWrite(o, s, false, round), s.after.value)
  {
  }

  lemma GuardedSuccessIsSound(cfg: RunConfig, b: WritableBaseline, s: Script, round: Option<nat>)
    requires s.Valid() && CanonicalCapture(s.after) && Guarded(b, s).Succeeded?
    requires b.repositoryPath == cfg.repositoryPath && b.branch == Some(cfg.branch) && b.headSha == cfg.headSha
    requires s.executor.Ok? ==> !s.executor.value.task.ReviewTask?
    ensures s.after.Some? && SoundWrite(cfg, SucceededWrite(Guarded(b, s), s, false, round), s.after.value)
  {
    SucceededFacts(b, s);
    SucceededWriteFacts(cfg, Guarded(b, s), s, round);
  }

  lemma WriteShapes(o: GuardedOutcome, s: Script, stopped: bool, round: Option<nat>)
    requires s.Valid()
    ensures var r := RejectedWrite(o, round);
      r.outcome.StageHumanRequired? && r.correctionRound == round && r.reviewRound.None?
    ensures !o.Succeeded? ==>
      var r := FailedWrite(o, s, round);
      r.outcome in {StageHumanRequired, StageFailed} && r.correctionRound == round && r.reviewRound.None?
    ensures o.Succeeded? ==>
      var r := SucceededWrite(o, s, stopped, round);
      && r.outcome == (if stopped then StageHumanRequired else StageCompleted)
      && r.correctionRound == round && r.reviewRound.None?
  {
  }

  lemma ImplementationStageFacts(cfg: RunConfig, ledger: seq<Attempt>, i: WriteInput)
    requires ValidWriteInput(i)
    ensures var r := ImplementationStage(cfg, ledger, i);
      && r.correctionRound.None? && r.reviewRound.None? && !r.outcome.CorrectionRequired?
      && (r.outcome.StageCompleted? ==> i.script.after.Some? && SoundWrite(cfg, r, i.script.after.value))
  {
    var b := ImplementationBaseline(cfg);
    var o := Guarded(b, i.script);
    if !BaselineEvidence(cfg, ledger, i.ticketIntact) {
      WriteShapes(RejectBeforeStart(b, i.script, ["baseline-verification"], "baseline evidence"), i.script, true, None);
    } else {
      WriteShapes(o, i.script, true, None);
      WriteShapes(o, i.script, false, None);
      if o.Succeeded? {
        GuardedSuccessIsSound(cfg, b, i.script, None);
      }
    }
  }

  /** What a correction result may say: it never asks for another one, and completing advances the round. */
  ghost predicate CorrectionFacts(cfg: RunConfig, r: StageResult, s: Script, round: nat) {
    && r.reviewRound.None? && !r.outcome.CorrectionRequired?
    && r.correctionRound in {Some(round), Some(round + 1)}
    && (r.outcome.StageCompleted? ==>
          r.correctionRound == Some(round + 1) && s.after.Some? && SoundWrite(cfg, r, s.after.value))
  }

  lemma CorrectionReadingFacts(cfg: RunConfig, rejection: Option<GuardedOutcome>, o: GuardedOutcome, s: Script, round: nat)
    requires s.Valid()
    requires o.Succeeded? ==> s.after.Some? && SoundWrite(cfg, SucceededWrite(o, s, false, Some(round + 1)), s.after.value)
    ensures CorrectionFacts(cfg, CorrectionReading(rejection, o, s, round), s, round)
  {
    if rejection.Some? {
      WriteShapes(rejection.value, s, true, Some(round));
    } else {
      WriteShapes(o, s, true, Some(round));
      WriteShapes(o, s, true, Some(round + 1));
      WriteShapes(o, s, false, Some(round + 1));
    }
  }

  lemma CorrectionStageFacts(cfg: RunConfig, record: RunRecord, ledger: seq<Attempt>, i: WriteInput)
    requires ValidWriteInput(i)
    ensures var run := CorrectionStage(cfg, record, ledger, i);
      run.Returned? ==> CorrectionFacts(cfg, run.result, i.script, record.correctionRound)
  {
    var b := CorrectionBaseline(cfg, VerificationSource(ledger, {Fail, Pass}, cfg.commands));
    CorrectionSuccessIsSound(cfg, b, i.script, record.correctionRound);
    CorrectionReadingFacts(cfg, CorrectionRejection(cfg, record, ledger, i), Guarded(b, i.script), i.script,
      record.correctionRound);
  }

  lemma CorrectionSuccessIsSound(cfg: RunConfig, b: WritableBaseline, s: Script, round: nat)
    requires s.Valid() && CanonicalCapture(s.after)
    requires b.repositoryPath == cfg.repositoryPath && b.branch == Some(cfg.branch) && b.headSha == cfg.headSha
    requires s.executor.Ok? ==> !s.executor.value.task.ReviewTask?
    ensures Guarded(b, s).Succeeded? ==>
      s.after.Some? && SoundWrite(cfg, SucceededWrite(Guarded(b, s), s, false, Some(round + 1)), s.after.value)
  {
    if Guarded(b, s).Succeeded? {
      GuardedSuccessIsSound(cfg, b, s, Some(round + 1));
    }
  }

  // ----- decisions -----

  lemma RoundFits(cfg: RunConfig, record: RunRecord, attempt: Attempt, r: RoundInput)
    requires ValidConfig(cfg) && record.state in {PREPARING, VERIFYING}
    requires |r.outcomes| == |r.times| == |cfg.commands|
    ensures record.state.PREPARING? ==> RoundsFit(record, RoundResult(cfg, 0, attempt, r, true))
    ensures record.state.VERIFYING? ==> RoundsFit(record, RoundResult(cfg, record.correctionRound, attempt, r, false))
  {
    RoundResultFacts(cfg, 0, attempt, r, true);
    RoundResultFacts(cfg, record.correctionRound, attempt, r, false);
  }

  lemma WriteFits(cfg: RunConfig, record: RunRecord, ledger: seq<Attempt>, attempt: Attempt, w: WriteInput)
    requires ValidInput(cfg, record.state, WriteRun(w))
    ensures var run := RunStage(cfg, record, ledger, attempt, WriteRun(w)); run.Returned? ==> RoundsFit(record, run.result)
  {
    hide ImplementationStage, CorrectionStage, Canonical;
    if record.state.IMPLEMENTING? {
      ImplementationStageFacts(cfg, ledger, w);
    } else {
      CorrectionStageFacts(cfg, record, ledger, w);
    }
  }

  /** Every result a stage returns respects the round rules of its state. */
  lemma ResultsFit(cfg: RunConfig, record: RunRecord, ledger: seq<Attempt>, attempt: Attempt, i: StageInput)
    requires ValidConfig(cfg) && ValidInput(cfg, record.state, i)
    ensures var run := RunStage(cfg, record, ledger, attempt, i); run.Returned? ==> RoundsFit(record, run.result)
  {
    hide ReviewStage, ImplementationStage, CorrectionStage, RoundResult, Canonical;
    match i {
      case StageRaises =>
      case PreparationFails =>
      case RoundRun(r) => RoundFits(cfg, record, attempt, r);
      case ReviewRun(r) => ReviewStageFacts(cfg, record, ledger, attempt, r);
      case WriteRun(w) => WriteFits(cfg, record, ledger, attempt, w);
      case ReportRun(h) =>
    }
  }

  lemma FittingResultsDecide(record: RunRecord, r: StageResult)
    requires RoundsFit(record, r) && PhaseForActiveState(record.state).Some?
    ensures DecisionFor(record, r).Ok? && ApplyDecision(record, DecisionFor(record, r).value).Ok?
    ensures ApplyDecision(record, DecisionFor(record, r).value).value.Valid()
  {
    match record.state { case _ => }
  }

  /** The controller never trips over its own decision: every stage result is a legal transition to a valid record. */
  lemma StageDecisionsAreLegal(cfg: RunConfig, record: RunRecord, ledger: seq<Attempt>, attempt: Attempt, i: StageInput)
    requires ValidConfig(cfg) && ValidInput(cfg, record.state, i) && PhaseForActiveState(record.state).Some?
    ensures var run := RunStage(cfg, record, ledger, attempt, i);
      run.Returned? ==>
        && DecisionFor(record, run.result).Ok?
        && ApplyDecision(record, DecisionFor(record, run.result).value).Ok?
        && ApplyDecision(record, DecisionFor(record, run.result).value).value.Valid()
  {
    if RunStage(cfg, record, ledger, attempt, i).Returned? {
      ResultsFit(cfg, record, ledger, attempt, i);
      FittingResultsDecide(record, RunStage(cfg, record, ledger, attempt, i).result);
    }
  }

  lemma ImmediateDecisionsAreLegal(cfg: RunConfig, record: RunRecord)
    requires record.state in {PREPARED, CORRECTION_PENDING}
    ensures ApplyDecision(record, ImmediateDecision(cfg, record)).Ok?
    ensures ApplyDecision(record, ImmediateDecision(cfg, record)).value.Valid()
  {
  }
}
