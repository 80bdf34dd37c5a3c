/** What each step of a run leaves in the persisted record and in the ledger, value by value. */
module PersistedRecords {
  import opened Wrappers
  import opened Models
  import opened Snapshots
  import opened Attempts
  import opened Handoff
  import opened Stages
  import opened StageProperties
  import opened Resume
  import opened Lifecycle
  import opened LifecycleInvariant
  import opened LifecycleTheorems

  // ----- stops -----

  /**
   An exception in any reachable world leaves the ledger and a terminal record alone. A writable state is stopped
   for a human because the repository is uncertain, every other one fails on the controller; neither is retryable.
   */
  lemma ExceptionStops(cfg: RunConfig, w: World)
    requires Enabled(cfg, w, ControllerException)
    ensures var next := Next(cfg, w, ControllerException);
      && next.ledger == w.ledger && next.workspace == w.workspace && next.control.Down?
      && (w.record.state in {READY_FOR_HUMAN, HUMAN_REQUIRED, FAILED} ==> next.record == w.record)
      && (w.record.state !in {READY_FOR_HUMAN, HUMAN_REQUIRED, FAILED} ==>
            && next.record.correctionRound == w.record.correctionRound
            && next.record.reviewRound == w.record.reviewRound
            && if PhaseForActiveState(w.record.state) in {Some(ImplementingPhase), Some(CorrectingPhase)} then
                 next.record.state == HUMAN_REQUIRED && next.record.stop == Some(StopReason(REPOSITORY_UNCERTAIN, false))
               else next.record.state == FAILED && next.record.stop == Some(StopReason(CONTROLLER_FAILURE, false)))
  {
    match w.record.state { case _ => }
  }

  /** A refused resume stops the run for human judgment and touches nothing else. */
  lemma RefusalStops(cfg: RunConfig, w: World, i: ResumeInput)
    requires Enabled(cfg, w, ResumeRun(i)) && !Terminal(w.record.state)
    ensures var next := Next(cfg, w, ResumeRun(i));
      && next.ledger == w.ledger && next.workspace == w.workspace
      && if Problem(cfg, w.record, w.ledger, i).None? && i.configured then next.record == w.record && next.control.AtLoop?
         else
           && next.record == RunRecord(HUMAN_REQUIRED, w.record.correctionRound, w.record.reviewRound,
                Some(StopReason(HUMAN_JUDGMENT_REQUIRED, false)))
           && next.control.Down?
  {
  }

  // ----- decisions -----

  /** The record that a stage's result leads to: its state, its rounds and its stop, for every outcome. */
  predicate DecidedBy(record: RunRecord, r: StageResult, u: RunRecord) {
    && u.reviewRound == (if record.state == REVIEWING then record.reviewRound + 1 else record.reviewRound)
    && (record.state != CORRECTING ==> u.correctionRound == record.correctionRound)
    && match r.outcome
       case StageFailed => u.state == FAILED && u.stop == Some(StopReason(EXTERNAL_TOOL_FAILURE, true))
       case StageHumanRequired =>
         && u.state == HUMAN_REQUIRED
         && u.stop == Some(StopReason(if r.category.Some? then r.category.value else HUMAN_JUDGMENT_REQUIRED, false))
       case CorrectionRequired => record.state in {VERIFYING, REVIEWING} && u.state == CORRECTION_PENDING && u.stop.None?
       case StageCompleted =>
         && u.stop.None?
         && (record.state == PREPARING ==> u.state == PREPARED)
         && (record.state == IMPLEMENTING ==> u.state == VERIFYING)
         && (record.state == VERIFYING ==> u.state == REVIEWING)
         && (record.state == REVIEWING ==> u.state == REPORTING)
         && (record.state == CORRECTING ==> u.state == VERIFYING && u.correctionRound == record.correctionRound + 1)
         && (record.state == REPORTING ==> u.state == READY_FOR_HUMAN)
  }

  lemma FittingIsDecided(record: RunRecord, r: StageResult)
    requires RoundsFit(record, r) && PhaseForActiveState(record.state).Some?
    ensures DecisionFor(record, r).Ok? && ApplyDecision(record, DecisionFor(record, r).value).Ok?
    ensures DecidedBy(record, r, ApplyDecision(record, DecisionFor(record, r).value).value)
  {
    match record.state { case _ => }
  }

  /** In every run, whatever a stage returns is decided so, unless it raised. */
  lemma StagesAreDecided(cfg: RunConfig, w: World, input: StageInput)
    requires ValidConfig(cfg) && Reachable(cfg, w) && Enabled(cfg, w, RunHandler(input))
    ensures var run, next := RunStage(cfg, w.record, w.ledger, Newest(w.ledger), input), Next(cfg, w, RunHandler(input));
      && (run.Raised? ==> next == w.(control := Raising))
      && (run.Returned? ==>
            && next.control.Decided? && next.record == w.record && next.workspace == w.workspace
            && next.control.decision.completion == Some(run.result)
            && DecidedBy(w.record, run.result, next.control.updated))
  {
    ReachableInv(cfg, w);
    HandlerFits(cfg, w, input);
    hide RunStage, Inv, DecidedBy;
    var run := RunStage(cfg, w.record, w.ledger, Newest(w.ledger), input);
    if run.Returned? {
      HandlerDecided(cfg, w, run);
    }
  }

  lemma HandlerDecided(cfg: RunConfig, w: World, run: StageRun)
    requires Inv(cfg, w) && w.control.InStage? && Fitting(w.record, run) && run.Returned?
    ensures var next := AfterRun(w, run);
      && next.control.Decided? && next.record == w.record && next.workspace == w.workspace
      && next.control.decision.completion == Some(run.result)
      && DecidedBy(w.record, run.result, next.control.updated)
  {
    FittingIsDecided(w.record, run.result);
    hide DecidedBy;
  }

  /**
   PREPARED starts the implementation; a pending correction starts exactly while a round is left, and otherwise
   stops for human judgment.
   */
  lemma ImmediateDecisions(cfg: RunConfig, w: World)
    requires Enabled(cfg, w, Decide)
    ensures var next := Next(cfg, w, Decide);
      && next.control.Decided? && next.ledger == w.ledger && next.record == w.record
      && next.control.updated.correctionRound == w.record.correctionRound
      && next.control.updated.reviewRound == w.record.reviewRound
      && (w.record.state == PREPARED ==> next.control.updated.state == IMPLEMENTING)
      && (w.record.state == CORRECTION_PENDING ==>
            && (next.control.updated.state == CORRECTING <==> w.record.correctionRound < cfg.maxRounds)
            && (next.control.updated.state != CORRECTING ==>
                  next.control.updated.state == HUMAN_REQUIRED
                  && next.control.updated.stop == Some(StopReason(HUMAN_JUDGMENT_REQUIRED, false))))
  {
    ImmediateDecisionsAreLegal(cfg, w.record);
  }

  /** Saving makes exactly the decided record the persisted one. */
  lemma SavedIsDecided(cfg: RunConfig, w: World)
    requires Enabled(cfg, w, SaveTransition)
    ensures Next(cfg, w, SaveTransition).record == w.control.updated
    ensures Next(cfg, w, SaveTransition).ledger == w.ledger && Next(cfg, w, SaveTransition).workspace == w.workspace
  {
  }

  // ----- attempts -----

  /** A new attempt is STARTED and records the workspace it starts from exactly in a read-only phase. */
  lemma StartRecords(cfg: RunConfig, w: World, sequence: nat, capture: Capture)
    requires Enabled(cfg, w, StartAttempt(sequence, capture))
    ensures var next := Next(cfg, w, StartAttempt(sequence, capture));
      && next.record == w.record && |next.ledger| == |w.ledger| + 1 && next.ledger[..|w.ledger|] == w.ledger
      && var a := Newest(next.ledger);
      && a.sequence == sequence && a.status.Started? && ActiveState(a.phase) == w.record.state
      && a.after.None? && !a.processStarted && a.result.None? && a.execution.None?
      && a.before == if a.phase in {ImplementingPhase, CorrectingPhase} || capture.None? then None
                     else Some(FingerprintOf(capture.value))
  {
    assert (w.ledger + [StartedAttempt(w.record, sequence, capture)])[..|w.ledger|] == w.ledger;
  }

  /** The end of an attempt records its outcome, a captured final workspace and whether its process started. */
  lemma EndRecords(cfg: RunConfig, w: World)
    requires Enabled(cfg, w, EndAttempt)
    ensures var next, before, r := Next(cfg, w, EndAttempt), Newest(w.ledger), w.control.decision.completion.value;
      && next.record == w.record && |next.ledger| == |w.ledger|
      && next.ledger[..|w.ledger| - 1] == w.ledger[..|w.ledger| - 1]
      && var a := Newest(next.ledger);
      && a.sequence == before.sequence && a.phase == before.phase && a.before == before.before
      && a.after == (if r.after.Some? then r.after else before.after) && a.processStarted == r.processStarted
      && a.result == (if r.artifact.Some? then r.artifact else before.result) && a.execution == before.execution
      && (a.status.Completed? <==> r.outcome in {StageCompleted, CorrectionRequired})
      && (a.status.NeedsHuman? <==> r.outcome.StageHumanRequired?)
      && (a.status == AttemptStatus.Failed <==> r.outcome.StageFailed?)
  {
  }

  // ----- the transition table -----

  /**
   The table of legal transitions is exactly what a workflow uses: from every unfinished state the two failure stops,
   from an active one also what its stage's outcomes ask for, and the two starts that need no stage.
   */
  lemma TransitionsAreExact(s: WorkflowState, t: WorkflowState)
    ensures t in LegalTransitions(s) <==>
      && s !in {READY_FOR_HUMAN, HUMAN_REQUIRED, FAILED}
      && (|| t in {HUMAN_REQUIRED, FAILED}
          || (PhaseForActiveState(s).Some? && exists o :: RequestedState(s, o, None) == Ok(t))
          || (s, t) in {(PREPARED, IMPLEMENTING), (CORRECTION_PENDING, CORRECTING)})
  {
    assert RequestedState(s, StageCompleted, None) == RequestedState(s, StageCompleted, None);
    assert RequestedState(s, CorrectionRequired, None) == RequestedState(s, CorrectionRequired, None);
    match s { case _ => }
  }
}
