/** Runs that come to a handoff: the guarantees about READY_FOR_HUMAN and about quiet runs are not empty. */
module CompletedRun {
  import opened Wrappers
  import opened Models
  import opened Snapshots
  import opened TaskResults
  import opened Verification
  import opened Attempts
  import opened AgentExecutions
  import opened GuardedOperation
  import opened Handoff
  import opened Stages
  import opened StageProperties
  import opened Lifecycle
  import opened LifecycleInvariant
  import opened LifecycleTheorems
  import opened QuietRuns

  // ----- an undisturbed environment -----

  const NOW: Timing := Timing(0, 0)

  /** Every command exits with zero, at once, and every capture shows the workspace. */
  function GoodRound(cfg: RunConfig, s: Snapshot): RoundInput {
    RoundInput(Some(s), true, seq(|cfg.commands|, _ => Exited(0, "", "")), seq(|cfg.commands|, _ => NOW), Some(s), NOW, Some(s))
  }

  const WRITTEN: ImplementationResult := ImplementationResult(ImplementationCompleted, "x", [], [], [])

  function GoodWrite(before: Snapshot, after: Snapshot, attempt: Attempt): WriteInput {
    var clean := EnvironmentSnapshot({}, []);
    var execution := AgentExecution(ImplementationTask, InvocationStarted, Some(ImplementationArtifact(WRITTEN)), None);
    WriteInput(true, true, Script(Ok(attempt), clean, Some(before), Saved, None, true, Saved, Ok(execution), None, None, Saved,
      Some(after), clean, Saved, GuardRun(None, None), Ok(["x"])))
  }

  const REVIEWED: ReviewResult := ReviewResult(PASS, "x", [])

  function GoodReview(s: Snapshot): ReviewInput {
    ReviewInput(Some(s), true, AgentExecution(ReviewTask, InvocationStarted, Some(ReviewArtifact(REVIEWED)), None),
      Some(s), Some(s))
  }

  // ----- every stage completes in it -----

  lemma GoodRoundCompletes(cfg: RunConfig, roundIndex: nat, attempt: Attempt, s: Snapshot, baseline: bool)
    requires ValidConfig(cfg) && Canonical(s) && HandoverWorkspace(cfg, s) && attempt.before == Some(FingerprintOf(s))
    requires baseline ==> s == cfg.baseline
    ensures RoundResult(cfg, roundIndex, attempt, GoodRound(cfg, s), baseline).outcome.StageCompleted?
  {
    hide SafetyChanges, Compare, Canonical, FingerprintOf, RunCommands, Excerpt;
    var r := GoodRound(cfg, s);
    NothingChanged(cfg, s, attempt, baseline);
    CommandStatuses(cfg.commands, cfg.repositoryPath, r.outcomes, r.times);
  }

  lemma NothingChanged(cfg: RunConfig, s: Snapshot, attempt: Attempt, baseline: bool)
    requires ValidConfig(cfg) && Canonical(s) && HandoverWorkspace(cfg, s) && attempt.before == Some(FingerprintOf(s))
    requires baseline ==> s == cfg.baseline
    ensures StartingRoundChanges(cfg, attempt, GoodRound(cfg, s), baseline) == []
    ensures RoundChanges(s, Some(s)) == []
  {
    hide SafetyChanges, Canonical, FingerprintOf;
    SafetyIsExact(s, cfg.repositoryPath, Some(cfg.branch), cfg.headSha, true, false);
    MatchesIffSameFingerprint(s, s);
  }

  lemma GoodWriteIsValid(before: Snapshot, after: Snapshot, attempt: Attempt)
    requires Canonical(before) && Canonical(after)
    ensures ValidWriteInput(GoodWrite(before, after, attempt))
  {
    assert 'x' in "x" && !Space('x');
  }

  lemma GoodWriteCompletes(cfg: RunConfig, ledger: seq<Attempt>, after: Snapshot, attempt: Attempt)
    requires ValidConfig(cfg) && Canonical(after) && HandoverWorkspace(cfg, after) && BaselineEvidence(cfg, ledger, true)
    ensures ValidWriteInput(GoodWrite(cfg.baseline, after, attempt))
    ensures ImplementationStage(cfg, ledger, GoodWrite(cfg.baseline, after, attempt)).outcome.StageCompleted?
  {
    var i := GoodWrite(cfg.baseline, after, attempt);
    GoodWriteIsValid(cfg.baseline, after, attempt);
    GoodScriptSucceeds(cfg, after, attempt);
    SucceededFacts(ImplementationBaseline(cfg), i.script);
  }

  lemma GoodScriptSucceeds(cfg: RunConfig, after: Snapshot, attempt: Attempt)
    requires ValidConfig(cfg) && Canonical(after) && HandoverWorkspace(cfg, after)
    requires GoodWrite(cfg.baseline, after, attempt).script.Valid()
    ensures Guarded(ImplementationBaseline(cfg), GoodWrite(cfg.baseline, after, attempt).script).Succeeded?
  {
    hide Guarded, SafetyChanges, FingerprintOf;
    SafetyIsExact(cfg.baseline, cfg.repositoryPath, Some(cfg.branch), cfg.headSha, true, true);
    SuccessIsExact(ImplementationBaseline(cfg), GoodWrite(cfg.baseline, after, attempt).script);
  }

  lemma GoodReviewIsValid(s: Snapshot)
    requires Canonical(s)
    ensures ValidReviewInput(GoodReview(s))
  {
    assert 'x' in "x" && !Space('x');
  }

  lemma GoodReviewCompletes(cfg: RunConfig, record: RunRecord, ledger: seq<Attempt>, attempt: Attempt, s: Snapshot)
    requires Canonical(s) && HandoverWorkspace(cfg, s) && attempt.before == Some(FingerprintOf(s))
    requires Verified(cfg, ledger, record.correctionRound, FingerprintOf(s))
    ensures ValidReviewInput(GoodReview(s))
    ensures var run := ReviewStage(cfg, record, ledger, attempt, GoodReview(s));
      run.Returned? && run.result.outcome.StageCompleted?
  {
    GoodReviewIsValid(s);
    SafetyIsExact(s, cfg.repositoryPath, Some(cfg.branch), cfg.headSha, true, false);
    MatchesIffSameFingerprint(s, s);
    assert ReviewMayStart(cfg, ledger, attempt, GoodReview(s)) by {
      VerifiedIsSource(cfg, ledger, record.correctionRound, s);
    }
  }

  lemma VerifiedIsSource(cfg: RunConfig, ledger: seq<Attempt>, roundIndex: nat, s: Snapshot)
    requires Verified(cfg, ledger, roundIndex, FingerprintOf(s))
    ensures VerificationSource(ledger, {Pass}, cfg.commands) == Some(FingerprintOf(s)) && QuotableRound(ledger)
  {
    LatestWithStatus(ledger, {VerifyingPhase});
  }

  /** A latest record that is completed is the latest completed one. */
  lemma {:induction false} LatestWithStatus(ledger: seq<Attempt>, phases: set<AttemptPhase>)
    requires Latest(ledger, phases, ANY_STATUS).Some? && Latest(ledger, phases, ANY_STATUS).value.status.Completed?
    ensures Latest(ledger, phases, {Completed}) == Latest(ledger, phases, ANY_STATUS)
  {
    var last := ledger[|ledger| - 1];
    EveryStatus(last.status);
    if last.phase !in phases {
      LatestWithStatus(ledger[..|ledger| - 1], phases);
    }
  }

  // ----- reaching a world quietly -----

  /** A quiet run of a new ticket ends in w. */
  ghost predicate Reaches(cfg: RunConfig, steps: seq<Step>, w: World) {
    && QuietRun(cfg, Initial(cfg.baseline), steps) && Executable(cfg, Initial(cfg.baseline), steps)
    && After(cfg, Initial(cfg.baseline), steps) == w
  }

  lemma {:induction false} QuietAppended(cfg: RunConfig, w: World, steps: seq<Step>, s: Step)
    requires QuietRun(cfg, w, steps) && Executable(cfg, w, steps) && QuietStep(cfg, After(cfg, w, steps), s)
    ensures QuietRun(cfg, w, steps + [s]) && Executable(cfg, w, steps + [s])
    ensures After(cfg, w, steps + [s]) == Next(cfg, After(cfg, w, steps), s)
    decreases |steps|
  {
    if steps == [] {
      hide Next;
      assert [s][1..] == [];
    } else {
      hide Next, Enabled, QuietStep;
      assert (steps + [s])[1..] == steps[1..] + [s];
      QuietAppended(cfg, Next(cfg, w, steps[0]), steps[1..], s);
    }
  }

  lemma Onward(cfg: RunConfig, steps: seq<Step>, w: World, s: Step) returns (next: World)
    requires Reaches(cfg, steps, w) && QuietStep(cfg, w, s)
    ensures Reaches(cfg, steps + [s], next) && next == Next(cfg, w, s)
  {
    QuietAppended(cfg, Initial(cfg.baseline), steps, s);
    next := Next(cfg, w, s);
  }

  lemma ReachedIsSound(cfg: RunConfig, steps: seq<Step>, w: World)
    requires ValidConfig(cfg) && Reaches(cfg, steps, w)
    ensures Inv(cfg, w) && QuietInv(cfg, w) && Reachable(cfg, w)
  {
    InitiallyInv(cfg, cfg.baseline);
    InitiallyQuiet(cfg);
    QuietOverRuns(cfg, Initial(cfg.baseline), steps);
  }

  /** Starting the attempt of the current state. */
  lemma Begins(cfg: RunConfig, steps: seq<Step>, w: World) returns (longer: seq<Step>, next: World)
    requires ValidConfig(cfg) && Reaches(cfg, steps, w) && w.control.AtLoop? && PhaseForActiveState(w.record.state).Some?
    ensures Reaches(cfg, longer, next) && next.control.InStage? && next.ledger != []
    ensures next.record == w.record && next.workspace == w.workspace
    ensures next.ledger[..|next.ledger| - 1] == w.ledger
    ensures !WritableState(w.record.state) ==> Newest(next.ledger).before == Some(FingerprintOf(w.workspace))
  {
    hide Canonical, FingerprintOf, Standing, Reaches, RunStage, WriteCounts, WritesSettled, ReviewCounts, Sourced, Accepted,
      ValidConfig, PhaseForActiveState;
    ReachedIsSound(cfg, steps, w);
    var sequence := if w.ledger == [] then 1 else Newest(w.ledger).sequence + 1;
    var s := StartAttempt(sequence, Some(w.workspace));
    NumberIsNext(cfg, w);
    ActivePhase(w.record.state);
    next := Onward(cfg, steps, w, s);
    longer := steps + [s];
  }

  lemma NumberIsNext(cfg: RunConfig, w: World)
    requires Inv(cfg, w)
    ensures w.ledger != [] ==> forall a :: a in w.ledger ==> a.sequence < Newest(w.ledger).sequence + 1
  {
    if w.ledger != [] {
      NewestIsMaximal(w.ledger);
    }
  }

  /** Running the handler of a stage that completes. */
  lemma Handles(cfg: RunConfig, steps: seq<Step>, w: World, input: StageInput) returns (longer: seq<Step>, next: World)
    requires ValidConfig(cfg) && Reaches(cfg, steps, w) && w.control.InStage?
    requires w.ledger != [] && ValidInput(cfg, w.record.state, input) && QuietInput(w.workspace, input)
    requires var run := RunStage(cfg, w.record, w.ledger, Newest(w.ledger), input);
      run.Returned? && run.result.outcome.StageCompleted?
    ensures Reaches(cfg, longer, next) && longer == steps + [RunHandler(input)]
    ensures next == AfterRun(w, RunStage(cfg, w.record, w.ledger, Newest(w.ledger), input))
  {
    hide Reaches, RunStage, ValidInput, QuietInput;
    next := Onward(cfg, steps, w, RunHandler(input));
    longer := steps + [RunHandler(input)];
  }

  /** Ending the attempt and then saving the record. */
  lemma Persists(cfg: RunConfig, steps: seq<Step>, w: World) returns (longer: seq<Step>, next: World)
    requires Reaches(cfg, steps, w) && w.control.Decided? && w.control.decision.completion.Some?
    requires w.control.decision.source != REPORTING && w.ledger != [] && Newest(w.ledger).status.Started?
    ensures Reaches(cfg, longer, next) && next.control.AtLoop? && next.workspace == w.workspace
    ensures next.record == w.control.updated
  {
    hide Reaches, RunStage;
    var ended := Onward(cfg, steps, w, EndAttempt);
    longer := steps + [EndAttempt];
    next := Onward(cfg, longer, ended, SaveTransition);
    longer := longer + [SaveTransition];
  }

  /** A completed stage of a state before the report leads on to the state behind it. */
  lemma Completes(cfg: RunConfig, steps: seq<Step>, w: World, input: StageInput) returns (longer: seq<Step>, next: World)
    requires ValidConfig(cfg) && Reaches(cfg, steps, w) && w.control.InStage? && w.record.state != REPORTING
    requires w.ledger != [] && ValidInput(cfg, w.record.state, input) && QuietInput(w.workspace, input)
    requires var run := RunStage(cfg, w.record, w.ledger, Newest(w.ledger), input);
      run.Returned? && run.result.outcome.StageCompleted?
    ensures Reaches(cfg, longer, next) && next.control.AtLoop? && next.workspace == w.workspace
    ensures w.record.state in COMPLETED_TRANSITIONS && next.record.state == COMPLETED_TRANSITIONS[w.record.state]
  {
    ReachedIsSound(cfg, steps, w);
    HandlerFits(cfg, w, input);
    DecidedNext(cfg, w, RunStage(cfg, w.record, w.ledger, Newest(w.ledger), input));
    hide Reaches, RunStage, ValidInput, QuietInput, Inv, QuietInv, AfterRun, Fitting;
    longer, next := Handles(cfg, steps, w, input);
    longer, next := Persists(cfg, longer, next);
  }

  /** What a completed stage decides. */
  lemma DecidedNext(cfg: RunConfig, w: World, run: StageRun)
    requires Shape(cfg, w) && w.control.InStage? && Fitting(w.record, run) && w.record.state != REPORTING
    requires run.Returned? && run.result.outcome.StageCompleted?
    ensures var decided := AfterRun(w, run);
      && decided.control.Decided? && decided.control.decision.completion == Some(run.result)
      && decided.control.decision.source == w.record.state && decided.record == w.record
      && decided.workspace == w.workspace && decided.ledger != [] && Newest(decided.ledger).status.Started?
      && w.record.state in COMPLETED_TRANSITIONS
      && decided.control.updated.state == COMPLETED_TRANSITIONS[w.record.state]
  {
    FittingResultsDecide(w.record, run.result);
    NextRecord(w.record, run.result);
  }

  // ----- the stages of the run -----

  lemma ReachedFacts(cfg: RunConfig, steps: seq<Step>, w: World)
    requires ValidConfig(cfg) && Reaches(cfg, steps, w) && !Terminal(w.record.state)
    ensures Canonical(w.workspace) && Standing(cfg, w.record, w.ledger, w.workspace)
  {
    ReachedIsSound(cfg, steps, w);
    hide Inv, Standing, Canonical, Reaches;
  }

  lemma GoodRoundRuns(cfg: RunConfig, w: World)
    requires ValidConfig(cfg) && w.ledger != [] && Canonical(w.workspace) && HandoverWorkspace(cfg, w.workspace)
    requires w.record.state in {PREPARING, VERIFYING} && (w.record.state == PREPARING ==> w.workspace == cfg.baseline)
    requires Newest(w.ledger).before == Some(FingerprintOf(w.workspace))
    ensures var i := RoundRun(GoodRound(cfg, w.workspace));
      && ValidInput(cfg, w.record.state, i) && QuietInput(w.workspace, i)
      && var run := RunStage(cfg, w.record, w.ledger, Newest(w.ledger), i);
      run.Returned? && run.result.outcome.StageCompleted?
  {
    hide RoundResult, Canonical, HandoverWorkspace, ValidConfig, FingerprintOf;
    if w.record.state == PREPARING {
      GoodRoundCompletes(cfg, 0, Newest(w.ledger), w.workspace, true);
    } else {
      GoodRoundCompletes(cfg, w.record.correctionRound, Newest(w.ledger), w.workspace, false);
    }
  }

  lemma GoodWriteRuns(cfg: RunConfig, w: World)
    requires ValidConfig(cfg) && w.ledger != [] && Canonical(w.workspace) && HandoverWorkspace(cfg, w.workspace)
    requires w.record.state == IMPLEMENTING && BaselineEvidence(cfg, w.ledger, true)
    ensures var i := WriteRun(GoodWrite(cfg.baseline, w.workspace, Newest(w.ledger)));
      && ValidInput(cfg, w.record.state, i) && QuietInput(w.workspace, i)
      && var run := RunStage(cfg, w.record, w.ledger, Newest(w.ledger), i);
      run.Returned? && run.result.outcome.StageCompleted?
  {
    hide ImplementationStage, ValidWriteInput, Canonical, HandoverWorkspace, ValidConfig, FingerprintOf, BaselineEvidence;
    GoodWriteCompletes(cfg, w.ledger, w.workspace, Newest(w.ledger));
  }

  lemma GoodReviewRuns(cfg: RunConfig, w: World)
    requires w.ledger != [] && Canonical(w.workspace) && HandoverWorkspace(cfg, w.workspace)
    requires w.record.state == REVIEWING && Newest(w.ledger).before == Some(FingerprintOf(w.workspace))
    requires Verified(cfg, w.ledger, w.record.correctionRound, FingerprintOf(w.workspace))
    ensures var i := ReviewRun(GoodReview(w.workspace));
      && ValidInput(cfg, w.record.state, i) && QuietInput(w.workspace, i)
      && var run := RunStage(cfg, w.record, w.ledger, Newest(w.ledger), i);
      run.Returned? && run.result.outcome.StageCompleted?
  {
    hide ReviewStage, ValidReviewInput, Canonical, HandoverWorkspace, FingerprintOf, Verified;
    GoodReviewCompletes(cfg, w.record, w.ledger, Newest(w.ledger), w.workspace);
  }

  // ----- the run -----

  lemma Prepares(cfg: RunConfig) returns (steps: seq<Step>, w: World)
    requires ValidConfig(cfg)
    ensures Reaches(cfg, steps, w) && w.control.AtLoop? && w.workspace == cfg.baseline && w.record.state == IMPLEMENTING
  {
    BaselineIsSafe(cfg, cfg.baseline);
    hide Reaches, RoundResult, Canonical, HandoverWorkspace, ValidConfig;
    steps, w := [], Initial(cfg.baseline);
    NothingYet(cfg);
    steps, w := Begins(cfg, steps, w);
    steps, w := Rounds(cfg, steps, w);
    steps, w := Decides(cfg, steps, w);
  }

  lemma NothingYet(cfg: RunConfig)
    ensures Reaches(cfg, [], Initial(cfg.baseline))
  {
  }

  /** A good verification round completes preparation and verification. */
  lemma Rounds(cfg: RunConfig, steps: seq<Step>, w: World) returns (longer: seq<Step>, next: World)
    requires ValidConfig(cfg) && Reaches(cfg, steps, w) && w.control.InStage? && w.ledger != []
    requires w.record.state in {PREPARING, VERIFYING} && HandoverWorkspace(cfg, w.workspace)
    requires w.record.state == PREPARING ==> w.workspace == cfg.baseline
    requires Newest(w.ledger).before == Some(FingerprintOf(w.workspace))
    ensures Reaches(cfg, longer, next) && next.control.AtLoop? && next.workspace == w.workspace
    ensures next.record.state == COMPLETED_TRANSITIONS[w.record.state]
  {
    ReachedFacts(cfg, steps, w);
    GoodRoundRuns(cfg, w);
    hide Reaches, RunStage, ValidInput, QuietInput, HandoverWorkspace, ValidConfig, Standing, Canonical, FingerprintOf;
    longer, next := Completes(cfg, steps, w, RoundRun(GoodRound(cfg, w.workspace)));
  }

  lemma Decides(cfg: RunConfig, steps: seq<Step>, w: World) returns (longer: seq<Step>, next: World)
    requires ValidConfig(cfg) && Reaches(cfg, steps, w) && w.control.AtLoop? && w.record.state == PREPARED
    ensures Reaches(cfg, longer, next) && next.control.AtLoop? && next.workspace == w.workspace
    ensures next.record.state == IMPLEMENTING
  {
    ImmediateDecisionsAreLegal(cfg, w.record);
    hide Reaches, RunStage;
    var decided := Onward(cfg, steps, w, Decide);
    longer := steps + [Decide];
    next := Onward(cfg, longer, decided, SaveTransition);
    longer := longer + [SaveTransition];
  }

  /** An implementation that leaves the edited workspace behind. */
  lemma Implements(cfg: RunConfig, steps: seq<Step>, w: World, edited: Snapshot) returns (longer: seq<Step>, next: World)
    requires ValidConfig(cfg) && Reaches(cfg, steps, w) && w.control.AtLoop? && w.record.state == IMPLEMENTING
    requires Canonical(edited) && HandoverWorkspace(cfg, edited)
    ensures Reaches(cfg, longer, next) && next.control.AtLoop? && next.workspace == edited
    ensures next.record.state == VERIFYING
  {
    hide Reaches, RunStage, ValidInput, QuietInput, HandoverWorkspace, ValidConfig, Canonical, FingerprintOf,
      BaselineEvidence;
    longer, next := Begins(cfg, steps, w);
    longer, next := Edits(cfg, longer, next, edited);
    ReachedFacts(cfg, longer, next);
    GoodWriteRuns(cfg, next);
    longer, next := Completes(cfg, longer, next, WriteRun(GoodWrite(cfg.baseline, edited, Newest(next.ledger))));
  }

  lemma Edits(cfg: RunConfig, steps: seq<Step>, w: World, edited: Snapshot) returns (longer: seq<Step>, next: World)
    requires Reaches(cfg, steps, w) && w.control.InStage? && w.record.state == IMPLEMENTING && Canonical(edited)
    ensures Reaches(cfg, longer, next) && next == w.(workspace := edited)
  {
    hide Reaches, RunStage, Canonical;
    next := Onward(cfg, steps, w, EditWorkspace(edited));
    longer := steps + [EditWorkspace(edited)];
  }

  lemma Verifies(cfg: RunConfig, steps: seq<Step>, w: World) returns (longer: seq<Step>, next: World)
    requires ValidConfig(cfg) && Reaches(cfg, steps, w) && w.control.AtLoop? && w.record.state == VERIFYING
    requires HandoverWorkspace(cfg, w.workspace)
    ensures Reaches(cfg, longer, next) && next.control.AtLoop? && next.workspace == w.workspace
    ensures next.record.state == REVIEWING
  {
    hide Reaches, HandoverWorkspace, ValidConfig;
    longer, next := Begins(cfg, steps, w);
    longer, next := Rounds(cfg, longer, next);
  }

  lemma Reviews(cfg: RunConfig, steps: seq<Step>, w: World) returns (longer: seq<Step>, next: World)
    requires ValidConfig(cfg) && Reaches(cfg, steps, w) && w.control.AtLoop? && w.record.state == REVIEWING
    requires HandoverWorkspace(cfg, w.workspace)
    ensures Reaches(cfg, longer, next) && next.control.AtLoop? && next.workspace == w.workspace
    ensures next.record.state == REPORTING
  {
    hide Reaches, RunStage, ValidInput, QuietInput, HandoverWorkspace, ValidConfig, Canonical, FingerprintOf, Verified;
    longer, next := Begins(cfg, steps, w);
    ReachedFacts(cfg, longer, next);
    GoodReviewRuns(cfg, next);
    longer, next := Completes(cfg, longer, next, ReviewRun(GoodReview(next.workspace)));
  }

  /** A report in progress, and the persisted handoff it leads to. */
  lemma Reports(cfg: RunConfig, steps: seq<Step>, w: World) returns (longer: seq<Step>, begun: World, done: World)
    requires ValidConfig(cfg) && Reaches(cfg, steps, w) && w.control.AtLoop? && w.record.state == REPORTING
    ensures exists i :: 0 <= i <= |longer| && Reaches(cfg, longer[..i], begun)
    ensures begun.control.InStage? && begun.record.state == REPORTING && begun.workspace == w.workspace
    ensures Reaches(cfg, longer, done) && done.record.state == READY_FOR_HUMAN && done.workspace == w.workspace
  {
    var started: seq<Step>;
    hide Reaches, RunStage, ValidInput, QuietInput, FingerprintOf, ValidConfig;
    started, begun := Begins(cfg, steps, w);
    GoodReportRuns(cfg, started, begun);
    var input := ReportRun(GoodReport(begun.workspace));
    HandlerFits(cfg, begun, input);
    ReportDecides(cfg, begun, RunStage(cfg, begun.record, begun.ledger, Newest(begun.ledger), input));
    var decided: World;
    longer, decided := Handles(cfg, started, begun, input);
    done := Saves(cfg, longer, decided);
    longer := longer + [SaveTransition];
    assert longer[..|started|] == started;
  }

  lemma Saves(cfg: RunConfig, steps: seq<Step>, w: World) returns (next: World)
    requires Reaches(cfg, steps, w) && w.control.Decided? && w.control.decision.source == REPORTING
    ensures Reaches(cfg, steps + [SaveTransition], next) && next.record == w.control.updated && next.workspace == w.workspace
  {
    hide Reaches, RunStage;
    next := Onward(cfg, steps, w, SaveTransition);
  }

  function GoodReport(s: Snapshot): HandoffInput {
    HandoffInput(Some(s), true, Some(s))
  }

  lemma GoodReportRuns(cfg: RunConfig, steps: seq<Step>, w: World)
    requires ValidConfig(cfg) && Reaches(cfg, steps, w) && w.control.InStage? && w.record.state == REPORTING
    requires w.ledger != []
    ensures Shape(cfg, w)
    ensures var i := ReportRun(GoodReport(w.workspace));
      && ValidInput(cfg, w.record.state, i) && QuietInput(w.workspace, i)
      && var run := RunStage(cfg, w.record, w.ledger, Newest(w.ledger), i);
      run.Returned? && run.result.outcome.StageCompleted?
  {
    hide ReportingStage, Standing, Reaches, EvaluateHandoffPolicy, ReadPolicyRequest, Canonical, WriteCounts, WritesSettled,
      ReviewCounts, Sourced, Accepted, ValidConfig;
    ReachedIsSound(cfg, steps, w);
    StandingIsAccepted(cfg, w, GoodReport(w.workspace));
  }

  lemma ReportDecides(cfg: RunConfig, w: World, run: StageRun)
    requires Shape(cfg, w) && w.control.InStage? && Fitting(w.record, run) && w.record.state == REPORTING
    requires run.Returned? && run.result.outcome.StageCompleted?
    ensures var decided := AfterRun(w, run);
      && decided.control.Decided? && decided.control.decision.completion == Some(run.result)
      && decided.control.decision.source == REPORTING && decided.workspace == w.workspace
      && decided.control.updated.state == READY_FOR_HUMAN
  {
    FittingResultsDecide(w.record, run.result);
  }

  /**
   Whatever safe workspace an implementation leaves, some quiet run starts a report about it and persists
   READY_FOR_HUMAN with exactly this workspace.
   */
  lemma SomeRunHandsOver(cfg: RunConfig, edited: Snapshot) returns (steps: seq<Step>, reporting: World, done: World)
    requires ValidConfig(cfg) && Canonical(edited) && HandoverWorkspace(cfg, edited)
    ensures exists i :: 0 <= i <= |steps| && Reaches(cfg, steps[..i], reporting)
    ensures reporting.control.InStage? && reporting.record.state == REPORTING && reporting.workspace == edited
    ensures Reaches(cfg, steps, done) && done.record.state == READY_FOR_HUMAN && done.workspace == edited
  {
    hide Reaches, HandoverWorkspace, ValidConfig, Canonical;
    var w: World;
    steps, w := Prepares(cfg);
    steps, w := Implements(cfg, steps, w, edited);
    steps, w := Verifies(cfg, steps, w);
    steps, w := Reviews(cfg, steps, w);
    steps, reporting, done := Reports(cfg, steps, w);
  }
}
