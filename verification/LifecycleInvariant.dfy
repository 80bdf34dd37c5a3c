/** The inductive invariant that ties the persisted record to the attempt ledger in every reachable world. */
module LifecycleInvariant {
  import opened Wrappers
  import opened Models
  import opened Snapshots
  import opened Attempts
  import opened Corrections
  import opened TaskResults
  import opened Handoff
  import opened Stages
  import opened StageProperties
  import opened Resume
  import opened Lifecycle

  // ----- the controller agrees with what is persisted -----

  /** A decision is what the current record and its result determine. */
  predicate DecisionOf(record: RunRecord, d: StageDecision) {
    d.completion.Some? && DecisionFor(record, d.completion.value) == Ok(d) && RoundsFit(record, d.completion.value)
  }

  predicate ControlFits(cfg: RunConfig, w: World) {
    match w.control
    case Down => true
    case Raising => !Terminal(w.record.state)
    case AtLoop => true
    case InStage => Working(w)
    case Decided(d, u) =>
      && ApplyDecision(w.record, d) == Ok(u)
      && if d.completion.Some? then DecisionOf(w.record, d) && Working(w)
         else w.record.state in {PREPARED, CORRECTION_PENDING} && d == ImmediateDecision(cfg, w.record)
    case AttemptEnded(d, u) =>
      && ApplyDecision(w.record, d) == Ok(u) && DecisionOf(w.record, d) && w.record.state != REPORTING
      && w.ledger != [] && PhaseForActiveState(w.record.state) == Some(Newest(w.ledger).phase)
      && Newest(w.ledger).status == StatusForOutcome(d.completion.value.outcome)
    case TransitionSaved(d) =>
      && d.completion.Some? && d.source == REPORTING && Terminal(w.record.state)
      && (d.completion.value.outcome.StageCompleted? <==> w.record.state == READY_FOR_HUMAN)
      && w.ledger != [] && Newest(w.ledger).phase.ReportingPhase? && Newest(w.ledger).status.Started?
  }

  predicate Shape(cfg: RunConfig, w: World) {
    Ordered(w.ledger) && w.record.Valid() && ControlFits(cfg, w)
  }

  // ----- writes -----

  predicate WritesCompleted(ledger: seq<Attempt>) {
    forall a :: a in ledger && Writes(a.phase) ==> a.status.Completed?
  }

  predicate WritableState(s: WorkflowState) {
    s in {IMPLEMENTING, CORRECTING}
  }

  /** Past an active write every writable attempt is completed; during one, every older attempt is. */
  predicate WritesSettled(w: World) {
    && (!Terminal(w.record.state) ==>
          || WritesCompleted(w.ledger)
          || (WritableState(w.record.state) && w.ledger != [] && Writes(Newest(w.ledger).phase)
              && WritesCompleted(Older(w.ledger))))
    && (w.control.AtLoop? && !Terminal(w.record.state) ==> WritesCompleted(w.ledger))
    && (w.control.AttemptEnded? && !Terminal(w.control.updated.state) ==> WritesCompleted(w.ledger))
  }

  // ----- rounds -----

  /** The attempt of the current state has been started by this controller. */
  predicate AttemptTaken(c: Control) {
    c.InStage? || (c.Decided? && c.decision.completion.Some?) || c.AttemptEnded?
  }

  predicate WriteCounts(cfg: RunConfig, w: World) {
    var n, m, c := Count(w.ledger, ImplementingPhase), Count(w.ledger, CorrectingPhase), w.record.correctionRound;
    && n <= 1 && m <= cfg.maxRounds && c <= cfg.maxRounds
    && match w.record.state
       case PREPARING => n == 0 && m == 0 && c == 0
       case PREPARED => n == 0 && m == 0 && c == 0
       case IMPLEMENTING => m == 0 && c == 0 && (w.control.AtLoop? ==> n == 0) && (AttemptTaken(w.control) ==> n == 1)
       case CORRECTING =>
         && n == 1 && c < cfg.maxRounds && c <= m <= c + 1
         && (w.control.AtLoop? ==> m == c) && (AttemptTaken(w.control) ==> m == c + 1)
       case READY_FOR_HUMAN => true
       case HUMAN_REQUIRED => true
       case FAILED => true
       case _ => n == 1 && m == c
  }

  predicate ReviewCounts(w: World) {
    && (!Terminal(w.record.state) ==> w.record.reviewRound <= CountCompleted(w.ledger, ReviewingPhase))
    && (w.control.AttemptEnded? && !Terminal(w.control.updated.state) ==>
          w.control.updated.reviewRound <= CountCompleted(w.ledger, ReviewingPhase))
  }

  // ----- the source of a pending correction -----

  predicate CorrectionSource(ledger: seq<Attempt>, source: Attempt) {
    && AsksForCorrection(source)
    && Latest(ledger, {source.phase}, {Completed}) == Some(source)
    && (source.phase.ReviewingPhase? ==> LatestRoundPassed(ledger))
  }

  /** What the artifact of a decided verification or review says, for each state the decision leads to. */
  predicate ArtifactAgrees(w: World, a: Attempt, requested: WorkflowState) {
    match w.record.state
    case VERIFYING =>
      && (requested == REVIEWING ==>
            a.result.Some? && a.result.value.RoundArtifact? && a.result.value.round.status.Pass?)
      && (requested == CORRECTION_PENDING ==> AsksForCorrection(a))
    case REVIEWING => requested == CORRECTION_PENDING ==> AsksForCorrection(a)
    case _ => true
  }

  predicate Sourced(w: World) {
    && (w.record.state == REVIEWING ==> LatestRoundPassed(w.ledger))
    && (w.record.state in {CORRECTION_PENDING, CORRECTING} ==>
          w.origin.Some? && CorrectionSource(w.ledger, w.origin.value))
    && (w.control.Decided? && w.control.decision.completion.Some? && w.ledger != [] ==>
          ArtifactAgrees(w, EndedAttempt(Newest(w.ledger), w.control.decision.completion.value), w.control.updated.state))
    && (w.control.AttemptEnded? && w.ledger != [] ==> ArtifactAgrees(w, Newest(w.ledger), w.control.updated.state))
  }

  // ----- handoff -----

  /** The report p accepted the workspace s with the whole evidence chain behind it. */
  ghost predicate AcceptedBy(cfg: RunConfig, record: RunRecord, ledger: seq<Attempt>, s: Snapshot,
      w: Attempt, v: Attempt, r: Attempt, p: Attempt)
  {
    && Canonical(s) && HandoverWorkspace(cfg, s) && EvidenceChain(cfg, record, ledger, FingerprintOf(s), w, v, r, p)
    && p.before == Some(FingerprintOf(s)) && (p.status.Completed? ==> p.after == Some(FingerprintOf(s)))
  }

  ghost predicate HandedOver(cfg: RunConfig, record: RunRecord, ledger: seq<Attempt>) {
    exists s, w, v, r, p :: AcceptedBy(cfg, record, ledger, s, w, v, r, p)
  }

  /** A decision to hand over is about the workspace its report started from. */
  predicate SameWorkspace(ledger: seq<Attempt>, d: StageDecision) {
    d.completion.Some? && ledger != [] && d.completion.value.after == Newest(ledger).before
  }

  ghost predicate Accepted(cfg: RunConfig, w: World) {
    && (w.record.state == READY_FOR_HUMAN ==> HandedOver(cfg, w.record, w.ledger))
    && (w.control.Decided? && w.control.updated.state == READY_FOR_HUMAN ==>
          HandedOver(cfg, w.record, w.ledger) && SameWorkspace(w.ledger, w.control.decision))
    && (w.control.TransitionSaved? && w.record.state == READY_FOR_HUMAN ==>
          SameWorkspace(w.ledger, w.control.decision))
  }

  ghost predicate Inv(cfg: RunConfig, w: World) {
    Shape(cfg, w) && WritesSettled(w) && WriteCounts(cfg, w) && ReviewCounts(w) && Sourced(w) && Accepted(cfg, w)
  }

  // ----- ledgers -----

  lemma OrderedAppended(ledger: seq<Attempt>, a: Attempt)
    requires Ordered(ledger) && forall b :: b in ledger ==> b.sequence < a.sequence
    ensures Ordered(ledger + [a]) && Newest(ledger + [a]) == a && Older(ledger + [a]) == ledger
  {
  }

  lemma OrderedReplaced(ledger: seq<Attempt>, a: Attempt)
    requires ledger != [] && Ordered(ledger) && a.sequence == Newest(ledger).sequence
    ensures Ordered(Replaced(ledger, a)) && Newest(Replaced(ledger, a)) == a
    ensures Older(Replaced(ledger, a)) == Older(ledger)
  {
    var r := Replaced(ledger, a);
    forall i, j | 0 <= i < j < |r| ensures r[i].sequence < r[j].sequence {
      assert r[i] == Older(ledger)[i] == ledger[i];
      if j < |r| - 1 {
        assert r[j] == ledger[j];
      }
    }
  }

  lemma CountsReplaced(ledger: seq<Attempt>, a: Attempt, phase: AttemptPhase)
    requires ledger != [] && a.phase == Newest(ledger).phase
    ensures Count(Replaced(ledger, a), phase) == Count(ledger, phase)
    ensures CountCompleted(Replaced(ledger, a), phase) == CountCompleted(Older(ledger), phase)
      + (if a.phase == phase && a.status.Completed? then 1 else 0)
    ensures CountCompleted(ledger, phase) == CountCompleted(Older(ledger), phase)
      + (if Newest(ledger).phase == phase && Newest(ledger).status.Completed? then 1 else 0)
  {
  }

  lemma WritesReplaced(ledger: seq<Attempt>, a: Attempt)
    requires ledger != []
    ensures WritesCompleted(Replaced(ledger, a)) <==>
      WritesCompleted(Older(ledger)) && (Writes(a.phase) ==> a.status.Completed?)
    ensures WritesCompleted(ledger) <==>
      WritesCompleted(Older(ledger)) && (Writes(Newest(ledger).phase) ==> Newest(ledger).status.Completed?)
  {
    assert ledger == Older(ledger) + [Newest(ledger)];
    assert Replaced(ledger, a) == Older(ledger) + [a];
  }

  lemma LatestReplaced(ledger: seq<Attempt>, a: Attempt, phases: set<AttemptPhase>)
    requires ledger != []
    ensures Latest(Replaced(ledger, a), phases, {Completed}) ==
      if a.phase in phases && a.status.Completed? then Some(a) else Latest(Older(ledger), phases, {Completed})
    ensures Newest(ledger).status.Started? ==>
      Latest(ledger, phases, {Completed}) == Latest(Older(ledger), phases, {Completed})
  {
  }

  /** An attempt that is not completed does not change what the planner and the review read. */
  lemma SourcesSurviveReplacement(ledger: seq<Attempt>, a: Attempt, source: Attempt)
    requires ledger != [] && Newest(ledger).status.Started? && !a.status.Completed?
    ensures LatestRoundPassed(Replaced(ledger, a)) <==> LatestRoundPassed(ledger)
    ensures CorrectionSource(Replaced(ledger, a), source) <==> CorrectionSource(ledger, source)
  {
    LatestReplaced(ledger, a, {VerifyingPhase});
    LatestReplaced(ledger, a, {source.phase});
  }

  lemma SourcesSurviveAppend(ledger: seq<Attempt>, a: Attempt, source: Attempt)
    requires !a.status.Completed?
    ensures LatestRoundPassed(ledger + [a]) <==> LatestRoundPassed(ledger)
    ensures CorrectionSource(ledger + [a], source) <==> CorrectionSource(ledger, source)
  {
    LatestAppended(ledger, a, {VerifyingPhase}, {Completed});
    LatestAppended(ledger, a, {source.phase}, {Completed});
  }

  /** A completed attempt of another phase than verification, and than the source's, changes neither. */
  lemma SourcesSurviveCompletion(ledger: seq<Attempt>, a: Attempt, source: Attempt)
    requires ledger != [] && Newest(ledger).status.Started?
    ensures !a.phase.VerifyingPhase? ==> (LatestRoundPassed(Replaced(ledger, a)) <==> LatestRoundPassed(ledger))
    ensures !a.phase.VerifyingPhase? && a.phase != source.phase ==>
      (CorrectionSource(Replaced(ledger, a), source) <==> CorrectionSource(ledger, source))
  {
    LatestReplaced(ledger, a, {VerifyingPhase});
    LatestReplaced(ledger, a, {source.phase});
  }

  // ----- preservation: shape -----

  /** What the lifecycle may rely on when a stage returns. */
  predicate Fitting(record: RunRecord, run: StageRun) {
    run.Returned? ==> RoundsFit(record, run.result)
  }

  lemma RunShape(cfg: RunConfig, w: World, run: StageRun)
    requires Shape(cfg, w) && w.control.InStage? && Fitting(w.record, run)
    ensures Shape(cfg, AfterRun(w, run))
    ensures run.Returned? ==> AfterRun(w, run).control.Decided?
  {
    if run.Returned? {
      FittingResultsDecide(w.record, run.result);
      OrderedReplaced(w.ledger, WithFiles(Newest(w.ledger), run.result));
    }
  }

  lemma HandlerFits(cfg: RunConfig, w: World, input: StageInput)
    requires ValidConfig(cfg) && w.ledger != [] && ValidInput(cfg, w.record.state, input)
    ensures Fitting(w.record, RunStage(cfg, w.record, w.ledger, Newest(w.ledger), input))
  {
    ResultsFit(cfg, w.record, w.ledger, Newest(w.ledger), input);
  }

  lemma EndShape(cfg: RunConfig, w: World)
    requires Shape(cfg, w) && Enabled(cfg, w, EndAttempt)
    ensures Shape(cfg, AfterEnd(w))
  {
    OrderedReplaced(w.ledger, EndedAttempt(Newest(w.ledger), w.control.decision.completion.value));
  }

  lemma StartShape(cfg: RunConfig, w: World, sequence: nat, capture: Capture)
    requires Shape(cfg, w) && Enabled(cfg, w, StartAttempt(sequence, capture))
    ensures Shape(cfg, Next(cfg, w, StartAttempt(sequence, capture)))
  {
    OrderedAppended(w.ledger, StartedAttempt(w.record, sequence, capture));
  }

  lemma ProgressShape(cfg: RunConfig, w: World, attempt: Attempt)
    requires Shape(cfg, w) && Enabled(cfg, w, Progress(attempt))
    ensures Shape(cfg, Next(cfg, w, Progress(attempt)))
  {
    OrderedReplaced(w.ledger, attempt);
  }

  lemma OtherShape(cfg: RunConfig, w: World, s: Step)
    requires Shape(cfg, w) && Enabled(cfg, w, s)
    requires s.Decide? || s.ControllerException? || s.Crash? || s.Leave? || s.ResumeRun? || s.EditWorkspace?
    ensures Shape(cfg, Next(cfg, w, s))
  {
    if s.Decide? {
      ImmediateDecisionsAreLegal(cfg, w.record);
    }
  }

  lemma SaveShape(cfg: RunConfig, w: World)
    requires Shape(cfg, w) && Enabled(cfg, w, SaveTransition)
    ensures Shape(cfg, AfterSave(w))
  {
    var d := w.control.decision;
    if w.control.Decided? && d.completion.Some? {
      ReportingEndsTheRun(w.record, d, w.control.updated);
    }
  }

  lemma ReportingEndsTheRun(record: RunRecord, d: StageDecision, u: RunRecord)
    requires record.state == REPORTING && ApplyDecision(record, d) == Ok(u) && DecisionOf(record, d)
    ensures Terminal(u.state) && (d.completion.value.outcome.StageCompleted? <==> u.state == READY_FOR_HUMAN)
  {
  }

  lemma ShapeKept(cfg: RunConfig, w: World, s: Step)
    requires ValidConfig(cfg) && Shape(cfg, w) && Enabled(cfg, w, s)
    ensures Shape(cfg, Next(cfg, w, s))
  {
    hide RunStage;
    match s {
      case StartAttempt(sequence, capture) => StartShape(cfg, w, sequence, capture);
      case Progress(attempt) => ProgressShape(cfg, w, attempt);
      case RunHandler(input) =>
        HandlerFits(cfg, w, input);
        RunShape(cfg, w, RunStage(cfg, w.record, w.ledger, Newest(w.ledger), input));
      case EndAttempt => EndShape(cfg, w);
      case SaveTransition => SaveShape(cfg, w);
      case _ => OtherShape(cfg, w, s);
    }
  }

  // ----- preservation: writes -----

  /** Only an outcome whose attempt ends COMPLETED leads to another active state. */
  lemma NonterminalMeansCompleted(record: RunRecord, d: StageDecision, u: RunRecord)
    requires DecisionOf(record, d) && ApplyDecision(record, d) == Ok(u) && !Terminal(u.state)
    ensures StatusForOutcome(d.completion.value.outcome).Completed?
    ensures d.completion.value.outcome in {StageCompleted, CorrectionRequired}
    ensures d.completion.value.outcome.CorrectionRequired? <==> u.state == CORRECTION_PENDING
  {
  }

  /** While the controller works on an attempt, every write before it is completed. */
  lemma OlderWritesCompleted(cfg: RunConfig, w: World)
    requires Shape(cfg, w) && WritesSettled(w) && Working(w)
    ensures WritesCompleted(Older(w.ledger)) && !Terminal(w.record.state)
    ensures Writes(Newest(w.ledger).phase) <==> WritableState(w.record.state)
  {
    WritesReplaced(w.ledger, Newest(w.ledger));
    match w.record.state { case _ => }
  }

  lemma WorkKeepsWrites(cfg: RunConfig, w: World, w': World, a: Attempt)
    requires Shape(cfg, w) && WritesSettled(w) && Working(w)
    requires a.phase == Newest(w.ledger).phase && w'.ledger == Replaced(w.ledger, a) && w'.record == w.record
    requires !w'.control.AtLoop?
    requires w'.control.AttemptEnded? && !Terminal(w'.control.updated.state) ==> a.status.Completed?
    ensures WritesSettled(w')
  {
    OlderWritesCompleted(cfg, w);
    OrderedReplaced(w.ledger, a.(sequence := Newest(w.ledger).sequence));
    WritesReplaced(w.ledger, a);
  }

  lemma StartKeepsWrites(cfg: RunConfig, w: World, sequence: nat, capture: Capture)
    requires Shape(cfg, w) && WritesSettled(w) && Enabled(cfg, w, StartAttempt(sequence, capture))
    ensures WritesSettled(Next(cfg, w, StartAttempt(sequence, capture)))
  {
    ActivePhase(w.record.state);
    hide PhaseForActiveState, Canonical, RunStage, Terminal, Ordered, Count;
    WritesAppended(w.ledger, StartedAttempt(w.record, sequence, capture));
  }

  lemma ActivePhase(s: WorkflowState)
    ensures PhaseForActiveState(s).Some? ==> !Terminal(s) && (Writes(PhaseForActiveState(s).value) <==> WritableState(s))
  {
    match s { case _ => }
  }

  lemma WritesAppended(ledger: seq<Attempt>, a: Attempt)
    requires WritesCompleted(ledger)
    ensures Newest(ledger + [a]) == a && Older(ledger + [a]) == ledger
    ensures !Writes(a.phase) ==> WritesCompleted(ledger + [a])
  {
  }

  lemma EndKeepsWrites(cfg: RunConfig, w: World)
    requires Shape(cfg, w) && WritesSettled(w) && Enabled(cfg, w, EndAttempt)
    ensures WritesSettled(AfterEnd(w))
  {
    if w.control.Decided? {
      if !Terminal(w.control.updated.state) {
        NonterminalMeansCompleted(w.record, w.control.decision, w.control.updated);
      }
      WorkKeepsWrites(cfg, w, AfterEnd(w), EndedAttempt(Newest(w.ledger), w.control.decision.completion.value));
    }
  }

  lemma SaveKeepsWrites(cfg: RunConfig, w: World)
    requires Shape(cfg, w) && WritesSettled(w) && Enabled(cfg, w, SaveTransition)
    ensures WritesSettled(AfterSave(w))
  {
    if w.control.Decided? && w.control.decision.completion.Some? {
      ReportingEndsTheRun(w.record, w.control.decision, w.control.updated);
    }
  }

  lemma ResumeKeepsWrites(cfg: RunConfig, w: World, i: ResumeInput)
    requires Shape(cfg, w) && WritesSettled(w) && Enabled(cfg, w, ResumeRun(i))
    ensures WritesSettled(AfterResume(cfg, w, i))
  {
    ResumableIff(cfg, w.record, w.ledger, i);
  }

  lemma HandlerKeepsWrites(cfg: RunConfig, w: World, run: StageRun)
    requires Shape(cfg, w) && WritesSettled(w) && w.control.InStage? && Fitting(w.record, run)
    ensures WritesSettled(AfterRun(w, run))
  {
    RunShape(cfg, w, run);
    if run.Returned? {
      WorkKeepsWrites(cfg, w, AfterRun(w, run), WithFiles(Newest(w.ledger), run.result));
    }
  }

  lemma ProgressKeepsWrites(cfg: RunConfig, w: World, attempt: Attempt)
    requires Shape(cfg, w) && WritesSettled(w) && Enabled(cfg, w, Progress(attempt))
    ensures WritesSettled(Next(cfg, w, Progress(attempt)))
  {
    WorkKeepsWrites(cfg, w, Next(cfg, w, Progress(attempt)), attempt);
  }

  lemma OtherKeepsWrites(cfg: RunConfig, w: World, s: Step)
    requires Shape(cfg, w) && WritesSettled(w) && Enabled(cfg, w, s)
    requires s.Decide? || s.ControllerException? || s.Crash? || s.Leave? || s.EditWorkspace?
    ensures WritesSettled(Next(cfg, w, s))
  {
  }

  lemma WritesKept(cfg: RunConfig, w: World, s: Step)
    requires ValidConfig(cfg) && Shape(cfg, w) && WritesSettled(w) && Enabled(cfg, w, s)
    ensures WritesSettled(Next(cfg, w, s))
  {
    hide RunStage;
    match s {
      case StartAttempt(sequence, capture) => StartKeepsWrites(cfg, w, sequence, capture);
      case Progress(attempt) => ProgressKeepsWrites(cfg, w, attempt);
      case RunHandler(input) =>
        HandlerFits(cfg, w, input);
        HandlerKeepsWrites(cfg, w, RunStage(cfg, w.record, w.ledger, Newest(w.ledger), input));
      case EndAttempt => EndKeepsWrites(cfg, w);
      case SaveTransition => SaveKeepsWrites(cfg, w);
      case ResumeRun(resume) => ResumeKeepsWrites(cfg, w, resume);
      case _ => OtherKeepsWrites(cfg, w, s);
    }
  }

  // ----- preservation: rounds -----

  lemma StartKeepsCounts(cfg: RunConfig, w: World, sequence: nat, capture: Capture)
    requires Shape(cfg, w) && WriteCounts(cfg, w) && Enabled(cfg, w, StartAttempt(sequence, capture))
    ensures WriteCounts(cfg, Next(cfg, w, StartAttempt(sequence, capture)))
  {
    var a := StartedAttempt(w.record, sequence, capture);
    CountAppended(w.ledger, a, ImplementingPhase);
    CountAppended(w.ledger, a, CorrectingPhase);
    match w.record.state { case _ => }
  }

  lemma WorkKeepsCounts(cfg: RunConfig, w: World, w': World, a: Attempt)
    requires WriteCounts(cfg, w) && w.ledger != [] && a.phase == Newest(w.ledger).phase
    requires w'.ledger == Replaced(w.ledger, a) && w'.record == w.record
    requires AttemptTaken(w'.control) ==> AttemptTaken(w.control)
    requires w'.control.AtLoop? ==> Terminal(w.record.state)
    ensures WriteCounts(cfg, w')
  {
    CountsReplaced(w.ledger, a, ImplementingPhase);
    CountsReplaced(w.ledger, a, CorrectingPhase);
  }

  /** The transition after a completed write counts it: the implementation once, a correction in its round. */
  lemma SaveKeepsCounts(cfg: RunConfig, w: World)
    requires Shape(cfg, w) && WriteCounts(cfg, w) && Enabled(cfg, w, SaveTransition)
    ensures WriteCounts(cfg, AfterSave(w))
  {
    var d := w.control.decision;
    if w.control.Decided? && d.completion.Some? {
      ReportingEndsTheRun(w.record, d, w.control.updated);
    } else if w.control.AttemptEnded? && !Terminal(w.control.updated.state) {
      NonterminalMeansCompleted(w.record, d, w.control.updated);
    }
    match w.record.state { case _ => }
  }

  lemma OtherKeepsCounts(cfg: RunConfig, w: World, s: Step)
    requires Shape(cfg, w) && WriteCounts(cfg, w) && Enabled(cfg, w, s)
    requires s.Decide? || s.ControllerException? || s.Crash? || s.Leave? || s.ResumeRun? || s.EditWorkspace?
    ensures WriteCounts(cfg, Next(cfg, w, s))
  {
    if s.ResumeRun? {
      ResumableIff(cfg, w.record, w.ledger, s.resume);
    }
    if s.Decide? {
      ImmediateDecisionsAreLegal(cfg, w.record);
    }
  }

  lemma HandlerKeepsCounts(cfg: RunConfig, w: World, run: StageRun)
    requires Shape(cfg, w) && WriteCounts(cfg, w) && w.control.InStage? && Fitting(w.record, run)
    ensures WriteCounts(cfg, AfterRun(w, run))
  {
    RunShape(cfg, w, run);
    if run.Returned? {
      WorkKeepsCounts(cfg, w, AfterRun(w, run), WithFiles(Newest(w.ledger), run.result));
    }
  }

  lemma UpdatesKeepCounts(cfg: RunConfig, w: World, s: Step)
    requires Shape(cfg, w) && WriteCounts(cfg, w) && Enabled(cfg, w, s) && (s.Progress? || s.EndAttempt?)
    ensures WriteCounts(cfg, Next(cfg, w, s))
  {
    WorkKeepsCounts(cfg, w, Next(cfg, w, s),
      if s.Progress? then s.attempt else EndedAttempt(Newest(w.ledger), w.control.decision.completion.value));
  }

  lemma CountsKept(cfg: RunConfig, w: World, s: Step)
    requires ValidConfig(cfg) && Shape(cfg, w) && WriteCounts(cfg, w) && Enabled(cfg, w, s)
    ensures WriteCounts(cfg, Next(cfg, w, s))
  {
    hide RunStage;
    match s {
      case StartAttempt(sequence, capture) => StartKeepsCounts(cfg, w, sequence, capture);
      case RunHandler(input) =>
        HandlerFits(cfg, w, input);
        HandlerKeepsCounts(cfg, w, RunStage(cfg, w.record, w.ledger, Newest(w.ledger), input));
      case SaveTransition => SaveKeepsCounts(cfg, w);
      case Progress(attempt) => UpdatesKeepCounts(cfg, w, s);
      case EndAttempt => UpdatesKeepCounts(cfg, w, s);
      case _ => OtherKeepsCounts(cfg, w, s);
    }
  }

  // ----- preservation: review rounds -----

  /** Only a review moves the review round, by one. */
  lemma ReviewRoundStep(record: RunRecord, d: StageDecision, u: RunRecord)
    requires DecisionOf(record, d) && ApplyDecision(record, d) == Ok(u) && !Terminal(u.state)
    ensures u.reviewRound == record.reviewRound + (if record.state == REVIEWING then 1 else 0)
  {
    match record.state { case _ => }
  }

  /** A review's attempt is completed before its round is counted, so the count never falls behind. */
  lemma EndKeepsReviews(cfg: RunConfig, w: World)
    requires Shape(cfg, w) && ReviewCounts(w) && Enabled(cfg, w, EndAttempt)
    ensures ReviewCounts(AfterEnd(w))
  {
    var d := w.control.decision;
    CountsReplaced(w.ledger, EndedAttempt(Newest(w.ledger), d.completion.value), ReviewingPhase);
    if w.control.Decided? && !Terminal(w.control.updated.state) {
      NonterminalMeansCompleted(w.record, d, w.control.updated);
      ReviewRoundStep(w.record, d, w.control.updated);
    }
  }

  lemma StartKeepsReviews(cfg: RunConfig, w: World, sequence: nat, capture: Capture)
    requires Shape(cfg, w) && ReviewCounts(w) && Enabled(cfg, w, StartAttempt(sequence, capture))
    ensures ReviewCounts(Next(cfg, w, StartAttempt(sequence, capture)))
  {
    CountAppended(w.ledger, StartedAttempt(w.record, sequence, capture), ReviewingPhase);
  }

  lemma HandlerKeepsReviews(cfg: RunConfig, w: World, run: StageRun)
    requires Shape(cfg, w) && ReviewCounts(w) && w.control.InStage? && Fitting(w.record, run)
    ensures ReviewCounts(AfterRun(w, run))
  {
    RunShape(cfg, w, run);
    if run.Returned? {
      CountsReplaced(w.ledger, WithFiles(Newest(w.ledger), run.result), ReviewingPhase);
    }
  }

  lemma OtherKeepsReviews(cfg: RunConfig, w: World, s: Step)
    requires Shape(cfg, w) && ReviewCounts(w) && Enabled(cfg, w, s)
    requires !s.StartAttempt? && !s.RunHandler? && !s.EndAttempt?
    ensures ReviewCounts(Next(cfg, w, s))
  {
    if s.Progress? {
      CountsReplaced(w.ledger, s.attempt, ReviewingPhase);
    } else if s.SaveTransition? && w.control.Decided? && w.control.decision.completion.Some? {
      ReportingEndsTheRun(w.record, w.control.decision, w.control.updated);
    }
  }

  lemma ReviewsKept(cfg: RunConfig, w: World, s: Step)
    requires ValidConfig(cfg) && Shape(cfg, w) && ReviewCounts(w) && Enabled(cfg, w, s)
    ensures ReviewCounts(Next(cfg, w, s))
  {
    hide RunStage;
    match s {
      case StartAttempt(sequence, capture) => StartKeepsReviews(cfg, w, sequence, capture);
      case RunHandler(input) =>
        HandlerFits(cfg, w, input);
        HandlerKeepsReviews(cfg, w, RunStage(cfg, w.record, w.ledger, Newest(w.ledger), input));
      case EndAttempt => EndKeepsReviews(cfg, w);
      case _ => OtherKeepsReviews(cfg, w, s);
    }
  }

  // ----- preservation: correction sources -----

  /** The artifact of a verification or review result tells the decision it leads to. */
  predicate Agreeing(s: WorkflowState, run: StageRun) {
    run.Returned? ==>
      && (s == VERIFYING && run.result.outcome.StageCompleted? ==>
            && run.result.artifact.Some? && run.result.artifact.value.RoundArtifact?
            && run.result.artifact.value.round.status.Pass?)
      && (s == VERIFYING && run.result.outcome.CorrectionRequired? ==>
            && run.result.artifact.Some? && run.result.artifact.value.RoundArtifact?
            && run.result.artifact.value.round.status.Fail? && run.result.artifact.value.round.failures != []
            && AllValid(FailureCauses(run.result.artifact.value.round.failures)))
      && (s == REVIEWING && run.result.outcome.CorrectionRequired? ==>
            && run.result.artifact.Some? && run.result.artifact.value.ReviewArtifact?
            && run.result.artifact.value.review.Valid()
            && ReviewOutcome(run.result.artifact.value.review).CorrectionRequired?)
  }

  lemma HandlerAgrees(cfg: RunConfig, w: World, input: StageInput)
    requires ValidConfig(cfg) && w.ledger != [] && ValidInput(cfg, w.record.state, input)
    ensures Agreeing(w.record.state, RunStage(cfg, w.record, w.ledger, Newest(w.ledger), input))
  {
    match input {
      case RoundRun(r) => RoundResultFacts(cfg, w.record.correctionRound, Newest(w.ledger), r, false);
      case ReviewRun(r) => ReviewStageFacts(cfg, w.record, w.ledger, Newest(w.ledger), r);
      case _ =>
    }
  }

  lemma HandlerKeepsSources(cfg: RunConfig, w: World, run: StageRun, source: Attempt)
    requires Shape(cfg, w) && Sourced(w) && w.control.InStage?
    requires Fitting(w.record, run) && Agreeing(w.record.state, run)
    requires w.origin.Some? ==> source == w.origin.value
    ensures Sourced(AfterRun(w, run))
  {
    RunShape(cfg, w, run);
    if run.Returned? {
      var a := WithFiles(Newest(w.ledger), run.result);
      SourcesSurviveReplacement(w.ledger, a, source);
      DecidedAgrees(w, run.result);
    }
  }

  lemma DecidedAgrees(w: World, r: StageResult)
    requires Working(w) && RoundsFit(w.record, r) && Agreeing(w.record.state, Returned(r))
    requires DecisionFor(w.record, r).Ok? && ApplyDecision(w.record, DecisionFor(w.record, r).value).Ok?
    ensures ArtifactAgrees(w, EndedAttempt(WithFiles(Newest(w.ledger), r), r),
      ApplyDecision(w.record, DecisionFor(w.record, r).value).value.state)
  {
    match w.record.state { case _ => }
  }

  lemma UpdatesKeepSources(cfg: RunConfig, w: World, s: Step, source: Attempt)
    requires Shape(cfg, w) && Sourced(w) && Enabled(cfg, w, s) && (s.StartAttempt? || s.Progress?)
    requires w.origin.Some? ==> source == w.origin.value
    ensures Sourced(Next(cfg, w, s))
  {
    if s.StartAttempt? {
      SourcesSurviveAppend(w.ledger, StartedAttempt(w.record, s.sequence, s.capture), source);
    } else {
      SourcesSurviveReplacement(w.ledger, s.attempt, source);
    }
  }

  lemma EndKeepsSources(cfg: RunConfig, w: World, source: Attempt)
    requires Shape(cfg, w) && Sourced(w) && Enabled(cfg, w, EndAttempt)
    requires w.origin.Some? ==> source == w.origin.value
    ensures Sourced(AfterEnd(w))
  {
    var a := EndedAttempt(Newest(w.ledger), w.control.decision.completion.value);
    OrderedReplaced(w.ledger, a);
    SourcesSurviveCompletion(w.ledger, a, source);
  }

  /** The transition into CORRECTION_PENDING records the attempt that just asked for it. */
  lemma SaveKeepsSources(cfg: RunConfig, w: World)
    requires Shape(cfg, w) && Sourced(w) && Enabled(cfg, w, SaveTransition)
    ensures Sourced(AfterSave(w))
  {
    var d := w.control.decision;
    if w.control.Decided? && d.completion.Some? {
      ReportingEndsTheRun(w.record, d, w.control.updated);
    } else if w.control.AttemptEnded? && !Terminal(w.control.updated.state) {
      NonterminalMeansCompleted(w.record, d, w.control.updated);
      NewestIsLatest(w.ledger);
      match w.record.state { case _ => }
    }
  }

  lemma NewestIsLatest(ledger: seq<Attempt>)
    requires ledger != [] && Newest(ledger).status.Completed?
    ensures Latest(ledger, {Newest(ledger).phase}, {Completed}) == Some(Newest(ledger))
  {
  }

  lemma OtherKeepsSources(cfg: RunConfig, w: World, s: Step)
    requires Shape(cfg, w) && Sourced(w) && Enabled(cfg, w, s)
    requires s.Decide? || s.ControllerException? || s.Crash? || s.Leave? || s.ResumeRun? || s.EditWorkspace?
    ensures Sourced(Next(cfg, w, s))
  {
  }

  lemma SourcesKept(cfg: RunConfig, w: World, s: Step)
    requires ValidConfig(cfg) && Shape(cfg, w) && Sourced(w) && Enabled(cfg, w, s)
    ensures Sourced(Next(cfg, w, s))
  {
    hide RunStage;
    var unused := Attempt(0, VerifyingPhase, Started, None, None, false, None, None);
    var source := if w.origin.Some? then w.origin.value else unused;
    match s {
      case StartAttempt(sequence, capture) => UpdatesKeepSources(cfg, w, s, source);
      case Progress(attempt) => UpdatesKeepSources(cfg, w, s, source);
      case RunHandler(input) =>
        HandlerFits(cfg, w, input);
        HandlerAgrees(cfg, w, input);
        HandlerKeepsSources(cfg, w, RunStage(cfg, w.record, w.ledger, Newest(w.ledger), input),
        if w.origin.Some? then w.origin.value else Newest(w.ledger));
      case EndAttempt => EndKeepsSources(cfg, w, source);
      case SaveTransition => SaveKeepsSources(cfg, w);
      case _ => OtherKeepsSources(cfg, w, s);
    }
  }
}
