/** What holds over every run with exceptions, crashes, resumes and arbitrary workspace edits. */
module LifecycleTheorems {
  import opened Wrappers
  import opened Models
  import opened Snapshots
  import opened Attempts
  import opened Corrections
  import opened Handoff
  import opened Stages
  import opened StageProperties
  import opened Lifecycle
  import opened LifecycleInvariant

  // ----- preservation: handoff evidence -----

  lemma CompletedReport(cfg: RunConfig, record: RunRecord, ledger: seq<Attempt>, attempt: Attempt, i: HandoffInput)
    requires ReportingStage(cfg, record, ledger, attempt, i).outcome.StageCompleted?
    ensures i.initial.Some? && i.final.Some? && attempt.before == Some(FingerprintOf(i.initial.value))
    ensures EvaluateHandoffPolicy(ReadPolicyRequest(cfg, record, ledger, i.initial.value)).None?
    ensures Matches(i.initial.value, i.final.value)
    ensures ReportingStage(cfg, record, ledger, attempt, i).after == Some(FingerprintOf(i.final.value))
  {
  }

  /** A reporting stage completes only on a workspace with the whole evidence chain behind it. */
  lemma ReportingProvesChain(cfg: RunConfig, record: RunRecord, ledger: seq<Attempt>, attempt: Attempt, i: HandoffInput)
    requires Ordered(ledger) && ledger != [] && attempt == Newest(ledger) && attempt.phase.ReportingPhase?
    requires attempt.status.Started? && CanonicalCapture(i.initial) && CanonicalCapture(i.final)
    requires ReportingStage(cfg, record, ledger, attempt, i).outcome.StageCompleted?
    ensures HandedOver(cfg, record, ledger)
    ensures ReportingStage(cfg, record, ledger, attempt, i).after == attempt.before
  {
    CompletedReport(cfg, record, ledger, attempt, i);
    MatchesIffSameFingerprint(i.initial.value, i.final.value);
    PolicyHandsOver(cfg, record, ledger, attempt, i.initial.value);
  }

  lemma PolicyHandsOver(cfg: RunConfig, record: RunRecord, ledger: seq<Attempt>, attempt: Attempt, s: Snapshot)
    requires Ordered(ledger) && ledger != [] && attempt == Newest(ledger) && attempt.phase.ReportingPhase?
    requires attempt.status.Started? && Canonical(s) && attempt.before == Some(FingerprintOf(s))
    requires EvaluateHandoffPolicy(ReadPolicyRequest(cfg, record, ledger, s)).None?
    ensures HandedOver(cfg, record, ledger)
  {
    var w, v, r, p := PolicyIsSound(cfg, record, ledger, s);
    LatestReporting(ledger);
    assert AcceptedBy(cfg, record, ledger, s, w, v, r, p);
  }

  lemma LatestReporting(ledger: seq<Attempt>)
    requires ledger != [] && Newest(ledger).phase.ReportingPhase?
    ensures Latest(ledger, {ReportingPhase}, ANY_STATUS) == Some(Newest(ledger))
  {
    EveryStatus(Newest(ledger).status);
  }

  /** The reporting attempt itself may end: the chain of the record it reports is about the older attempts. */
  lemma ChainSurvivesEnd(cfg: RunConfig, record: RunRecord, ledger: seq<Attempt>, ended: Attempt)
    requires Ordered(ledger) && ledger != [] && HandedOver(cfg, record, ledger)
    requires Newest(ledger).phase.ReportingPhase? && ended.phase.ReportingPhase? && ended.status.Completed?
    requires ended.sequence == Newest(ledger).sequence && ended.before == ended.after == Newest(ledger).before
    ensures HandedOver(cfg, record, Replaced(ledger, ended))
  {
    var s, w, v, r, p :| AcceptedBy(cfg, record, ledger, s, w, v, r, p);
    NewestIsReport(ledger, p);
    SettledSurvivesEnd(cfg, record, ledger, ended);
    var later := Replaced(ledger, ended);
    OlderIsKept(ledger, ended, w);
    OlderIsKept(ledger, ended, v);
    OlderIsKept(ledger, ended, r);
    NothingNewerSurvives(ledger, ended, w, v, r, p);
    assert AcceptedBy(cfg, record, later, s, w, v, r, ended);
  }

  lemma NewestIsReport(ledger: seq<Attempt>, p: Attempt)
    requires Ordered(ledger) && ledger != [] && p in ledger && forall a :: a in ledger ==> a.sequence <= p.sequence
    ensures p == Newest(ledger)
  {
    var i :| 0 <= i < |ledger| && ledger[i] == p;
    assert Newest(ledger) in ledger;
  }

  lemma OlderIsKept(ledger: seq<Attempt>, ended: Attempt, a: Attempt)
    requires ledger != [] && a in ledger && a.sequence != Newest(ledger).sequence
    ensures a in Replaced(ledger, ended)
  {
    assert ledger == Older(ledger) + [Newest(ledger)];
  }

  lemma NothingNewerSurvives(ledger: seq<Attempt>, ended: Attempt, w: Attempt, v: Attempt, r: Attempt, p: Attempt)
    requires ledger != [] && NothingNewer(ledger, w, v, r, p)
    requires p == Newest(ledger) && ended.sequence == p.sequence && ended.phase.ReportingPhase?
    ensures NothingNewer(Replaced(ledger, ended), w, v, r, ended) && ended in Replaced(ledger, ended)
  {
    assert Replaced(ledger, ended) == Older(ledger) + [ended];
    assert ledger == Older(ledger) + [Newest(ledger)];
  }

  lemma SettledSurvivesEnd(cfg: RunConfig, record: RunRecord, ledger: seq<Attempt>, ended: Attempt)
    requires ledger != [] && SettledLedger(cfg, record, ledger)
    requires Newest(ledger).phase.ReportingPhase? && ended.phase.ReportingPhase? && ended.status.Completed?
    ensures SettledLedger(cfg, record, Replaced(ledger, ended))
  {
    var later := Replaced(ledger, ended);
    CountsReplaced(ledger, ended, CorrectingPhase);
    CountsReplaced(ledger, ended, ReviewingPhase);
    assert later == Older(ledger) + [ended];
    assert ledger == Older(ledger) + [Newest(ledger)];
    forall i | 0 <= i < |later| ensures later[i].status !in {NeedsHuman, AttemptStatus.Failed} {
      assert i < |later| - 1 ==> later[i] == ledger[i];
    }
  }

  lemma ChainOfNextRecord(cfg: RunConfig, record: RunRecord, next: RunRecord, ledger: seq<Attempt>)
    requires HandedOver(cfg, record, ledger)
    requires next.correctionRound == record.correctionRound && next.reviewRound == record.reviewRound
    ensures HandedOver(cfg, next, ledger)
  {
    var s, w, v, r, p :| AcceptedBy(cfg, record, ledger, s, w, v, r, p);
    assert SettledLedger(cfg, next, ledger);
    assert AcceptedBy(cfg, next, ledger, s, w, v, r, p);
  }

  /** Only a completed report leads to READY_FOR_HUMAN. */
  lemma ReadyNeedsReport(record: RunRecord, r: StageResult)
    requires RoundsFit(record, r) && PhaseForActiveState(record.state).Some?
    requires DecisionFor(record, r).Ok? && ApplyDecision(record, DecisionFor(record, r).value).Ok?
    requires ApplyDecision(record, DecisionFor(record, r).value).value.state == READY_FOR_HUMAN
    ensures record.state == REPORTING && r.outcome.StageCompleted?
  {
    match record.state { case _ => }
  }

  /** What a handler's result means for the handoff. */
  ghost predicate Reported(cfg: RunConfig, record: RunRecord, ledger: seq<Attempt>, run: StageRun) {
    record.state == REPORTING && run.Returned? ==>
      && run.result.execution.None?
      && (run.result.outcome.StageCompleted? ==>
            HandedOver(cfg, record, ledger) && ledger != [] && run.result.after == Newest(ledger).before)
  }

  lemma ReportingReports(cfg: RunConfig, record: RunRecord, ledger: seq<Attempt>, attempt: Attempt, i: HandoffInput)
    requires Ordered(ledger) && ledger != [] && attempt == Newest(ledger) && attempt.phase.ReportingPhase?
    requires attempt.status.Started? && CanonicalCapture(i.initial) && CanonicalCapture(i.final)
    ensures Reported(cfg, record, ledger, Returned(ReportingStage(cfg, record, ledger, attempt, i)))
  {
    if ReportingStage(cfg, record, ledger, attempt, i).outcome.StageCompleted? {
      ReportingProvesChain(cfg, record, ledger, attempt, i);
    }
  }

  lemma HandlerReports(cfg: RunConfig, record: RunRecord, ledger: seq<Attempt>, attempt: Attempt, input: StageInput)
    requires Ordered(ledger) && ledger != [] && attempt == Newest(ledger) && attempt.status.Started?
    requires PhaseForActiveState(record.state) == Some(attempt.phase) && ValidInput(cfg, record.state, input)
    ensures Reported(cfg, record, ledger, RunStage(cfg, record, ledger, attempt, input))
  {
    if input.ReportRun? {
      ReportingReports(cfg, record, ledger, attempt, input.handoffInput);
    }
  }

  /** A handler that decides READY_FOR_HUMAN left the reporting ledger as it found it. */
  lemma ReadyLeavesLedger(cfg: RunConfig, w: World, run: StageRun)
    requires Working(w) && Fitting(w.record, run) && run.Returned?
    requires w.record.state == REPORTING ==> run.result.execution.None?
    requires AfterRun(w, run).control.Decided? && AfterRun(w, run).control.updated.state == READY_FOR_HUMAN
    ensures w.record.state == REPORTING && run.result.outcome.StageCompleted?
    ensures AfterRun(w, run).ledger == w.ledger && AfterRun(w, run).record == w.record
    ensures AfterRun(w, run).control.decision.completion == Some(run.result)
  {
    ReadyNeedsReport(w.record, run.result);
    assert WithFiles(Newest(w.ledger), run.result) == Newest(w.ledger);
    assert w.ledger == Older(w.ledger) + [Newest(w.ledger)];
  }

  lemma HandlerKeepsAccepted(cfg: RunConfig, w: World, run: StageRun)
    requires Working(w) && Fitting(w.record, run) && Reported(cfg, w.record, w.ledger, run)
    ensures Accepted(cfg, AfterRun(w, run))
  {
    if AfterRun(w, run).control.Decided? && AfterRun(w, run).control.updated.state == READY_FOR_HUMAN {
      ReadyLeavesLedger(cfg, w, run);
    }
  }

  lemma ReadySaveIsReport(cfg: RunConfig, w: World)
    requires Shape(cfg, w) && Enabled(cfg, w, SaveTransition) && w.control.updated.state == READY_FOR_HUMAN
    ensures w.control.Decided? && w.control.updated.correctionRound == w.record.correctionRound
    ensures w.control.updated.reviewRound == w.record.reviewRound
  {
    var d := w.control.decision;
    if d.completion.Some? {
      ReadyNeedsReport(w.record, d.completion.value);
    }
  }

  lemma SaveKeepsAccepted(cfg: RunConfig, w: World)
    requires Shape(cfg, w) && Accepted(cfg, w) && Enabled(cfg, w, SaveTransition)
    ensures Accepted(cfg, AfterSave(w))
  {
    if w.control.updated.state == READY_FOR_HUMAN {
      ReadySaveIsReport(cfg, w);
      ChainOfNextRecord(cfg, w.record, w.control.updated, w.ledger);
    }
  }

  /** Ending the report of a persisted handoff completes it on the workspace it started from. */
  lemma ReadyEnd(cfg: RunConfig, w: World)
    requires Shape(cfg, w) && Accepted(cfg, w) && Enabled(cfg, w, EndAttempt) && w.record.state == READY_FOR_HUMAN
    ensures var a, ended := Newest(w.ledger), EndedAttempt(Newest(w.ledger), w.control.decision.completion.value);
      && w.control.TransitionSaved? && a.phase.ReportingPhase? && ended.phase.ReportingPhase?
      && ended.status.Completed? && ended.sequence == a.sequence && ended.before == a.before
      && (a.before.Some? ==> ended.after == a.before)
  {
    ActivePhase(w.record.state);
  }

  lemma ReportStartedSomewhere(cfg: RunConfig, record: RunRecord, ledger: seq<Attempt>)
    requires Ordered(ledger) && ledger != [] && HandedOver(cfg, record, ledger)
    ensures Newest(ledger).before.Some?
  {
    var s, w, v, r, p :| AcceptedBy(cfg, record, ledger, s, w, v, r, p);
    NewestIsReport(ledger, p);
  }

  lemma EndKeepsAccepted(cfg: RunConfig, w: World)
    requires Shape(cfg, w) && Accepted(cfg, w) && Enabled(cfg, w, EndAttempt)
    ensures Accepted(cfg, AfterEnd(w))
  {
    if w.record.state == READY_FOR_HUMAN {
      ReadyEnd(cfg, w);
      ReportStartedSomewhere(cfg, w.record, w.ledger);
      ChainSurvivesEnd(cfg, w.record, w.ledger, EndedAttempt(Newest(w.ledger), w.control.decision.completion.value));
    }
  }

  /** A world that is neither ready nor about to be promises nothing. */
  lemma NothingAccepted(cfg: RunConfig, w: World)
    requires w.record.state != READY_FOR_HUMAN && (w.control.Decided? ==> w.control.updated.state != READY_FOR_HUMAN)
    ensures Accepted(cfg, w)
  {
  }

  lemma WorkIsNotReady(cfg: RunConfig, w: World, s: Step)
    requires Shape(cfg, w) && Enabled(cfg, w, s) && (s.StartAttempt? || s.Progress? || s.Decide?)
    ensures var w' := Next(cfg, w, s);
      w'.record.state != READY_FOR_HUMAN && (w'.control.Decided? ==> w'.control.updated.state != READY_FOR_HUMAN)
  {
    if s.Decide? {
      ImmediateDecisionsAreLegal(cfg, w.record);
    }
    match w.record.state { case _ => }
  }

  lemma OtherKeepsAccepted(cfg: RunConfig, w: World, s: Step)
    requires Accepted(cfg, w) && Enabled(cfg, w, s)
    requires s.ControllerException? || s.Crash? || s.Leave? || s.ResumeRun? || s.EditWorkspace?
    ensures Accepted(cfg, Next(cfg, w, s))
  {
    var w' := Next(cfg, w, s);
    assert w'.ledger == w.ledger;
    assert w'.record == w.record || w'.record.state != READY_FOR_HUMAN;
    assert w'.control == w.control || !w'.control.Decided?;
  }

  lemma AcceptedKept(cfg: RunConfig, w: World, s: Step)
    requires ValidConfig(cfg) && Shape(cfg, w) && Accepted(cfg, w) && Enabled(cfg, w, s)
    ensures Accepted(cfg, Next(cfg, w, s))
  {
    hide RunStage;
    match s {
      case RunHandler(input) =>
        HandlerFits(cfg, w, input);
        HandlerReports(cfg, w.record, w.ledger, Newest(w.ledger), input);
        HandlerKeepsAccepted(cfg, w, RunStage(cfg, w.record, w.ledger, Newest(w.ledger), input));
      case EndAttempt => EndKeepsAccepted(cfg, w);
      case SaveTransition => SaveKeepsAccepted(cfg, w);
      case StartAttempt(sequence, capture) =>
        WorkIsNotReady(cfg, w, s);
        NothingAccepted(cfg, Next(cfg, w, s));
      case Progress(attempt) =>
        WorkIsNotReady(cfg, w, s);
        NothingAccepted(cfg, Next(cfg, w, s));
      case Decide =>
        WorkIsNotReady(cfg, w, s);
        NothingAccepted(cfg, Next(cfg, w, s));
      case _ => OtherKeepsAccepted(cfg, w, s);
    }
  }

  // ----- the invariant over every run -----

  lemma InitiallyInv(cfg: RunConfig, workspace: Snapshot)
    ensures Inv(cfg, Initial(workspace))
  {
  }

  lemma InvKept(cfg: RunConfig, w: World, s: Step)
    requires ValidConfig(cfg) && Inv(cfg, w) && Enabled(cfg, w, s)
    ensures Inv(cfg, Next(cfg, w, s))
  {
    ShapeKept(cfg, w, s);
    WritesKept(cfg, w, s);
    CountsKept(cfg, w, s);
    ReviewsKept(cfg, w, s);
    SourcesKept(cfg, w, s);
    AcceptedKept(cfg, w, s);
  }

  /** The invariant holds after every run, however often it crashed, raised, resumed or lost its workspace. */
  lemma {:induction false} InvOverRuns(cfg: RunConfig, w: World, steps: seq<Step>)
    requires ValidConfig(cfg) && Inv(cfg, w) && Executable(cfg, w, steps)
    ensures Inv(cfg, After(cfg, w, steps))
    decreases |steps|
  {
    if steps != [] {
      InvKept(cfg, w, steps[0]);
      InvOverRuns(cfg, Next(cfg, w, steps[0]), steps[1..]);
    }
  }

  /** The worlds some run of a new ticket ends in. */
  ghost predicate Reachable(cfg: RunConfig, w: World) {
    exists workspace, steps :: Executable(cfg, Initial(workspace), steps) && w == After(cfg, Initial(workspace), steps)
  }

  lemma ReachableInv(cfg: RunConfig, w: World)
    requires ValidConfig(cfg) && Reachable(cfg, w)
    ensures Inv(cfg, w)
  {
    var workspace, steps :| Executable(cfg, Initial(workspace), steps) && w == After(cfg, Initial(workspace), steps);
    InitiallyInv(cfg, workspace);
    InvOverRuns(cfg, Initial(workspace), steps);
  }

  // ----- safety of the handoff -----

  /**
   In every run, a persisted READY_FOR_HUMAN record has a captured, safe workspace whose fingerprint the
   last write, the last verification and the last review all carry, in that order and before the report.
   */
  lemma ReadyIsSafe(cfg: RunConfig, w: World)
    requires ValidConfig(cfg) && Reachable(cfg, w)
    ensures w.record.state == READY_FOR_HUMAN ==> HandedOver(cfg, w.record, w.ledger)
  {
    ReachableInv(cfg, w);
  }

  // ----- at most one write at a time, and a bounded number of them -----

  /** Over every schedule of crashes and resumes: one implementation, at most maxRounds corrections. */
  lemma WritesAreBounded(cfg: RunConfig, w: World)
    requires ValidConfig(cfg) && Reachable(cfg, w)
    ensures Count(w.ledger, ImplementingPhase) <= 1 && Count(w.ledger, CorrectingPhase) <= cfg.maxRounds
  {
    ReachableInv(cfg, w);
  }

  /** No attempt of any phase starts while a writable attempt is anything but completed. */
  lemma StartsAreAlone(cfg: RunConfig, w: World, sequence: nat, capture: Capture)
    requires ValidConfig(cfg) && Reachable(cfg, w) && Enabled(cfg, w, StartAttempt(sequence, capture))
    ensures WritesCompleted(w.ledger)
  {
    ReachableInv(cfg, w);
    ActivePhase(w.record.state);
  }

  /** The counters of every nonterminal persisted record are honest about the ledger. */
  lemma BookkeepingIsHonest(cfg: RunConfig, w: World)
    requires ValidConfig(cfg) && Reachable(cfg, w)
    ensures !Terminal(w.record.state) ==>
      && w.record.correctionRound <= cfg.maxRounds
      && w.record.correctionRound <= Count(w.ledger, CorrectingPhase)
      && Count(w.ledger, CorrectingPhase) <= w.record.correctionRound + (if w.record.state == CORRECTING then 1 else 0)
      && w.record.reviewRound <= CountCompleted(w.ledger, ReviewingPhase)
      && (!WritableState(w.record.state) ==> WritesCompleted(w.ledger))
  {
    ReachableInv(cfg, w);
    match w.record.state { case _ => }
  }

  // ----- the ledger only grows -----

  lemma ReplacementExtends(ledger: seq<Attempt>, a: Attempt)
    requires ledger != [] && Newest(ledger).status.Started?
    requires a.sequence == Newest(ledger).sequence && a.phase == Newest(ledger).phase
    ensures Extends(ledger, Replaced(ledger, a))
  {
    forall i | 0 <= i < |ledger| - 1 ensures Replaced(ledger, a)[i] == ledger[i] {
      assert Replaced(ledger, a)[i] == Older(ledger)[i];
    }
  }

  lemma ExtendsIsTransitive(a: seq<Attempt>, b: seq<Attempt>, c: seq<Attempt>)
    requires Extends(a, b) && Extends(b, c)
    ensures Extends(a, c)
  {
  }

  lemma HandlerExtends(w: World, run: StageRun)
    requires Working(w)
    ensures Extends(w.ledger, AfterRun(w, run).ledger)
  {
    if run.Returned? {
      ReplacementExtends(w.ledger, WithFiles(Newest(w.ledger), run.result));
    }
  }

  lemma StepExtends(cfg: RunConfig, w: World, s: Step)
    requires Shape(cfg, w) && Enabled(cfg, w, s)
    ensures Extends(w.ledger, Next(cfg, w, s).ledger)
  {
    hide RunStage;
    match s {
      case Progress(attempt) => ReplacementExtends(w.ledger, attempt);
      case RunHandler(input) =>
        HandlerExtends(w, RunStage(cfg, w.record, w.ledger, Newest(w.ledger), input));
      case EndAttempt =>
        ReplacementExtends(w.ledger, EndedAttempt(Newest(w.ledger), w.control.decision.completion.value));
      case _ =>
    }
  }

  /** Attempts are never removed or renamed, and an attempt that has ended never changes again. */
  lemma {:induction false} LedgerOnlyGrows(cfg: RunConfig, w: World, steps: seq<Step>)
    requires ValidConfig(cfg) && Inv(cfg, w) && Executable(cfg, w, steps)
    ensures Extends(w.ledger, After(cfg, w, steps).ledger)
    decreases |steps|
  {
    if steps != [] {
      var next := Next(cfg, w, steps[0]);
      InvKept(cfg, w, steps[0]);
      StepExtends(cfg, w, steps[0]);
      LedgerOnlyGrows(cfg, next, steps[1..]);
      ExtendsIsTransitive(w.ledger, next.ledger, After(cfg, w, steps).ledger);
    }
  }

  lemma ReadyIsUntainted(cfg: RunConfig, w: World)
    requires Accepted(cfg, w)
    ensures w.record.state == READY_FOR_HUMAN ==> !Tainted(w.ledger)
  {
  }

  /**
   A ledger that ever recorded a FAILED or HUMAN_REQUIRED attempt is never handed over, even when a
   crash lost the matching transition and the run was resumed.
   */
  lemma TaintIsForever(cfg: RunConfig, w: World, later: seq<Step>)
    requires ValidConfig(cfg) && Reachable(cfg, w) && Tainted(w.ledger) && Executable(cfg, w, later)
    ensures After(cfg, w, later).record.state != READY_FOR_HUMAN
  {
    ReachableInv(cfg, w);
    LedgerOnlyGrows(cfg, w, later);
    InvOverRuns(cfg, w, later);
    TaintSurvives(w.ledger, After(cfg, w, later).ledger);
    ReadyIsUntainted(cfg, After(cfg, w, later));
  }

  lemma TerminalStep(cfg: RunConfig, w: World, s: Step)
    requires Shape(cfg, w) && Enabled(cfg, w, s) && Terminal(w.record.state)
    ensures Next(cfg, w, s).record == w.record
  {
    match w.record.state { case _ => }
  }

  /** A terminal record is never rewritten. */
  lemma {:induction false} TerminalIsFinal(cfg: RunConfig, w: World, steps: seq<Step>)
    requires ValidConfig(cfg) && Inv(cfg, w) && Executable(cfg, w, steps) && Terminal(w.record.state)
    ensures After(cfg, w, steps).record == w.record
    decreases |steps|
  {
    if steps != [] {
      TerminalStep(cfg, w, steps[0]);
      InvKept(cfg, w, steps[0]);
      TerminalIsFinal(cfg, Next(cfg, w, steps[0]), steps[1..]);
    }
  }

  // ----- the planner over every run -----

  /**
   Whenever a correction attempt is running, the planner succeeds with exactly the causes of the attempt
   whose decision produced CORRECTION_PENDING, whatever earlier crashes left in the ledger.
   */
  lemma PlannerIsExactOverRuns(cfg: RunConfig, w: World)
    requires ValidConfig(cfg) && Reachable(cfg, w) && w.record.state in {CORRECTION_PENDING, CORRECTING}
    ensures w.origin.Some? && AsksForCorrection(w.origin.value)
    ensures PlanPending(w.ledger).Ok? && Addresses(PlanPending(w.ledger).value, w.origin.value)
  {
    ReachableInv(cfg, w);
    PlanIsExact(w.ledger, w.origin.value);
  }

  /** The origin is that attempt: persisting CORRECTION_PENDING records the newest, just completed attempt. */
  lemma OriginIsTheDecidingAttempt(cfg: RunConfig, w: World)
    requires Shape(cfg, w) && Sourced(w) && Enabled(cfg, w, SaveTransition)
    requires AfterSave(w).record.state == CORRECTION_PENDING
    ensures w.control.AttemptEnded? && w.ledger != [] && AfterSave(w).origin == Some(Newest(w.ledger))
    ensures Newest(w.ledger).status.Completed? && AsksForCorrection(Newest(w.ledger))
  {
    var d := w.control.decision;
    if w.control.Decided? && d.completion.Some? {
      ReportingEndsTheRun(w.record, d, w.control.updated);
    } else if w.control.AttemptEnded? {
      NonterminalMeansCompleted(w.record, d, w.control.updated);
    }
    match w.record.state { case _ => }
  }

  // ----- the drive loop ends -----

  predicate Uninterrupted(steps: seq<Step>) {
    forall i :: 0 <= i < |steps| ==> !steps[i].ResumeRun?
  }

  /** How many loop iterations persisted their transition. */
  function Iterations(steps: seq<Step>): nat {
    if steps == [] then 0 else (if steps[0].SaveTransition? then 1 else 0) + Iterations(steps[1..])
  }

  function Starts(steps: seq<Step>): nat {
    if steps == [] then 0 else (if steps[0].StartAttempt? then 1 else 0) + Starts(steps[1..])
  }

  /** An upper bound on the iterations that can still follow a persisted state. */
  function IterationsLeft(cfg: RunConfig, record: RunRecord): int {
    var rounds := 4 * (cfg.maxRounds - record.correctionRound);
    match record.state
    case PREPARING => rounds + 6
    case PREPARED => rounds + 5
    case IMPLEMENTING => rounds + 4
    case VERIFYING => rounds + 3
    case REVIEWING => rounds + 2
    case CORRECTION_PENDING => rounds + 1
    case REPORTING => rounds + 1
    case CORRECTING => rounds
    case _ => 0
  }

  /** The same for attempts, the one the controller is working on not counted again. */
  function AttemptsLeft(cfg: RunConfig, w: World): int {
    var rounds := 3 * (cfg.maxRounds - w.record.correctionRound);
    var taken := if AttemptTaken(w.control) then 1 else 0;
    if w.control.Down? || w.control.Raising? then 0
    else
      match w.record.state
      case PREPARING => rounds + 5 - taken
      case PREPARED => rounds + 4
      case IMPLEMENTING => rounds + 4 - taken
      case VERIFYING => rounds + 3 - taken
      case REVIEWING => rounds + 2 - taken
      case CORRECTION_PENDING => rounds + 1
      case REPORTING => rounds + 1 - taken
      case CORRECTING => rounds + 1 - taken
      case _ => 0
  }

  lemma LeftIsNatural(cfg: RunConfig, w: World)
    requires Shape(cfg, w) && WriteCounts(cfg, w)
    ensures IterationsLeft(cfg, w.record) >= 0 && AttemptsLeft(cfg, w) >= 0
  {
    match w.record.state { case _ => }
  }

  lemma SaveSpends(cfg: RunConfig, w: World)
    requires Shape(cfg, w) && WriteCounts(cfg, w) && Enabled(cfg, w, SaveTransition)
    ensures IterationsLeft(cfg, AfterSave(w).record) + 1 <= IterationsLeft(cfg, w.record)
    ensures AttemptsLeft(cfg, AfterSave(w)) <= AttemptsLeft(cfg, w)
  {
    var d := w.control.decision;
    if w.control.Decided? && d.completion.Some? {
      ReportingEndsTheRun(w.record, d, w.control.updated);
    } else if w.control.AttemptEnded? && !Terminal(w.control.updated.state) {
      NonterminalMeansCompleted(w.record, d, w.control.updated);
    }
    match w.record.state { case _ => }
  }

  lemma HandlerSpends(cfg: RunConfig, w: World, run: StageRun)
    requires Shape(cfg, w) && WriteCounts(cfg, w) && w.control.InStage? && Fitting(w.record, run)
    ensures IterationsLeft(cfg, AfterRun(w, run).record) <= IterationsLeft(cfg, w.record)
    ensures AttemptsLeft(cfg, AfterRun(w, run)) <= AttemptsLeft(cfg, w)
  {
    RunShape(cfg, w, run);
    LeftIsNatural(cfg, w);
  }

  lemma OtherSpends(cfg: RunConfig, w: World, s: Step)
    requires Shape(cfg, w) && WriteCounts(cfg, w) && Enabled(cfg, w, s)
    requires !s.ResumeRun? && !s.SaveTransition? && !s.RunHandler?
    ensures IterationsLeft(cfg, Next(cfg, w, s).record) <= IterationsLeft(cfg, w.record)
    ensures AttemptsLeft(cfg, Next(cfg, w, s)) + (if s.StartAttempt? then 1 else 0) <= AttemptsLeft(cfg, w)
  {
    LeftIsNatural(cfg, w);
    if s.Decide? {
      ImmediateDecisionsAreLegal(cfg, w.record);
    }
    match w.record.state { case _ => }
  }

  /** Every step except a resume spends from what is left. */
  lemma StepSpends(cfg: RunConfig, w: World, s: Step)
    requires ValidConfig(cfg) && Shape(cfg, w) && WriteCounts(cfg, w) && Enabled(cfg, w, s) && !s.ResumeRun?
    ensures IterationsLeft(cfg, Next(cfg, w, s).record) + (if s.SaveTransition? then 1 else 0)
      <= IterationsLeft(cfg, w.record)
    ensures AttemptsLeft(cfg, Next(cfg, w, s)) + (if s.StartAttempt? then 1 else 0) <= AttemptsLeft(cfg, w)
  {
    hide RunStage;
    match s {
      case SaveTransition => SaveSpends(cfg, w);
      case RunHandler(input) =>
        HandlerFits(cfg, w, input);
        HandlerSpends(cfg, w, RunStage(cfg, w.record, w.ledger, Newest(w.ledger), input));
      case _ => OtherSpends(cfg, w, s);
    }
  }

  lemma {:induction false} RunSpends(cfg: RunConfig, w: World, steps: seq<Step>)
    requires ValidConfig(cfg) && Inv(cfg, w) && Executable(cfg, w, steps) && Uninterrupted(steps)
    ensures Iterations(steps) <= IterationsLeft(cfg, w.record) && Starts(steps) <= AttemptsLeft(cfg, w)
    decreases |steps|
  {
    LeftIsNatural(cfg, w);
    if steps != [] {
      StepSpends(cfg, w, steps[0]);
      InvKept(cfg, w, steps[0]);
      assert Uninterrupted(steps[1..]);
      RunSpends(cfg, Next(cfg, w, steps[0]), steps[1..]);
    }
  }

  /**
   The transition graph has a cycle, but an uninterrupted drive of a new run still persists at most
   4 * maxRounds + 6 transitions and starts at most 3 * maxRounds + 5 attempts.
   */
  lemma DriveIsBounded(cfg: RunConfig, workspace: Snapshot, steps: seq<Step>)
    requires ValidConfig(cfg) && Executable(cfg, Initial(workspace), steps) && Uninterrupted(steps)
    ensures Iterations(steps) <= 4 * cfg.maxRounds + 6 && Starts(steps) <= 3 * cfg.maxRounds + 5
  {
    InitiallyInv(cfg, workspace);
    RunSpends(cfg, Initial(workspace), steps);
  }
}
