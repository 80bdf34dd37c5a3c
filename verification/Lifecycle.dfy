/**
 The ticket lifecycle as a transition system over its persisted state. Every
 step is one atomic persisted write, one handler run, or one thing the
 environment does: an exception, a crash, a resume, an edit of the workspace.
 */
module Lifecycle {
  import opened Wrappers
  import opened Models
  import opened Snapshots
  import opened Attempts
  import opened Handoff
  import opened Stages
  import opened Resume

  /** Where the controller process is; a crash loses this and nothing else. */
  datatype Control =
    | Down
    | AtLoop
    | InStage
    | Decided(decision: StageDecision, updated: RunRecord)
    | AttemptEnded(decision: StageDecision, updated: RunRecord)
    | TransitionSaved(decision: StageDecision)
    | Raising

  /**
   The persisted record and ledger, the workspace, and the controller. The origin is a specification
   variable: the attempt whose decision last moved the persisted record.
   */
  datatype World = World(
    record: RunRecord,
    ledger: seq<Attempt>,
    workspace: Snapshot,
    control: Control,
    origin: Option<Attempt>)

  datatype Step =
    | StartAttempt(sequence: nat, capture: Capture)
    | Progress(attempt: Attempt)
    | RunHandler(input: StageInput)
    | Decide
    | EndAttempt
    | SaveTransition
    | ControllerException
    | Crash
    | Leave
    | ResumeRun(resume: ResumeInput)
    | EditWorkspace(edited: Snapshot)

  function Initial(workspace: Snapshot): World {
    World(RunRecord(PREPARING, 0, 0, None), [], workspace, AtLoop, None)
  }

  predicate Running(w: World) {
    !w.control.Down?
  }

  /** The controller owns the newest attempt, which is active and of the phase of the persisted state. */
  predicate Working(w: World) {
    && w.ledger != [] && Newest(w.ledger).status.Started?
    && PhaseForActiveState(w.record.state) == Some(Newest(w.ledger).phase)
  }

  // ----- the persisted writes -----

  /** start_attempt as the controller calls it: only read-only phases record the workspace they start from. */
  function StartedAttempt(record: RunRecord, sequence: nat, capture: Capture): Attempt
    requires PhaseForActiveState(record.state).Some?
  {
    var phase := PhaseForActiveState(record.state).value;
    Attempt(sequence, phase, Started, if Writes(phase) then None else CapturedFingerprint(capture), None, false, None, None)
  }

  /** The files a stage leaves beside its attempt; the reporting message is written later, by the controller. */
  function WithFiles(a: Attempt, r: StageResult): Attempt {
    a.(result := if r.artifact.Some? && !a.phase.ReportingPhase? then r.artifact else a.result,
       execution := if r.execution.Some? then r.execution else a.execution)
  }

  /** complete_stage_attempt: a fingerprint that was not captured keeps the one recorded before. */
  function EndedAttempt(a: Attempt, r: StageResult): Attempt {
    Updated(a.(result := if r.artifact.Some? then r.artifact else a.result),
      Some(StatusForOutcome(r.outcome)), None, r.after, Some(r.processStarted), None)
  }

  /** _mark_human_required. */
  function HumanStop(record: RunRecord): RunRecord {
    record.(state := HUMAN_REQUIRED, stop := Some(StopReason(HUMAN_JUDGMENT_REQUIRED, false)))
  }

  /** _mark_controller_exception: a terminal record stays as it is. */
  function ExceptionStop(record: RunRecord): RunRecord {
    if Terminal(record.state) then record
    else
      var stop := ClassifyControllerFailure(record.state);
      record.(state := stop.state, stop := Some(stop.reason))
  }

  /** An update of the running attempt by its stage; only the guarded operation touches fingerprints. */
  predicate ProgressOf(before: Attempt, after: Attempt) {
    && after.sequence == before.sequence && after.phase == before.phase && after.status.Started?
    && (!Writes(before.phase) ==> after.before == before.before && after.after == before.after)
  }

  predicate CompletionPending(c: Control) {
    || (c.Decided? && c.decision.completion.Some? && c.decision.source != REPORTING)
    || c.TransitionSaved?
  }

  predicate TransitionPending(c: Control) {
    || (c.Decided? && (c.decision.completion.None? || c.decision.source == REPORTING))
    || c.AttemptEnded?
  }

  /** What can happen next. */
  predicate Enabled(cfg: RunConfig, w: World, s: Step) {
    match s
    case StartAttempt(sequence, capture) =>
      && w.control.AtLoop? && PhaseForActiveState(w.record.state).Some? && CanonicalCapture(capture)
      && 1 <= sequence && forall a :: a in w.ledger ==> a.sequence < sequence
    case Progress(attempt) => w.control.InStage? && w.ledger != [] && ProgressOf(Newest(w.ledger), attempt)
    case RunHandler(input) => w.control.InStage? && w.ledger != [] && ValidInput(cfg, w.record.state, input)
    case Decide => w.control.AtLoop? && w.record.state in {PREPARED, CORRECTION_PENDING}
    case EndAttempt =>
      && CompletionPending(w.control) && w.ledger != [] && Newest(w.ledger).status.Started?
      && w.control.decision.completion.Some?
    case SaveTransition => TransitionPending(w.control)
    case ControllerException => Running(w)
    case Crash => Running(w)
    case Leave => w.control.AtLoop? && Terminal(w.record.state)
    case ResumeRun(resume) => w.control.Down? && CanonicalCapture(resume.preflight) && CanonicalCapture(resume.policy)
    case EditWorkspace(edited) => Canonical(edited)
  }

  /** The controller with what the handler left: a decision to persist, or an exception. */
  function AfterRun(w: World, run: StageRun): World
    requires w.ledger != []
  {
    if run.Raised? then w.(control := Raising)
    else
      var decision := DecisionFor(w.record, run.result);
      if decision.Err? then w.(control := Raising)
      else
        var updated := ApplyDecision(w.record, decision.value);
        var files := w.(ledger := Replaced(w.ledger, WithFiles(Newest(w.ledger), run.result)));
        if updated.Err? then files.(control := Raising) else files.(control := Decided(decision.value, updated.value))
  }

  function AfterHandler(cfg: RunConfig, w: World, input: StageInput): World
    requires w.ledger != [] && ValidInput(cfg, w.record.state, input)
  {
    AfterRun(w, RunStage(cfg, w.record, w.ledger, Newest(w.ledger), input))
  }

  function AfterEnd(w: World): World
    requires CompletionPending(w.control) && w.ledger != [] && w.control.decision.completion.Some?
  {
    var d := w.control.decision;
    w.(ledger := Replaced(w.ledger, EndedAttempt(Newest(w.ledger), d.completion.value)),
       control := if w.control.TransitionSaved? then AtLoop else AttemptEnded(d, w.control.updated))
  }

  function AfterSave(w: World): World
    requires TransitionPending(w.control)
  {
    var d := w.control.decision;
    var attempt := d.completion.Some? && w.ledger != [];
    w.(record := w.control.updated,
       origin := if attempt then Some(Newest(w.ledger)) else w.origin,
       control := if w.control.AttemptEnded? || d.completion.None? then AtLoop else TransitionSaved(d))
  }

  function AfterResume(cfg: RunConfig, w: World, i: ResumeInput): World {
    if Terminal(w.record.state) then w
    else if Problem(cfg, w.record, w.ledger, i).Some? || !i.configured then w.(record := HumanStop(w.record))
    else w.(control := AtLoop)
  }

  function Next(cfg: RunConfig, w: World, s: Step): World
    requires Enabled(cfg, w, s)
  {
    match s
    case StartAttempt(sequence, capture) =>
      w.(ledger := w.ledger + [StartedAttempt(w.record, sequence, capture)], control := InStage)
    case Progress(attempt) => w.(ledger := Replaced(w.ledger, attempt))
    case RunHandler(input) => AfterHandler(cfg, w, input)
    case Decide =>
      var d := ImmediateDecision(cfg, w.record);
      var updated := ApplyDecision(w.record, d);
      if updated.Err? then w.(control := Raising) else w.(control := Decided(d, updated.value))
    case EndAttempt => AfterEnd(w)
    case SaveTransition => AfterSave(w)
    case ControllerException => w.(record := ExceptionStop(w.record), control := Down)
    case Crash => w.(control := Down)
    case Leave => w.(control := Down)
    case ResumeRun(resume) => AfterResume(cfg, w, resume)
    case EditWorkspace(edited) => w.(workspace := edited)
  }

  // ----- runs -----

  /** Whether the steps can be taken one after the other from w. */
  predicate Executable(cfg: RunConfig, w: World, steps: seq<Step>)
    decreases |steps|
  {
    steps == [] || (Enabled(cfg, w, steps[0]) && Executable(cfg, Next(cfg, w, steps[0]), steps[1..]))
  }

  function After(cfg: RunConfig, w: World, steps: seq<Step>): World
    requires Executable(cfg, w, steps)
    decreases |steps|
  {
    if steps == [] then w else After(cfg, Next(cfg, w, steps[0]), steps[1..])
  }

  /** The controller's own stops are legal transitions, like those a stage decides. */
  lemma StopsAreTransitions(record: RunRecord)
    requires !Terminal(record.state)
    ensures TransitionTo(record, HUMAN_REQUIRED, None, None, HumanStop(record).stop) == Ok(HumanStop(record))
    ensures TransitionTo(record, ExceptionStop(record).state, None, None, ExceptionStop(record).stop)
      == Ok(ExceptionStop(record))
  {
    match record.state { case _ => }
  }
}
