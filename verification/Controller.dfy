/**
 The synchronous controller: the drive loop and the resume path over the two
 persisted files, each write tied to one step of the lifecycle.
 */
module LifecycleController {
  import opened Wrappers
  import opened Models
  import opened Snapshots
  import opened Attempts
  import opened Handoff
  import opened Stages
  import opened StageProperties
  import opened Resume
  import opened Lifecycle
  import opened LifecycleInvariant
  import opened LifecycleTheorems

  /** Where one loop iteration loses its process, if it does. */
  datatype CrashPoint = NoCrash | AfterStart | AfterDispatch | AfterFirstWrite

  /** One update of the running attempt by its stage; only a writable stage records workspaces. */
  datatype StageUpdate = StageUpdate(
    before: Option<Fingerprint>,
    after: Option<Fingerprint>,
    processStarted: Option<bool>,
    execution: Option<ExecutionEvidence>)

  function Progressed(a: Attempt, u: StageUpdate): Attempt {
    if Writes(a.phase) then Updated(a, None, u.before, u.after, u.processStarted, u.execution)
    else Updated(a, None, None, None, u.processStarted, u.execution)
  }

  /** What one loop iteration meets, whatever state it is in. */
  datatype Environment = Environment(
    reserved: nat,
    capture: Capture,
    updates: seq<StageUpdate>,
    raises: bool,
    preparationFails: bool,
    roundInput: RoundInput,
    reviewInput: ReviewInput,
    writeInput: WriteInput,
    handoffInput: HandoffInput,
    crash: CrashPoint)

  predicate ValidEnvironment(cfg: RunConfig, e: Environment) {
    && CanonicalCapture(e.capture) && ValidRoundInput(cfg, e.roundInput) && ValidReviewInput(e.reviewInput)
    && ValidWriteInput(e.writeInput) && CanonicalCapture(e.handoffInput.initial) && CanonicalCapture(e.handoffInput.final)
  }

  /** The part of the environment that the handler of a state meets. */
  function InputFor(s: WorkflowState, e: Environment): StageInput {
    if e.raises then StageRaises
    else
      match s
      case PREPARING => if e.preparationFails then PreparationFails else RoundRun(e.roundInput)
      case VERIFYING => RoundRun(e.roundInput)
      case REVIEWING => ReviewRun(e.reviewInput)
      case IMPLEMENTING => WriteRun(e.writeInput)
      case CORRECTING => WriteRun(e.writeInput)
      case REPORTING => ReportRun(e.handoffInput)
      case _ => StageRaises
  }

  /** _next_sequence: past every existing attempt, and past the directories that only reserve a number. */
  function NextSequence(ledger: seq<Attempt>, reserved: nat): (n: nat)
    requires Ordered(ledger)
    ensures n >= 1 && n > reserved && forall a :: a in ledger ==> a.sequence < n
  {
    var newest := if ledger == [] then 0 else Newest(ledger).sequence;
    (if newest < reserved then reserved else newest) + 1
  }

  lemma InputFits(cfg: RunConfig, s: WorkflowState, e: Environment)
    requires ValidEnvironment(cfg, e) && PhaseForActiveState(s).Some?
    ensures ValidInput(cfg, s, InputFor(s, e))
  {
    match s { case _ => }
  }

  lemma {:induction false} RunAppended(cfg: RunConfig, w: World, steps: seq<Step>, s: Step)
    requires Executable(cfg, w, steps) && Enabled(cfg, After(cfg, w, steps), s)
    ensures Executable(cfg, w, steps + [s]) && After(cfg, w, steps + [s]) == Next(cfg, After(cfg, w, steps), s)
    decreases |steps|
  {
    hide Next, Enabled;
    if steps == [] {
      assert [s][1..] == [];
    } else {
      RunAppended(cfg, Next(cfg, w, steps[0]), steps[1..], s);
      assert (steps + [s])[1..] == steps[1..] + [s];
    }
  }

  /** The world is the one that the trace of a new run leads to. */
  ghost predicate Traced(cfg: RunConfig, workspace: Snapshot, trace: seq<Step>, w: World) {
    ValidConfig(cfg) && Executable(cfg, Initial(workspace), trace) && After(cfg, Initial(workspace), trace) == w
  }

  lemma TracedInv(cfg: RunConfig, workspace: Snapshot, trace: seq<Step>, w: World)
    requires Traced(cfg, workspace, trace, w)
    ensures Inv(cfg, w) && Reachable(cfg, w)
  {
    InitiallyInv(cfg, workspace);
    InvOverRuns(cfg, Initial(workspace), trace);
  }

  lemma TracedOrdered(cfg: RunConfig, workspace: Snapshot, trace: seq<Step>, w: World)
    requires Traced(cfg, workspace, trace, w)
    ensures Ordered(w.ledger)
  {
    TracedInv(cfg, workspace, trace, w);
  }

  lemma TracedStep(cfg: RunConfig, workspace: Snapshot, trace: seq<Step>, w: World, s: Step)
    requires Traced(cfg, workspace, trace, w) && Enabled(cfg, w, s)
    ensures Traced(cfg, workspace, trace + [s], Next(cfg, w, s))
  {
    RunAppended(cfg, Initial(workspace), trace, s);
  }

  // ----- the effect of each write on the traced world -----

  lemma StartEffect(cfg: RunConfig, workspace: Snapshot, trace: seq<Step>, w: World, sequence: nat, capture: Capture)
    returns (next: World)
    requires Traced(cfg, workspace, trace, w) && Enabled(cfg, w, StartAttempt(sequence, capture))
    ensures Traced(cfg, workspace, trace + [StartAttempt(sequence, capture)], next)
    ensures next == w.(ledger := w.ledger + [StartedAttempt(w.record, sequence, capture)], control := InStage)
  {
    TracedStep(cfg, workspace, trace, w, StartAttempt(sequence, capture));
    next := Next(cfg, w, StartAttempt(sequence, capture));
  }

  lemma ProgressEffect(cfg: RunConfig, workspace: Snapshot, trace: seq<Step>, w: World, u: StageUpdate)
    returns (next: World)
    requires Traced(cfg, workspace, trace, w) && w.control.InStage?
    ensures w.ledger != [] && Traced(cfg, workspace, trace + [Progress(Progressed(Newest(w.ledger), u))], next)
    ensures next == w.(ledger := Replaced(w.ledger, Progressed(Newest(w.ledger), u)))
  {
    TracedInv(cfg, workspace, trace, w);
    TracedStep(cfg, workspace, trace, w, Progress(Progressed(Newest(w.ledger), u)));
    next := Next(cfg, w, Progress(Progressed(Newest(w.ledger), u)));
  }

  lemma HandlerEffect(cfg: RunConfig, workspace: Snapshot, trace: seq<Step>, w: World, input: StageInput)
    returns (run: StageRun, next: World)
    requires w.control.InStage? && w.ledger != [] && ValidInput(cfg, w.record.state, input)
    requires Traced(cfg, workspace, trace, w)
    ensures run == RunStage(cfg, w.record, w.ledger, Newest(w.ledger), input)
    ensures Traced(cfg, workspace, trace + [RunHandler(input)], next) && next == AfterRun(w, run)
    ensures run.Returned? ==> next.control.Decided?
  {
    TracedInv(cfg, workspace, trace, w);
    TracedStep(cfg, workspace, trace, w, RunHandler(input));
    HandlerFits(cfg, w, input);
    run := RunStage(cfg, w.record, w.ledger, Newest(w.ledger), input);
    RunShape(cfg, w, run);
    next := AfterRun(w, run);
  }

  lemma EndEffect(cfg: RunConfig, workspace: Snapshot, trace: seq<Step>, w: World)
    returns (next: World)
    requires Traced(cfg, workspace, trace, w) && CompletionPending(w.control)
    ensures w.ledger != [] && w.control.decision.completion.Some?
    ensures Traced(cfg, workspace, trace + [EndAttempt], next) && next == AfterEnd(w)
  {
    TracedInv(cfg, workspace, trace, w);
    TracedStep(cfg, workspace, trace, w, EndAttempt);
    next := Next(cfg, w, EndAttempt);
  }

  lemma SaveEffect(cfg: RunConfig, workspace: Snapshot, trace: seq<Step>, w: World)
    returns (next: World)
    requires Traced(cfg, workspace, trace, w) && TransitionPending(w.control)
    ensures Traced(cfg, workspace, trace + [SaveTransition], next) && next == AfterSave(w)
    ensures IterationsLeft(cfg, next.record) + 1 <= IterationsLeft(cfg, w.record)
    ensures IterationsLeft(cfg, next.record) >= 0
  {
    TracedInv(cfg, workspace, trace, w);
    SaveSpends(cfg, w);
    TracedStep(cfg, workspace, trace, w, SaveTransition);
    next := Next(cfg, w, SaveTransition);
    TracedInv(cfg, workspace, trace + [SaveTransition], next);
    LeftIsNatural(cfg, next);
  }

  lemma DecideEffect(cfg: RunConfig, workspace: Snapshot, trace: seq<Step>, w: World, d: StageDecision, u: RunRecord)
    returns (next: World)
    requires Traced(cfg, workspace, trace, w) && w.control.AtLoop? && w.record.state in {PREPARED, CORRECTION_PENDING}
    requires d == ImmediateDecision(cfg, w.record) && ApplyDecision(w.record, d) == Ok(u)
    ensures Traced(cfg, workspace, trace + [Decide], next) && next == w.(control := Decided(d, u))
  {
    TracedStep(cfg, workspace, trace, w, Decide);
    next := Next(cfg, w, Decide);
  }

  lemma ExceptionEffect(cfg: RunConfig, workspace: Snapshot, trace: seq<Step>, w: World)
    returns (next: World)
    requires Traced(cfg, workspace, trace, w) && Running(w)
    ensures Traced(cfg, workspace, trace + [ControllerException], next)
    ensures next == w.(record := ExceptionStop(w.record), control := Down)
  {
    TracedStep(cfg, workspace, trace, w, ControllerException);
    next := Next(cfg, w, ControllerException);
  }

  /** Losing the process, or leaving the loop on a terminal record. */
  lemma StopEffect(cfg: RunConfig, workspace: Snapshot, trace: seq<Step>, w: World, s: Step)
    returns (next: World)
    requires Traced(cfg, workspace, trace, w) && Enabled(cfg, w, s) && (s.Crash? || s.Leave?)
    ensures Traced(cfg, workspace, trace + [s], next) && next == w.(control := Down)
  {
    TracedStep(cfg, workspace, trace, w, s);
    next := Next(cfg, w, s);
  }

  lemma ResumeEffect(cfg: RunConfig, workspace: Snapshot, trace: seq<Step>, w: World, i: ResumeInput, refused: bool)
    returns (next: World)
    requires Traced(cfg, workspace, trace, w) && w.control.Down? && !Terminal(w.record.state)
    requires CanonicalCapture(i.preflight) && CanonicalCapture(i.policy)
    requires refused == (Problem(cfg, w.record, w.ledger, i).Some? || !i.configured)
    ensures Traced(cfg, workspace, trace + [ResumeRun(i)], next)
    ensures next == if refused then w.(record := HumanStop(w.record)) else w.(control := AtLoop)
  {
    TracedStep(cfg, workspace, trace, w, ResumeRun(i));
    next := Next(cfg, w, ResumeRun(i));
  }

  // ----- the controller -----

  /** The run has come to a point where a handler, or its decision, has raised. */
  ghost predicate RaisingAt(cfg: RunConfig, workspace: Snapshot, trace: seq<Step>) {
    exists w :: Traced(cfg, workspace, trace, w) && w.control.Raising?
  }

  /**
   The later trace continues the earlier one by the controller's own steps: without a resume, with a crash only
   where one may happen, and with an exception only where something raised.
   */
  ghost predicate Follows(cfg: RunConfig, workspace: Snapshot, earlier: seq<Step>, later: seq<Step>, crashes: bool) {
    && earlier <= later
    && forall i :: |earlier| <= i < |later| ==>
         && !later[i].ResumeRun? && (later[i].Crash? ==> crashes)
         && (later[i].ControllerException? ==> RaisingAt(cfg, workspace, later[..i]))
  }

  lemma FollowsItself(cfg: RunConfig, workspace: Snapshot, trace: seq<Step>, crashes: bool)
    ensures Follows(cfg, workspace, trace, trace, crashes)
  {
  }

  lemma FollowsOn(cfg: RunConfig, workspace: Snapshot, earlier: seq<Step>, later: seq<Step>, s: Step, crashes: bool)
    requires Follows(cfg, workspace, earlier, later, crashes) && !s.ResumeRun? && (s.Crash? ==> crashes)
    requires s.ControllerException? ==> RaisingAt(cfg, workspace, later)
    ensures Follows(cfg, workspace, earlier, later + [s], crashes)
  {
    hide RaisingAt;
    assert (later + [s])[..|later|] == later;
    forall i | |earlier| <= i < |later| ensures (later + [s])[..i] == later[..i] {
    }
  }

  lemma FollowsThrough(cfg: RunConfig, workspace: Snapshot, a: seq<Step>, b: seq<Step>, c: seq<Step>, first: bool, second: bool)
    requires Follows(cfg, workspace, a, b, first) && Follows(cfg, workspace, b, c, second)
    ensures Follows(cfg, workspace, a, c, first || second)
  {
    hide RaisingAt;
    forall i | |a| <= i < |b| ensures c[i] == b[i] && c[..i] == b[..i] {
    }
  }

  lemma IsRaising(cfg: RunConfig, workspace: Snapshot, trace: seq<Step>, w: World)
    requires Traced(cfg, workspace, trace, w) && w.control.Raising?
    ensures RaisingAt(cfg, workspace, trace)
  {
  }

  // ----- what one iteration does -----

  /** The order of the two writes that persist a decision. */
  function FirstWrite(s: WorkflowState): Step {
    if s == REPORTING then SaveTransition else EndAttempt
  }

  function SecondWrite(s: WorkflowState): Step {
    if s == REPORTING then EndAttempt else SaveTransition
  }

  function AfterHandling(s: WorkflowState, e: Environment, raised: bool): seq<Step> {
    if raised then [ControllerException]
    else if e.crash.AfterDispatch? then [Crash]
    else if e.crash.AfterFirstWrite? then [FirstWrite(s), Crash]
    else [FirstWrite(s), SecondWrite(s)]
  }

  /** The steps of one iteration from a state, as far as its environment lets it come. */
  predicate IterationOf(s: WorkflowState, e: Environment, steps: seq<Step>, raised: bool) {
    if PhaseForActiveState(s).None? then steps == [Decide, SaveTransition]
    else if e.crash.AfterStart? then
      |steps| == 2 && steps[0].StartAttempt? && steps[0].capture == e.capture && steps[1] == Crash
    else
      && |steps| >= |e.updates| + 2 && steps[0].StartAttempt? && steps[0].capture == e.capture
      && (forall i :: 0 < i <= |e.updates| ==> steps[i].Progress?)
      && steps[|e.updates| + 1] == RunHandler(InputFor(s, e))
      && steps[|e.updates| + 2..] == AfterHandling(s, e, raised)
  }

  /** Some iteration before the n-th environment was asked to lose its process. */
  ghost predicate CrashAsked(env: nat -> Environment, n: nat) {
    exists k: nat :: k < n && !env(k).crash.NoCrash?
  }

  function AllProgressed(a: Attempt, updates: seq<StageUpdate>): Attempt {
    if updates == [] then a else Progressed(AllProgressed(a, updates[..|updates| - 1]), updates[|updates| - 1])
  }

  lemma StageHasAttempt(cfg: RunConfig, workspace: Snapshot, trace: seq<Step>, w: World)
    requires Traced(cfg, workspace, trace, w) && w.control.InStage?
    ensures w.ledger != []
  {
    TracedInv(cfg, workspace, trace, w);
  }

  lemma TracedLeft(cfg: RunConfig, workspace: Snapshot, trace: seq<Step>, w: World)
    requires Traced(cfg, workspace, trace, w)
    ensures IterationsLeft(cfg, w.record) >= 0
  {
    TracedInv(cfg, workspace, trace, w);
    LeftIsNatural(cfg, w);
  }

  lemma TracedIsSafe(cfg: RunConfig, workspace: Snapshot, trace: seq<Step>, w: World)
    requires Traced(cfg, workspace, trace, w)
    ensures w.record.state == READY_FOR_HUMAN ==> HandedOver(cfg, w.record, w.ledger)
  {
    TracedInv(cfg, workspace, trace, w);
    ReadyIsSafe(cfg, w);
  }

  class Controller {
    const cfg: RunConfig
    var record: RunRecord
    var ledger: seq<Attempt>
    /** The run so far: the workspace it was created on, its steps, and the world they lead to. */
    ghost var created: Snapshot
    ghost var trace: seq<Step>
    ghost var world: World

    /** The two files are those of a world that the lifecycle reaches. */
    ghost predicate Valid()
      reads this
    {
      Traced(cfg, created, trace, world) && world.record == record && world.ledger == ledger
    }

    constructor (cfg: RunConfig, workspace: Snapshot)
      requires ValidConfig(cfg)
      ensures Valid() && this.cfg == cfg && world == Initial(workspace) && created == workspace && trace == []
    {
      hide Enabled, Next, ValidConfig;
      this.cfg := cfg;
      record, ledger := RunRecord(PREPARING, 0, 0, None), [];
      created, trace, world := workspace, [], Initial(workspace);
    }

    method StartStageAttempt(e: Environment) returns (attempt: Attempt)
      requires Valid() && world.control.AtLoop? && PhaseForActiveState(record.state).Some? && ValidEnvironment(cfg, e)
      modifies this`ledger, this`trace, this`world
      ensures Valid() && trace == old(trace) + [StartAttempt(attempt.sequence, e.capture)]
      ensures attempt == StartedAttempt(record, attempt.sequence, e.capture)
      ensures ledger == old(ledger) + [attempt] && world.control.InStage?
    {
      hide Traced;
      TracedOrdered(cfg, created, trace, world);
      var sequence := NextSequence(ledger, e.reserved);
      attempt := StartedAttempt(record, sequence, e.capture);
      ghost var next := StartEffect(cfg, created, trace, world, sequence, e.capture);
      ledger := ledger + [attempt];
      trace, world := trace + [StartAttempt(sequence, e.capture)], next;
    }

    /** update_attempt, as often as the running stage calls it. */
    method UpdateAttempt(updates: seq<StageUpdate>)
      requires Valid() && world.control.InStage?
      modifies this`ledger, this`trace, this`world
      ensures Valid() && world.control.InStage? && Follows(cfg, created, old(trace), trace, false)
      ensures old(trace) <= trace && |trace| == |old(trace)| + |updates|
      ensures forall i :: |old(trace)| <= i < |trace| ==> trace[i].Progress?
      ensures |ledger| == |old(ledger)| > 0 && ledger[..|ledger| - 1] == old(ledger)[..|ledger| - 1]
      ensures Newest(ledger) == AllProgressed(Newest(old(ledger)), updates)
    {
      hide Traced, Follows, Progressed;
      FollowsItself(cfg, created, trace, false);
      StageHasAttempt(cfg, created, trace, world);
      for i := 0 to |updates|
        invariant Valid() && world.control.InStage? && Follows(cfg, created, old(trace), trace, false)
        invariant old(trace) <= trace && |trace| == |old(trace)| + i
        invariant forall j :: |old(trace)| <= j < |trace| ==> trace[j].Progress?
        invariant |ledger| == |old(ledger)| > 0 && ledger[..|ledger| - 1] == old(ledger)[..|ledger| - 1]
        invariant Newest(ledger) == AllProgressed(Newest(old(ledger)), updates[..i])
      {
        var a := Progressed(ledger[|ledger| - 1], updates[i]);
        ghost var before := trace;
        ghost var next := ProgressEffect(cfg, created, trace, world, updates[i]);
        trace, world := trace + [Progress(a)], next;
        ledger := Replaced(ledger, a);
        FollowsOn(cfg, created, old(trace), before, Progress(a), false);
        assert updates[..i + 1][..i] == updates[..i];
      }
      assert updates[..|updates|] == updates;
    }

    /** What the handler left: its files, and the decision to persist; None when anything raised. */
    method Settle(run: StageRun, ghost before: World) returns (decided: Option<(StageDecision, RunRecord)>)
      requires before.record == record && before.ledger == ledger && ledger != [] && world == AfterRun(before, run)
      requires run.Returned? ==> world.control.Decided?
      modifies this`ledger
      ensures world.ledger == ledger && world.record == record
      ensures decided.None? ==> world.control.Raising?
      ensures decided.Some? ==> world.control == Decided(decided.value.0, decided.value.1)
      ensures decided.Some? ==> decided.value.0.completion.Some? && decided.value.0.source == record.state
    {
      if run.Raised? {
        return None;
      }
      var d := DecisionFor(record, run.result).value;
      decided := Some((d, ApplyDecision(record, d).value));
      ledger := Replaced(ledger, WithFiles(ledger[|ledger| - 1], run.result));
    }

    /** dispatch_stage and _apply_stage_decision. */
    method Dispatch(e: Environment) returns (decided: Option<(StageDecision, RunRecord)>)
      requires Valid() && world.control.InStage? && ValidEnvironment(cfg, e)
      requires ledger != [] && ValidInput(cfg, record.state, InputFor(record.state, e))
      modifies this`ledger, this`trace, this`world
      ensures Valid() && trace == old(trace) + [RunHandler(InputFor(record.state, e))]
      ensures decided.None? ==> world.control.Raising?
      ensures decided.Some? ==> world.control == Decided(decided.value.0, decided.value.1)
      ensures decided.Some? ==> decided.value.0.completion.Some? && decided.value.0.source == record.state
    {
      hide Traced;
      var input := InputFor(record.state, e);
      var run := RunStage(cfg, record, ledger, ledger[|ledger| - 1], input);
      ghost var before := world;
      ghost var same, next := HandlerEffect(cfg, created, trace, world, input);
      trace, world := trace + [RunHandler(input)], next;
      decided := Settle(run, before);
    }

    /** The ledger after the decision's attempt has ended. */
    static ghost function WithEnded(ledger: seq<Attempt>, d: StageDecision): seq<Attempt> {
      if ledger == [] || d.completion.None? then ledger
      else Replaced(ledger, EndedAttempt(Newest(ledger), d.completion.value))
    }

    /** complete_stage_attempt. */
    method CompleteStageAttempt(d: StageDecision)
      requires Valid() && CompletionPending(world.control) && world.control.decision == d
      modifies this`ledger, this`trace, this`world
      ensures Valid() && trace == old(trace) + [EndAttempt]
      ensures old(ledger) != [] && d.completion.Some?
      ensures ledger == Replaced(old(ledger), EndedAttempt(Newest(old(ledger)), d.completion.value))
      ensures world.control == AfterEnd(old(world)).control
    {
      hide Traced;
      ghost var next := EndEffect(cfg, created, trace, world);
      trace, world := trace + [EndAttempt], next;
      ledger := Replaced(ledger, EndedAttempt(ledger[|ledger| - 1], d.completion.value));
    }

    /** _save_lifecycle_run. */
    method SaveLifecycleRun(updated: RunRecord)
      requires Valid() && TransitionPending(world.control) && world.control.updated == updated
      modifies this`record, this`trace, this`world
      ensures Valid() && trace == old(trace) + [SaveTransition] && record == updated
      ensures world.control == AfterSave(old(world)).control
      ensures 0 <= IterationsLeft(cfg, record) < IterationsLeft(cfg, old(record))
    {
      hide Traced;
      ghost var next := SaveEffect(cfg, created, trace, world);
      trace, world := trace + [SaveTransition], next;
      record := updated;
    }

    /** _mark_controller_exception. */
    method MarkControllerException()
      requires Valid() && Running(world)
      modifies this`record, this`trace, this`world
      ensures Valid() && trace == old(trace) + [ControllerException] && world.control.Down?
      ensures record == ExceptionStop(old(record))
      ensures Terminal(old(record).state) ==> record == old(record)
      ensures old(record).state in {IMPLEMENTING, CORRECTING} ==>
        record.state == HUMAN_REQUIRED && record.stop == Some(StopReason(REPOSITORY_UNCERTAIN, false))
      ensures !Terminal(old(record).state) && old(record).state !in {IMPLEMENTING, CORRECTING} ==>
        record.state == FAILED && record.stop == Some(StopReason(CONTROLLER_FAILURE, false))
    {
      hide Traced;
      ghost var next := ExceptionEffect(cfg, created, trace, world);
      trace, world := trace + [ControllerException], next;
      record := ExceptionStop(record);
    }

    ghost method Stop(s: Step)
      requires Valid() && Enabled(cfg, world, s) && (s.Crash? || s.Leave?)
      modifies this`trace, this`world
      ensures Valid() && trace == old(trace) + [s] && world.control.Down?
    {
      hide Traced;
      var next := StopEffect(cfg, created, trace, world, s);
      trace, world := trace + [s], next;
    }

    /** The decision of a state without an attempt. */
    method DecideWithoutAttempt() returns (d: StageDecision, updated: RunRecord)
      requires Valid() && world.control.AtLoop? && record.state in {PREPARED, CORRECTION_PENDING}
      modifies this`trace, this`world
      ensures Valid() && trace == old(trace) + [Decide]
      ensures d.completion.None? && world.control == Decided(d, updated)
    {
      hide Traced;
      ImmediateDecisionsAreLegal(cfg, record);
      d := ImmediateDecision(cfg, record);
      updated := ApplyDecision(record, d).value;
      ghost var next := DecideEffect(cfg, created, trace, world, d, updated);
      trace, world := trace + [Decide], next;
    }

    /** The two writes of a decision: a report persists its transition first, any other stage first ends its attempt. */
    method Persist(d: StageDecision, updated: RunRecord, crash: bool) returns (alive: bool)
      requires Valid() && world.control == Decided(d, updated) && d.completion.Some?
      modifies this`record, this`ledger, this`trace, this`world
      ensures Valid() && Follows(cfg, created, old(trace), trace, crash)
      ensures trace == old(trace) + [FirstWrite(d.source)] + [if crash then Crash else SecondWrite(d.source)]
      ensures alive == !crash
      ensures record == if alive || d.source == REPORTING then updated else old(record)
      ensures ledger == if alive || d.source != REPORTING then WithEnded(old(ledger), d) else old(ledger)
      ensures alive ==> world.control.AtLoop? && 0 <= IterationsLeft(cfg, record) < IterationsLeft(cfg, old(record))
      ensures !alive ==> world.control.Down?
    {
      hide IterationsLeft, Traced, Follows;
      ghost var before := trace;
      FollowsItself(cfg, created, before, crash);
      if d.source == REPORTING {
        SaveLifecycleRun(updated);
      } else {
        CompleteStageAttempt(d);
      }
      FollowsOn(cfg, created, before, trace[..|trace| - 1], trace[|trace| - 1], crash);
      if crash {
        Stop(Crash);
        FollowsOn(cfg, created, before, trace[..|trace| - 1], trace[|trace| - 1], crash);
        return false;
      }
      if d.source == REPORTING {
        CompleteStageAttempt(d);
      } else {
        SaveLifecycleRun(updated);
      }
      FollowsOn(cfg, created, before, trace[..|trace| - 1], trace[|trace| - 1], crash);
      return true;
    }

    /** One iteration whose state owns an attempt: false when the process is gone afterwards. */
    method IterateWithAttempt(e: Environment) returns (alive: bool, ghost raised: bool)
      requires Valid() && world.control.AtLoop? && PhaseForActiveState(record.state).Some? && ValidEnvironment(cfg, e)
      modifies this`record, this`ledger, this`trace, this`world
      ensures Valid() && Follows(cfg, created, old(trace), trace, !e.crash.NoCrash?)
      ensures IterationOf(old(record).state, e, trace[|old(trace)|..], raised)
      ensures alive ==> world.control.AtLoop? && 0 <= IterationsLeft(cfg, record) < IterationsLeft(cfg, old(record))
      ensures !alive ==> world.control.Down?
      ensures alive <==> e.crash.NoCrash? && !raised
      ensures raised ==> record == ExceptionStop(old(record)) && Terminal(record.state)
    {
      hide IterationsLeft, Traced, Follows;
      raised := false;
      ghost var before, asked, s := trace, !e.crash.NoCrash?, record.state;
      FollowsItself(cfg, created, before, asked);
      var attempt := StartStageAttempt(e);
      FollowsOn(cfg, created, before, trace[..|trace| - 1], trace[|trace| - 1], asked);
      if e.crash.AfterStart? {
        Stop(Crash);
        FollowsOn(cfg, created, before, trace[..|trace| - 1], trace[|trace| - 1], asked);
        assert trace[|before|..] == [trace[|before|], Crash];
        return false, false;
      }
      ghost var started := trace;
      UpdateAttempt(e.updates);
      FollowsThrough(cfg, created, before, started, trace, asked, false);
      InputFits(cfg, record.state, e);
      ghost var updated := trace;
      var decided := Dispatch(e);
      FollowsOn(cfg, created, before, updated, trace[|trace| - 1], asked);
      ghost var dispatched := trace;
      if decided.None? {
        IsRaising(cfg, created, trace, world);
        MarkControllerException();
        FollowsOn(cfg, created, before, dispatched, ControllerException, asked);
        ExceptionEnds(s);
        HandledIteration(s, e, before, updated, trace, true);
        return false, true;
      }
      if e.crash.AfterDispatch? {
        Stop(Crash);
        FollowsOn(cfg, created, before, dispatched, Crash, asked);
        HandledIteration(s, e, before, updated, trace, false);
        return false, false;
      }
      alive := Persist(decided.value.0, decided.value.1, e.crash.AfterFirstWrite?);
      FollowsThrough(cfg, created, before, dispatched, trace, asked, e.crash.AfterFirstWrite?);
      assert trace == updated + [RunHandler(InputFor(s, e))] + AfterHandling(s, e, false);
      HandledIteration(s, e, before, updated, trace, false);
    }

    method Iterate(e: Environment) returns (alive: bool, ghost raised: bool)
      requires Valid() && world.control.AtLoop? && !Terminal(record.state) && ValidEnvironment(cfg, e)
      modifies this`record, this`ledger, this`trace, this`world
      ensures Valid() && Follows(cfg, created, old(trace), trace, !e.crash.NoCrash?)
      ensures IterationOf(old(record).state, e, trace[|old(trace)|..], raised)
      ensures alive ==> world.control.AtLoop? && 0 <= IterationsLeft(cfg, record) < IterationsLeft(cfg, old(record))
      ensures !alive ==> world.control.Down? && (Terminal(record.state) || !e.crash.NoCrash?)
    {
      hide IterationsLeft, Traced, Follows;
      if PhaseForActiveState(record.state).Some? {
        alive, raised := IterateWithAttempt(e);
      } else {
        ghost var before, asked := trace, !e.crash.NoCrash?;
        FollowsItself(cfg, created, before, asked);
        var d, updated := DecideWithoutAttempt();
        FollowsOn(cfg, created, before, before, Decide, asked);
        SaveLifecycleRun(updated);
        FollowsOn(cfg, created, before, before + [Decide], SaveTransition, asked);
        alive, raised := true, false;
      }
    }

    /**
     _drive_lifecycle: the number of iterations that the process survived. Unless one of its environments loses
     the process, the loop only leaves a terminal record.
     */
    method Drive(env: nat -> Environment) returns (iterations: nat)
      requires Valid() && world.control.AtLoop? && forall k: nat :: ValidEnvironment(cfg, env(k))
      modifies this`record, this`ledger, this`trace, this`world
      ensures Valid() && world.control.Down?
      ensures Follows(cfg, created, old(trace), trace, CrashAsked(env, iterations + 1))
      ensures Terminal(record.state) || CrashAsked(env, iterations + 1)
      ensures iterations <= IterationsLeft(cfg, old(record))
      ensures record.state == READY_FOR_HUMAN ==> HandedOver(cfg, record, ledger)
    {
      hide Traced, HandedOver, ValidEnvironment, Follows, CrashAsked, IterationOf;
      iterations := 0;
      FollowsItself(cfg, created, trace, CrashAsked(env, 0));
      TracedLeft(cfg, created, trace, world);
      while !Terminal(record.state)
        invariant Valid() && world.control.AtLoop?
        invariant Follows(cfg, created, old(trace), trace, CrashAsked(env, iterations))
        invariant 0 <= IterationsLeft(cfg, record) <= IterationsLeft(cfg, old(record)) - iterations
        decreases IterationsLeft(cfg, record)
      {
        ghost var before := trace;
        ghost var raised: bool;
        var alive: bool;
        alive, raised := Iterate(env(iterations));
        FollowsThrough(cfg, created, old(trace), before, trace, CrashAsked(env, iterations), !env(iterations).crash.NoCrash?);
        AskedNext(env, iterations);
        if !alive {
          TracedIsSafe(cfg, created, trace, world);
          return;
        }
        iterations := iterations + 1;
      }
      ghost var driven := trace;
      TracedIsSafe(cfg, created, trace, world);
      Stop(Leave);
      FollowsOn(cfg, created, old(trace), driven, Leave, CrashAsked(env, iterations));
      FollowsItself(cfg, created, trace, !env(iterations).crash.NoCrash?);
      FollowsThrough(cfg, created, old(trace), trace, trace, CrashAsked(env, iterations), !env(iterations).crash.NoCrash?);
      AskedNext(env, iterations);
    }

    /**
     _resume_ticket_lifecycle_locked, on the record that the new process loads: an accepted run is driven to a
     terminal record unless its process is lost again.
     */
    method ResumeTicket(i: ResumeInput, env: nat -> Environment) returns (ghost iterations: nat)
      requires Valid() && world.control.Down? && CanonicalCapture(i.preflight) && CanonicalCapture(i.policy)
      requires forall k: nat :: ValidEnvironment(cfg, env(k))
      modifies this`record, this`ledger, this`trace, this`world
      ensures Valid() && world.control.Down? && old(trace) <= trace
      ensures Terminal(old(record).state) ==> record == old(record) && ledger == old(ledger) && trace == old(trace)
      ensures !Terminal(old(record).state) && (Problem(cfg, old(record), old(ledger), i).Some? || !i.configured) ==>
        record == HumanStop(old(record)) && ledger == old(ledger) && trace == old(trace) + [ResumeRun(i)]
      ensures !Terminal(old(record).state) && Problem(cfg, old(record), old(ledger), i).None? && i.configured ==>
        && Follows(cfg, created, old(trace) + [ResumeRun(i)], trace, CrashAsked(env, iterations + 1))
        && iterations <= IterationsLeft(cfg, old(record))
      ensures Terminal(record.state) || CrashAsked(env, iterations + 1)
      ensures record.state == READY_FOR_HUMAN ==> HandedOver(cfg, record, ledger)
    {
      hide Problem, HandedOver, Traced, Follows, CrashAsked;
      iterations := 0;
      if Terminal(record.state) {
        TracedIsSafe(cfg, created, trace, world);
        return;
      }
      var refused := Problem(cfg, record, ledger, i).Some? || !i.configured;
      ghost var next := ResumeEffect(cfg, created, trace, world, i, refused);
      trace, world := trace + [ResumeRun(i)], next;
      if refused {
        record := HumanStop(record);
        return;
      }
      ghost var resumed := trace;
      var driven := Drive(env);
      FollowsExtends(cfg, created, resumed, trace, CrashAsked(env, driven + 1));
      iterations := driven;
    }
  }

  lemma FollowsExtends(cfg: RunConfig, workspace: Snapshot, earlier: seq<Step>, later: seq<Step>, crashes: bool)
    requires Follows(cfg, workspace, earlier, later, crashes)
    ensures earlier <= later
  {
  }

  lemma AskedNext(env: nat -> Environment, n: nat)
    ensures CrashAsked(env, n + 1) <==> CrashAsked(env, n) || !env(n).crash.NoCrash?
  {
    if CrashAsked(env, n) {
      var k: nat :| k < n && !env(k).crash.NoCrash?;
      assert k < n + 1;
    }
    if !env(n).crash.NoCrash? {
      assert n < n + 1;
    }
  }

  lemma ExceptionEnds(s: WorkflowState)
    ensures forall record: RunRecord :: record.state == s ==> Terminal(ExceptionStop(record).state)
  {
  }

  /** The trace of an iteration that came to its handler. */
  lemma HandledIteration(s: WorkflowState, e: Environment, before: seq<Step>, updated: seq<Step>, trace: seq<Step>, raised: bool)
    requires PhaseForActiveState(s).Some? && !e.crash.AfterStart? && before <= updated
    requires |updated| == |before| + 1 + |e.updates|
    requires updated[|before|].StartAttempt? && updated[|before|].capture == e.capture
    requires forall i :: |before| < i < |updated| ==> updated[i].Progress?
    requires trace == updated + [RunHandler(InputFor(s, e))] + AfterHandling(s, e, raised)
    ensures IterationOf(s, e, trace[|before|..], raised)
  {
    hide InputFor, AfterHandling, PhaseForActiveState;
    var steps := trace[|before|..];
    assert steps[|e.updates| + 2..] == AfterHandling(s, e, raised);
    forall i | 0 < i <= |e.updates| ensures steps[i].Progress? {
      assert steps[i] == updated[|before| + i];
    }
  }
}
