/**
 The guarded writable operation: one workspace-write agent call between two
 workspace captures, classified into five sealed outcomes that each check
 their own audit when they are constructed.
 */
module GuardedOperation {
  import opened Wrappers
  import opened Models
  import opened Snapshots
  import opened TaskResults
  import opened Attempts
  import opened AgentExecutions

  datatype WritableBaseline = WritableBaseline(
    repositoryPath: string,
    branch: Option<string>,
    headSha: string,
    expectedWorkspace: Option<Fingerprint>,
    requireCleanWorktree: bool)

  datatype EnvironmentSnapshot = EnvironmentSnapshot(environments: set<string>, errors: seq<string>)

  datatype GuardInspection = GuardInspection(
    persisted: bool,
    before: EnvironmentSnapshot,
    after: EnvironmentSnapshot,
    newEnvironments: set<string>)
  {
    predicate RequiresHuman() {
      newEnvironments != {} || before.errors != [] || after.errors != []
    }
  }

  datatype WritableAudit = WritableAudit(
    execution: Option<AgentExecution>,
    before: Option<Snapshot>,
    after: Option<Snapshot>,
    guard: GuardInspection,
    violations: seq<string>,
    changedFiles: seq<string>,
    start: InvocationStart,
    failureMessage: Option<string>)
  {
    predicate Unsafe() {
      violations != [] || guard.RequiresHuman()
    }

    predicate CompleteCaptures() {
      before.Some? && after.Some? && before.value.inspectionComplete && after.value.inspectionComplete
    }
  }

  datatype GuardedOutcome =
    | Succeeded(result: Artifact, audit: WritableAudit)
    | RejectedBeforeStart(audit: WritableAudit)
    | FailedUnchanged(audit: WritableAudit)
    | FailedUncertain(audit: WritableAudit)
    | SafetyStopped(audit: WritableAudit)
  {
    /** The invariant each outcome re-checks in its own constructor. */
    predicate ConstructorAccepts() {
      match this
      case Succeeded(result, a) =>
        && a.execution.Some? && a.execution.value.Successful() && a.execution.value.result == Some(result)
        && a.start.InvocationStarted? && a.CompleteCaptures() && !a.Unsafe() && a.guard.persisted
      case RejectedBeforeStart(a) =>
        && a.start.NotStarted? && !a.Unsafe()
        && (a.execution.Some? ==> !a.execution.value.Successful())
        && a.CompleteCaptures() && a.guard.persisted
      case FailedUnchanged(a) =>
        && !a.start.NotStarted? && a.execution.Some? && !a.execution.value.Successful()
        && a.CompleteCaptures() && Matches(a.before.value, a.after.value) && !a.Unsafe() && a.guard.persisted
      case FailedUncertain(a) => a.failureMessage.Some? && a.failureMessage.value != []
      case SafetyStopped(a) => a.Unsafe()
    }
  }

  // ----- the attempt tracker -----

  /** The value of a tracker: the last record it persisted, the start flag, and what went wrong. */
  datatype Evidence = Evidence(record: Option<Attempt>, processStarted: bool, errors: seq<string>)

  /** The fixed parts of what the operation writes into its evidence. */
  datatype Wording = LedgerUpdate | StartContradicted | CaptureFailed | CanonicalWorkspace | GuardArtifact | UnsafeStart
  {
    function Text(): string {
      match this
      case LedgerUpdate => "attempt-ledger: "
      case StartContradicted => "executor returned not-started after reporting invocation start"
      case CaptureFailed => "-canonical-workspace: capture failed"
      case CanonicalWorkspace => "-canonical-workspace: "
      case GuardArtifact => "workspace-guard-artifact: "
      case UnsafeStart => "Writable execution was rejected by its starting safety checks."
    }
  }

  /** How one ledger update of the tracker ended. */
  datatype SaveResult = Saved | SaveFailed(error: string) | SaveInterrupted(interruption: string)

  function AfterUpdate(e: Evidence, before: Option<Fingerprint>, after: Option<Fingerprint>,
      execution: Option<ExecutionEvidence>, save: SaveResult): Evidence
  {
    if e.record.None? then e
    else
      match save
      case Saved =>
        e.(record := Some(Updated(e.record.value, None, before, after, Some(e.processStarted), execution)))
      case SaveFailed(error) => e.(errors := e.errors + [LedgerUpdate.Text() + error])
      case SaveInterrupted(error) => e.(errors := e.errors + [LedgerUpdate.Text() + error])
  }

  /** record_started. */
  function AfterRecordStarted(e: Evidence, value: bool, save: SaveResult): Evidence {
    if !value then
      if e.processStarted then
        e.(errors := e.errors + [StartContradicted.Text()])
      else e
    else if e.processStarted then e
    else AfterUpdate(e.(processStarted := true), None, None, None, save)
  }

  /** _AttemptTracker. */
  class AttemptTracker {
    var record: Option<Attempt>
    var processStarted: bool
    var evidenceErrors: seq<string>

    function Model(): Evidence
      reads this
    {
      Evidence(record, processStarted, evidenceErrors)
    }

    constructor (associated: Result<Attempt, string>)
      ensures Model() == InitialEvidence(associated)
    {
      record := if associated.Ok? then Some(associated.value) else None;
      processStarted := false;
      evidenceErrors := if associated.Ok? then [] else [associated.error];
    }

    method Update(before: Option<Fingerprint>, after: Option<Fingerprint>, execution: Option<ExecutionEvidence>,
        save: SaveResult)
      modifies this
      ensures Model() == AfterUpdate(old(Model()), before, after, execution, save)
    {
      if record.None? {
        return;
      }
      match save {
        case Saved =>
          record := Some(Updated(record.value, None, before, after, Some(processStarted), execution));
        case SaveFailed(error) =>
          evidenceErrors := evidenceErrors + [LedgerUpdate.Text() + error];
        case SaveInterrupted(error) =>
          evidenceErrors := evidenceErrors + [LedgerUpdate.Text() + error];
      }
    }

    /** The result says whether the update was interrupted and the interruption must propagate. */
    method RecordStarted(value: bool, save: SaveResult) returns (interrupted: bool)
      modifies this
      ensures Model() == AfterRecordStarted(old(Model()), value, save)
      ensures interrupted <==> value && !old(processStarted) && record.Some? && save.SaveInterrupted?
    {
      if !value {
        if processStarted {
          evidenceErrors := evidenceErrors + [StartContradicted.Text()];
        }
        return false;
      }
      if processStarted {
        return false;
      }
      processStarted := true;
      Update(None, None, None, save);
      return record.Some? && save.SaveInterrupted?;
    }

    method RecordAfter(snapshot: Option<Snapshot>, save: SaveResult)
      modifies this
      ensures Model() == AfterRecordAfter(old(Model()), snapshot, save)
    {
      Update(None, if snapshot.Some? then Some(FingerprintOf(snapshot.value)) else None, None, save);
    }
  }

  function InitialEvidence(associated: Result<Attempt, string>): Evidence {
    match associated
    case Ok(record) => Evidence(Some(record), false, [])
    case Err(error) => Evidence(None, false, [error])
  }

  /** record_after: a failed capture is recorded in the attempt's metadata, which is not modelled. */
  function AfterRecordAfter(e: Evidence, snapshot: Option<Snapshot>, save: SaveResult): Evidence {
    AfterUpdate(e, None, if snapshot.Some? then Some(FingerprintOf(snapshot.value)) else None, None, save)
  }

  // ----- violations -----

  /** _merge_violations: one violation per name, in the order of first appearance. */
  function Merge(first: seq<string>, second: seq<string>): (r: seq<string>)
    ensures r == [] <==> first == [] && second == []
  {
    Distinct(first + second)
  }

  function Distinct(names: seq<string>): (r: seq<string>)
    ensures forall n :: n in r <==> n in names
    ensures r == [] <==> names == []
  {
    if names == [] then []
    else
      var last := names[|names| - 1];
      var rest := Distinct(names[..|names| - 1]);
      assert names == names[..|names| - 1] + [last];
      if last in rest then rest else rest + [last]
  }

  predicate Complete(s: Option<Snapshot>) {
    s.Some? && s.value.inspectionComplete
  }

  /** _workspace_unchanged. */
  predicate Unchanged(before: Option<Snapshot>, after: Option<Snapshot>) {
    Complete(before) && Complete(after) && Matches(before.value, after.value)
  }

  function StartingChanges(s: Option<Snapshot>, b: WritableBaseline): seq<string> {
    if s.None? then []
    else
      ChangeNames(SafetyChanges(s.value, b.repositoryPath, b.branch, b.headSha, true, b.requireCleanWorktree))
      + (if b.expectedWorkspace.Some? && !MatchesFingerprint(s.value, b.expectedWorkspace.value)
         then ["workspace-fingerprint"] else [])
  }

  function PostChanges(s: Option<Snapshot>, b: WritableBaseline): seq<string> {
    if s.None? then ["workspace-inspection"]
    else ChangeNames(SafetyChanges(s.value, b.repositoryPath, b.branch, b.headSha, true, false))
  }

  function EvidenceViolations(e: Evidence): seq<string> {
    if e.errors == [] then [] else ["writable-attempt-evidence"]
  }

  function InspectionViolations(before: Option<Snapshot>, environment: EnvironmentSnapshot): seq<string> {
    if !Complete(before) || environment.errors != [] then ["workspace-inspection"] else []
  }

  // ----- the environment guard -----

  /** _with_workspace_inspection_errors. */
  function WithWorkspaceErrors(e: EnvironmentSnapshot, s: Option<Snapshot>, point: string): EnvironmentSnapshot {
    if s.None? then e.(errors := Distinct(e.errors + [point + CaptureFailed.Text()]))
    else if !s.value.inspectionComplete then e.(errors := Distinct(e.errors + Prefixed(point, s.value.errors)))
    else e.(errors := Distinct(e.errors))
  }

  function Prefixed(point: string, errors: seq<string>): seq<string> {
    if errors == [] then [] else [point + CanonicalWorkspace.Text() + errors[0]] + Prefixed(point, errors[1..])
  }

  /** _with_guard_evidence_errors. */
  function WithGuardErrors(g: GuardInspection, errors: seq<string>): (r: GuardInspection)
    ensures r == g.(after := r.after)
    ensures r.after.errors == [] <==> g.after.errors == [] && errors == []
  {
    if errors == [] then g
    else
      var rest := WithGuardErrors(g, errors[..|errors| - 1]);
      var last := errors[|errors| - 1];
      if last in rest.after.errors then rest
      else rest.(after := rest.after.(errors := rest.after.errors + [last]))
  }

  /** How comparing the environments and writing the guard artifact went. */
  datatype GuardRun = GuardRun(comparisonError: Option<string>, writeError: Option<string>)

  /** _build_and_persist_guard_evidence: the inspection and the evidence errors it leaves behind. */
  function GuardEvidence(e: Evidence, before: EnvironmentSnapshot, after: EnvironmentSnapshot, run: GuardRun)
    : (r: (GuardInspection, Evidence))
    ensures !r.0.persisted ==> r.0.RequiresHuman() || (e.record.None? && e.errors == [])
    ensures !r.0.RequiresHuman() ==> r.1.errors == []
    ensures r.1.record == e.record && r.1.processStarted == e.processStarted
  {
    var compared :=
      if run.comparisonError.None? then
        GuardInspection(false, before, after, after.environments - before.environments)
      else
        GuardInspection(false, before, after.(errors := after.errors + [run.comparisonError.value]), {});
    var e1 := if run.comparisonError.None? then e else e.(errors := e.errors + [run.comparisonError.value]);
    if e.record.None? then (WithGuardErrors(compared, e1.errors), e1)
    else if run.writeError.None? then (WithGuardErrors(compared.(persisted := true), e1.errors), e1)
    else
      var e2 := e1.(errors := e1.errors + [GuardArtifact.Text() + run.writeError.value]);
      (WithGuardErrors(compared, e2.errors), e2)
  }

  // ----- one call -----

  /**
   Everything outside the operation's control: the attempt association, the captures, the executor
   with its start observer, and the result of every write.
   */
  datatype Script = Script(
    associated: Result<Attempt, string>,
    environmentBefore: EnvironmentSnapshot,
    before: Option<Snapshot>,
    saveBefore: SaveResult,
    capabilityProblem: Option<string>,
    observedStart: bool,
    saveStart: SaveResult,
    executor: Result<AgentExecution, string>,
    contractProblem: Option<string>,
    writeEvidence: Option<string>,
    saveExecution: SaveResult,
    after: Option<Snapshot>,
    environmentAfter: EnvironmentSnapshot,
    saveAfter: SaveResult,
    guardRun: GuardRun,
    changedFiles: Result<seq<string>, string>)
  {
    /** What the types of the collaborators guarantee: an AgentExecution obeys its constructor, errors have text. */
    predicate Valid() {
      && (executor.Ok? ==> executor.value.Valid())
      && (executor.Err? ==> executor.error != [])
      && (contractProblem.Some? ==> contractProblem.value != [])
      && (writeEvidence.Some? ==> writeEvidence.value != [])
      && (saveStart.SaveInterrupted? ==> saveStart.interruption != [])
    }
  }

  function ChangedFilesOf(s: Script): seq<string> {
    if s.changedFiles.Ok? then s.changedFiles.value else []
  }

  function InspectionFailure(s: Script): seq<string> {
    if s.changedFiles.Ok? then [] else ["worktree-inspection"]
  }

  /** _capture_before. */
  function CapturedBefore(s: Script): Evidence {
    AfterUpdate(InitialEvidence(s.associated), if s.before.Some? then Some(FingerprintOf(s.before.value)) else None,
      None, None, s.saveBefore)
  }

  function EnvironmentBefore(s: Script): EnvironmentSnapshot {
    WithWorkspaceErrors(s.environmentBefore, s.before, "before")
  }

  function EnvironmentAfter(s: Script): EnvironmentSnapshot {
    WithWorkspaceErrors(s.environmentAfter, s.after, "after")
  }

  function StartingViolations(b: WritableBaseline, s: Script): seq<string> {
    Merge(Merge(StartingChanges(s.before, b), InspectionViolations(s.before, EnvironmentBefore(s))),
      EvidenceViolations(CapturedBefore(s)))
  }

  /** _audit_without_invocation. */
  function AuditWithoutInvocation(b: WritableBaseline, s: Script, starting: seq<string>, failure: string)
    : WritableAudit
  {
    var recorded := AfterRecordAfter(CapturedBefore(s), s.after, s.saveAfter);
    var guarded := GuardEvidence(recorded, EnvironmentBefore(s), EnvironmentAfter(s), s.guardRun);
    var violations :=
      Merge(Merge(starting, PostChanges(s.after, b)), EvidenceViolations(guarded.1)) + InspectionFailure(s);
    WritableAudit(None, s.before, s.after, guarded.0, violations, ChangedFilesOf(s), NotStarted, Some(failure))
  }

  /** What the invocation itself left: the tracker's evidence, the executor's answer and an exception. */
  datatype Invocation = Invocation(evidence: Evidence, execution: Option<AgentExecution>, error: Option<string>)

  function Invoke(s: Script): Invocation {
    var e0 := CapturedBefore(s);
    var e1 := if s.observedStart then AfterRecordStarted(e0, true, s.saveStart) else e0;
    if s.executor.Err? then Invocation(e1, None, Some(s.executor.error))
    else
      var x := s.executor.value;
      var interrupted := x.start.InvocationStarted? && !e1.processStarted && e1.record.Some?
        && s.saveStart.SaveInterrupted?;
      var e2 :=
        if x.start.Unknown? then e1 else AfterRecordStarted(e1, x.start.InvocationStarted?, s.saveStart);
      if interrupted then Invocation(e2, Some(x), Some(s.saveStart.interruption))
      else if s.contractProblem.Some? then Invocation(e2, Some(x), s.contractProblem)
      else if s.writeEvidence.Some? then Invocation(e2, Some(x), s.writeEvidence)
      else Invocation(AfterUpdate(e2, None, None, Some(EvidenceOf(x)), s.saveExecution), Some(x), None)
  }

  /** _invocation_start. */
  function StartOf(i: Invocation): InvocationStart {
    if i.evidence.processStarted then InvocationStarted
    else if i.execution.Some? then i.execution.value.start
    else if i.error.Some? then Unknown
    else NotStarted
  }

  predicate SucceededExecution(i: Invocation) {
    i.error.None? && i.execution.Some? && i.execution.value.Successful()
  }

  function FailureMessageOf(i: Invocation): Option<string> {
    if i.error.Some? then i.error
    else if i.execution.None? || i.execution.value.failure.None? then None
    else Some(i.execution.value.failure.value.message)
  }

  function AuditAfterInvocation(b: WritableBaseline, s: Script): WritableAudit {
    var i := Invoke(s);
    var recorded := AfterRecordAfter(i.evidence, s.after, s.saveAfter);
    var guarded := GuardEvidence(recorded, EnvironmentBefore(s), EnvironmentAfter(s), s.guardRun);
    var violations :=
      Merge(PostChanges(s.after, b), EvidenceViolations(guarded.1)) + InspectionFailure(s)
      + (if !SucceededExecution(i) && ChangedFilesOf(s) != [] && !Unchanged(s.before, s.after)
         then ["worktree"] else []);
    WritableAudit(i.execution, s.before, s.after, guarded.0, violations, ChangedFilesOf(s), StartOf(i),
      FailureMessageOf(i))
  }

  const UNTRUSTED_COMPLETIONS: set<FailureCategory> :=
    {MISSING_RESULT, INVALID_RESULT, AGENT_TIMEOUT, INVOCATION_CLEANUP_UNCERTAIN}

  predicate UntrustedCompletion(x: Option<AgentExecution>) {
    x.Some? && x.value.failure.Some? && x.value.failure.value.category in UNTRUSTED_COMPLETIONS
  }

  /** The classification of an audited invocation, in the source's order. */
  function ClassifyInvocation(a: WritableAudit, raised: bool): GuardedOutcome
    requires !raised && a.execution.Some? && a.execution.value.Successful() ==> a.execution.value.result.Some?
  {
    if raised then FailedUncertain(a)
    else if a.execution.Some? && a.execution.value.Successful() then
      if a.Unsafe() then SafetyStopped(a) else Succeeded(a.execution.value.result.value, a)
    else if a.start.NotStarted? && Unchanged(a.before, a.after) && !a.Unsafe() then RejectedBeforeStart(a)
    else if !a.start.NotStarted? && Unchanged(a.before, a.after) && !UntrustedCompletion(a.execution) && !a.Unsafe() then
      FailedUnchanged(a)
    else FailedUncertain(a)
  }

  /** GuardedWritableOperation.execute as a function of everything outside its control. */
  function Guarded(b: WritableBaseline, s: Script): GuardedOutcome
    requires s.Valid()
  {
    var starting := StartingViolations(b, s);
    if starting != [] then SafetyStopped(AuditWithoutInvocation(b, s, starting, UnsafeStart.Text()))
    else if s.capabilityProblem.Some? then
      Rejection(AuditWithoutInvocation(b, s, [], s.capabilityProblem.value))
    else ClassifyInvocation(AuditAfterInvocation(b, s), Invoke(s).error.Some?)
  }

  function Rejection(a: WritableAudit): GuardedOutcome {
    if a.Unsafe() then SafetyStopped(a) else RejectedBeforeStart(a)
  }

  /** reject_before_start: the stage supplies the reason and perhaps violations of its own. */
  function RejectBeforeStart(b: WritableBaseline, s: Script, stageViolations: seq<string>, failure: string)
    : GuardedOutcome
  {
    var merged := Merge(stageViolations, StartingChanges(s.before, b));
    var starting := Merge(merged, InspectionViolations(s.before, EnvironmentBefore(s)));
    Rejection(AuditWithoutInvocation(b, s, starting, failure))
  }

  // ----- the operation itself -----

  method CaptureBefore(s: Script) returns (tracker: AttemptTracker)
    ensures fresh(tracker) && tracker.Model() == CapturedBefore(s)
  {
    tracker := new AttemptTracker(s.associated);
    tracker.Update(if s.before.Some? then Some(FingerprintOf(s.before.value)) else None, None, None, s.saveBefore);
  }

  /** _build_and_persist_guard_evidence on the tracker itself. */
  method BuildGuard(tracker: AttemptTracker, before: EnvironmentSnapshot, after: EnvironmentSnapshot, run: GuardRun)
    returns (guard: GuardInspection)
    modifies tracker
    ensures (guard, tracker.Model()) == GuardEvidence(old(tracker.Model()), before, after, run)
  {
    guard := GuardInspection(false, before, after, after.environments - before.environments);
    if run.comparisonError.Some? {
      tracker.evidenceErrors := tracker.evidenceErrors + [run.comparisonError.value];
      guard := GuardInspection(false, before, after.(errors := after.errors + [run.comparisonError.value]), {});
    }
    if tracker.record.None? {
      return WithGuardErrors(guard, tracker.evidenceErrors);
    }
    if run.writeError.Some? {
      tracker.evidenceErrors := tracker.evidenceErrors + [GuardArtifact.Text() + run.writeError.value];
      return WithGuardErrors(guard, tracker.evidenceErrors);
    }
    return WithGuardErrors(guard.(persisted := true), tracker.evidenceErrors);
  }

  method RunAuditWithoutInvocation(tracker: AttemptTracker, b: WritableBaseline, s: Script, starting: seq<string>,
      failure: string)
    returns (audit: WritableAudit)
    requires tracker.Model() == CapturedBefore(s)
    modifies tracker
    ensures audit == AuditWithoutInvocation(b, s, starting, failure)
  {
    tracker.RecordAfter(s.after, s.saveAfter);
    var guard := BuildGuard(tracker, EnvironmentBefore(s), EnvironmentAfter(s), s.guardRun);
    var violations := Merge(starting, PostChanges(s.after, b));
    violations := Merge(violations, EvidenceViolations(tracker.Model()));
    if s.changedFiles.Err? {
      violations := violations + ["worktree-inspection"];
    }
    audit := WritableAudit(None, s.before, s.after, guard, violations, ChangedFilesOf(s), NotStarted, Some(failure));
  }

  /** The body of the try statement: run the executor, keep the tracker current, stop at the first exception. */
  method RunInvocation(tracker: AttemptTracker, s: Script)
    returns (execution: Option<AgentExecution>, error: Option<string>)
    requires tracker.Model() == CapturedBefore(s)
    modifies tracker
    ensures Invocation(tracker.Model(), execution, error) == Invoke(s)
  {
    execution, error := None, None;
    if s.observedStart {
      var _ := tracker.RecordStarted(true, s.saveStart);
    }
    if s.executor.Err? {
      return None, Some(s.executor.error);
    }
    execution := Some(s.executor.value);
    if !execution.value.start.Unknown? {
      var interrupted := tracker.RecordStarted(execution.value.start.InvocationStarted?, s.saveStart);
      if interrupted {
        return execution, Some(s.saveStart.interruption);
      }
    }
    if s.contractProblem.Some? {
      return execution, s.contractProblem;
    }
    if s.writeEvidence.Some? {
      return execution, s.writeEvidence;
    }
    tracker.Update(None, None, Some(EvidenceOf(execution.value)), s.saveExecution);
  }

  /** The invocation, the captures after it, and the audit of both. */
  method AuditInvocation(tracker: AttemptTracker, b: WritableBaseline, s: Script)
    returns (audit: WritableAudit, raised: bool)
    requires tracker.Model() == CapturedBefore(s)
    modifies tracker
    ensures audit == AuditAfterInvocation(b, s) && raised == Invoke(s).error.Some?
  {
    var execution, error := RunInvocation(tracker, s);
    var i := Invocation(tracker.Model(), execution, error);
    tracker.RecordAfter(s.after, s.saveAfter);
    var guard := BuildGuard(tracker, EnvironmentBefore(s), EnvironmentAfter(s), s.guardRun);
    var violations := Merge(PostChanges(s.after, b), EvidenceViolations(tracker.Model())) + InspectionFailure(s);
    violations := violations
      + (if !SucceededExecution(i) && ChangedFilesOf(s) != [] && !Unchanged(s.before, s.after) then ["worktree"]
         else []);
    audit := WritableAudit(execution, s.before, s.after, guard, violations, ChangedFilesOf(s), StartOf(i),
      FailureMessageOf(i));
    raised := error.Some?;
  }

  /** GuardedWritableOperation.execute. */
  method Execute(b: WritableBaseline, s: Script) returns (outcome: GuardedOutcome)
    requires s.Valid()
    ensures outcome == Guarded(b, s)
  {
    var tracker := CaptureBefore(s);
    var starting := StartingChanges(s.before, b);
    starting := Merge(starting, InspectionViolations(s.before, EnvironmentBefore(s)));
    starting := Merge(starting, EvidenceViolations(tracker.Model()));
    if starting != [] {
      var audit := RunAuditWithoutInvocation(tracker, b, s, starting, UnsafeStart.Text());
      return SafetyStopped(audit);
    }
    if s.capabilityProblem.Some? {
      var audit := RunAuditWithoutInvocation(tracker, b, s, [], s.capabilityProblem.value);
      return if audit.Unsafe() then SafetyStopped(audit) else RejectedBeforeStart(audit);
    }
    var audit, raised := AuditInvocation(tracker, b, s);
    outcome := ClassifyInvocation(audit, raised);
  }

  // ----- what the classification guarantees -----

  /** After the captures: a workspace still on the authorized commit, branch and path with nothing staged. */
  predicate Authorized(b: WritableBaseline, s: Snapshot) {
    && s.inspectionComplete && s.repositoryPath == b.repositoryPath && s.branch == b.branch
    && s.headSha == Some(b.headSha) && s.stagedPaths == []
  }

  /** The starting workspace is the one the stage authorized. */
  predicate AuthorizedStart(b: WritableBaseline, s: Snapshot) {
    && Authorized(b, s)
    && (b.requireCleanWorktree ==> s.untrackedPaths == [] && (s.trackedDiff.Some? ==> s.trackedDiff == Some(SHA256.OfNothing())))
    && (b.expectedWorkspace.Some? ==> b.expectedWorkspace == Some(FingerprintOf(s)))
  }

  lemma StartingIsExact(b: WritableBaseline, s: Script)
    ensures StartingViolations(b, s) == [] <==>
      && s.before.Some? && AuthorizedStart(b, s.before.value) && s.environmentBefore.errors == []
      && s.associated.Ok? && s.saveBefore.Saved?
  {
    if s.before.Some? {
      SafetyIsExact(s.before.value, b.repositoryPath, b.branch, b.headSha, true, b.requireCleanWorktree);
    }
  }

  lemma PostIsExact(b: WritableBaseline, s: Option<Snapshot>)
    ensures PostChanges(s, b) == [] <==> s.Some? && Authorized(b, s.value)
  {
    if s.Some? {
      SafetyIsExact(s.value, b.repositoryPath, b.branch, b.headSha, true, false);
    }
  }

  /** The guard finds nothing exactly when its inputs are clean and both of its steps worked. */
  lemma GuardIsExact(e: Evidence, before: EnvironmentSnapshot, after: EnvironmentSnapshot, run: GuardRun)
    requires e.record.None? ==> e.errors != []
    ensures var r := GuardEvidence(e, before, after, run);
      && (!r.0.RequiresHuman() <==>
            && before.errors == [] && after.errors == [] && after.environments <= before.environments
            && e.errors == [] && run.comparisonError.None? && run.writeError.None?)
      && (!r.0.RequiresHuman() ==> r.0.persisted && r.1 == e)
  {
    if after.environments - before.environments == {} {
      forall x | x in after.environments ensures x in before.environments {
        assert x !in after.environments - before.environments;
      }
    }
  }

  lemma RejectionIsConstructible(b: WritableBaseline, s: Script, starting: seq<string>, failure: string)
    requires starting == [] ==> Complete(s.before)
    ensures Rejection(AuditWithoutInvocation(b, s, starting, failure)).ConstructorAccepts()
  {
    hide GuardEvidence, SafetyChanges, Distinct;
    var recorded := AfterRecordAfter(CapturedBefore(s), s.after, s.saveAfter);
    GuardIsExact(recorded, EnvironmentBefore(s), EnvironmentAfter(s), s.guardRun);
    PostIsExact(b, s.after);
  }

  /** What an audit must satisfy for its classification to pass every constructor. */
  predicate Auditable(a: WritableAudit, raised: bool) {
    && (raised || a.execution.Some?)
    && (!raised && a.execution.value.Successful() ==> a.start.InvocationStarted? && a.execution.value.result.Some?)
    && (raised || !a.execution.value.Successful() ==> a.failureMessage.Some? && a.failureMessage.value != [])
    && (!a.Unsafe() ==> a.CompleteCaptures() && a.guard.persisted)
  }

  lemma AuditableIsConstructible(a: WritableAudit, raised: bool)
    requires Auditable(a, raised)
    ensures ClassifyInvocation(a, raised).ConstructorAccepts()
  {
  }

  lemma InvocationFacts(s: Script)
    requires s.Valid()
    ensures var i := Invoke(s);
      && (i.error.None? ==> i.execution.Some?)
      && (i.error.None? && i.execution.value.Successful() ==>
            StartOf(i).InvocationStarted? && i.execution.value.result.Some?)
      && (i.error.Some? || !i.execution.value.Successful() ==>
            FailureMessageOf(i).Some? && FailureMessageOf(i).value != [])
      && (i.evidence.record.None? <==> s.associated.Err?)
  {
    hide FingerprintOf, EvidenceOf, Wording.Text, ResultOfTask;
  }

  lemma InvocationIsConstructible(b: WritableBaseline, s: Script)
    requires s.Valid() && Complete(s.before) && s.associated.Ok?
    ensures ClassifyInvocation(AuditAfterInvocation(b, s), Invoke(s).error.Some?).ConstructorAccepts()
  {
    var i := Invoke(s);
    InvocationFacts(s);
    PostIsExact(b, s.after);
    var recorded := AfterRecordAfter(i.evidence, s.after, s.saveAfter);
    assert recorded.record.Some?;
    GuardIsExact(recorded, EnvironmentBefore(s), EnvironmentAfter(s), s.guardRun);
    AuditableIsConstructible(AuditAfterInvocation(b, s), i.error.Some?);
  }

  /** The classifier is total: no combination of errors, captures and answers trips a constructor check. */
  lemma OutcomesAreConstructible(b: WritableBaseline, s: Script)
    requires s.Valid()
    ensures Guarded(b, s).ConstructorAccepts()
  {
    var starting := StartingViolations(b, s);
    if starting == [] {
      StartingIsExact(b, s);
      if s.capabilityProblem.Some? {
        RejectionIsConstructible(b, s, [], s.capabilityProblem.value);
      } else {
        InvocationIsConstructible(b, s);
      }
    }
  }

  /** The same for a rejection that the stage asks for, whatever reasons it brings. */
  lemma StageRejectionsAreConstructible(b: WritableBaseline, s: Script, stageViolations: seq<string>, failure: string)
    ensures RejectBeforeStart(b, s, stageViolations, failure).ConstructorAccepts()
  {
    var merged := Merge(stageViolations, StartingChanges(s.before, b));
    RejectionIsConstructible(b, s, Merge(merged, InspectionViolations(s.before, EnvironmentBefore(s))), failure);
  }

  // ----- when a call succeeds -----

  /** Every piece of evidence around the call was captured, compared and written. */
  predicate EvidenceIntact(s: Script) {
    && s.associated.Ok? && s.saveBefore.Saved? && s.saveStart.Saved? && s.saveExecution.Saved? && s.saveAfter.Saved?
    && s.environmentBefore.errors == [] && s.environmentAfter.errors == []
    && s.guardRun == GuardRun(None, None) && s.changedFiles.Ok? && s.writeEvidence.None?
  }

  /** The executor was allowed to run and answered with a success inside the requested contract. */
  predicate SoundAnswer(s: Script) {
    && s.capabilityProblem.None? && s.executor.Ok? && s.executor.value.Successful() && s.contractProblem.None?
  }

  /** The workspace was the authorized one before, is still safe after, and gained no environment. */
  predicate SafeWorkspaces(b: WritableBaseline, s: Script) {
    && s.before.Some? && AuthorizedStart(b, s.before.value)
    && s.after.Some? && Authorized(b, s.after.value)
    && s.environmentAfter.environments <= s.environmentBefore.environments
  }

  /** After a success the tracker's evidence is clean exactly when all three of its later updates were saved. */
  lemma SuccessEvidence(s: Script)
    requires s.Valid() && s.associated.Ok? && s.saveBefore.Saved? && SoundAnswer(s) && s.writeEvidence.None?
    ensures var e := AfterRecordAfter(Invoke(s).evidence, s.after, s.saveAfter);
      && e.record.Some?
      && (Invoke(s).error.None? && e.errors == [] <==>
            s.saveStart.Saved? && s.saveExecution.Saved? && s.saveAfter.Saved?)
  {
  }

  lemma SuccessNeedsAnswer(b: WritableBaseline, s: Script)
    requires s.Valid() && StartingViolations(b, s) == []
    ensures Guarded(b, s).Succeeded? ==> SoundAnswer(s) && s.writeEvidence.None? && Invoke(s).error.None?
  {
  }

  /**
   A call succeeds exactly when the whole evidence is intact, the answer is sound and the workspace was
   safe on both sides; anything less is some other outcome.
   */
  lemma SuccessIsExact(b: WritableBaseline, s: Script)
    requires s.Valid()
    ensures Guarded(b, s).Succeeded? <==> EvidenceIntact(s) && SoundAnswer(s) && SafeWorkspaces(b, s)
  {
    hide Blank, Space, AgentExecution.Valid, GuardEvidence, AfterRecordAfter, SafetyChanges, Distinct;
    StartingIsExact(b, s);
    PostIsExact(b, s.after);
    if StartingViolations(b, s) == [] {
      SuccessNeedsAnswer(b, s);
      if SoundAnswer(s) && s.writeEvidence.None? {
        SuccessEvidence(s);
        GuardIsExact(AfterRecordAfter(Invoke(s).evidence, s.after, s.saveAfter), EnvironmentBefore(s),
          EnvironmentAfter(s), s.guardRun);
      }
    }
  }

  // ----- fail-closed -----

  /** Outcomes the stages report as a retryable tool failure rather than as an uncertain repository. */
  predicate ReportedHarmless(o: GuardedOutcome) {
    o.RejectedBeforeStart? || o.FailedUnchanged?
  }

  lemma HarmlessAfterInvocation(a: WritableAudit, raised: bool)
    requires !raised && a.execution.Some? && a.execution.value.Successful() ==> a.execution.value.result.Some?
    requires ReportedHarmless(ClassifyInvocation(a, raised))
    ensures Unchanged(a.before, a.after) && !a.Unsafe() && ClassifyInvocation(a, raised).audit == a
  {
  }

  lemma SafeAuditMeansSafeAfter(b: WritableBaseline, s: Script, starting: seq<string>, failure: string)
    requires s.Valid()
    ensures AuditWithoutInvocation(b, s, starting, failure).violations == [] ==> PostChanges(s.after, b) == []
    ensures AuditAfterInvocation(b, s).violations == [] ==> PostChanges(s.after, b) == []
  {
  }

  /** Harmless outcomes always have two complete, safe captures; once the executor ran, two equal ones. */
  lemma HarmlessMeansSafe(b: WritableBaseline, s: Script)
    requires s.Valid() && ReportedHarmless(Guarded(b, s))
    ensures s.before.Some? && AuthorizedStart(b, s.before.value) && s.after.Some? && Authorized(b, s.after.value)
    ensures s.capabilityProblem.None? ==> Matches(s.before.value, s.after.value)
    ensures Guarded(b, s).audit.after == s.after
  {
    StartingIsExact(b, s);
    PostIsExact(b, s.after);
    if s.capabilityProblem.Some? {
      SafeAuditMeansSafeAfter(b, s, [], s.capabilityProblem.value);
    } else {
      SafeAuditMeansSafeAfter(b, s, [], "");
      HarmlessAfterInvocation(AuditAfterInvocation(b, s), Invoke(s).error.Some?);
    }
  }

  /** A complete set of evidence around a call that the capability check refuses. */
  function RefusedScript(first: Snapshot, second: Snapshot, attempt: Attempt, problem: string): Script {
    var clean := EnvironmentSnapshot({}, []);
    Script(Ok(attempt), clean, Some(first), Saved, Some(problem), false, Saved, Err("unused"), None, None, Saved,
      Some(second), clean, Saved, GuardRun(None, None), Ok([]))
  }

  lemma RefusedScriptIsHarmless(b: WritableBaseline, first: Snapshot, second: Snapshot, attempt: Attempt, problem: string)
    requires AuthorizedStart(b, first) && Authorized(b, second)
    ensures RefusedScript(first, second, attempt, problem).Valid()
    ensures ReportedHarmless(Guarded(b, RefusedScript(first, second, attempt, problem)))
  {
    var s := RefusedScript(first, second, attempt, problem);
    StartingIsExact(b, s);
    PostIsExact(b, s.after);
    GuardIsExact(AfterRecordAfter(CapturedBefore(s), s.after, s.saveAfter), EnvironmentBefore(s), EnvironmentAfter(s),
      s.guardRun);
  }

  /**
   A workspace that changed between the captures, from an authorized start to another safe state, is kept
   out of the harmless outcomes exactly by calls whose executor has the required capabilities: the
   capability refusal is the one branch that never compares the two captures.
   */
  lemma ChangeIsNoticedIffCapable(b: WritableBaseline, first: Snapshot, second: Snapshot, problem: Option<string>)
    requires AuthorizedStart(b, first) && Authorized(b, second) && !Matches(first, second)
    ensures problem.None? <==>
      forall s: Script :: (s.Valid() && s.before == Some(first) && s.after == Some(second) && s.capabilityProblem == problem)
        ==> !ReportedHarmless(Guarded(b, s))
  {
    if problem.None? {
      forall s: Script | s.Valid() && s.before == Some(first) && s.after == Some(second) && s.capabilityProblem == problem
        ensures !ReportedHarmless(Guarded(b, s))
      {
        if ReportedHarmless(Guarded(b, s)) {
          HarmlessMeansSafe(b, s);
        }
      }
    } else {
      var attempt := Attempt(1, ImplementingPhase, Started, None, None, false, None, None);
      RefusedScriptIsHarmless(b, first, second, attempt, problem.value);
      var s := RefusedScript(first, second, attempt, problem.value);
      assert s.capabilityProblem == problem;
    }
  }

  lemma UninvokedEvidence(s: Script)
    ensures var e := AfterRecordAfter(CapturedBefore(s), s.after, s.saveAfter);
      && (e.record.None? ==> e.errors != [])
      && (e.errors == [] <==> s.associated.Ok? && s.saveBefore.Saved? && s.saveAfter.Saved?)
  {
  }

  lemma UninvokedIsExact(b: WritableBaseline, s: Script, starting: seq<string>, failure: string)
    ensures !AuditWithoutInvocation(b, s, starting, failure).Unsafe() <==>
      && starting == [] && PostChanges(s.after, b) == [] && s.changedFiles.Ok?
      && s.associated.Ok? && s.saveBefore.Saved? && s.saveAfter.Saved?
      && EnvironmentBefore(s).errors == [] && EnvironmentAfter(s).errors == []
      && s.environmentAfter.environments <= s.environmentBefore.environments && s.guardRun == GuardRun(None, None)
  {
    var e := AfterRecordAfter(CapturedBefore(s), s.after, s.saveAfter);
    UninvokedEvidence(s);
    GuardIsExact(e, EnvironmentBefore(s), EnvironmentAfter(s), s.guardRun);
    var guarded := GuardEvidence(e, EnvironmentBefore(s), EnvironmentAfter(s), s.guardRun);
    assert guarded.0.RequiresHuman() || guarded.1 == e;
  }

  /** A stage-owned rejection is harmless exactly when nothing at all is wrong beside the stage's own reason. */
  lemma StageRejectionIsExact(b: WritableBaseline, s: Script, stageViolations: seq<string>, failure: string)
    ensures RejectBeforeStart(b, s, stageViolations, failure).RejectedBeforeStart? <==>
      && stageViolations == []
      && s.before.Some? && AuthorizedStart(b, s.before.value) && s.after.Some? && Authorized(b, s.after.value)
      && s.associated.Ok? && s.saveBefore.Saved? && s.saveAfter.Saved?
      && s.environmentBefore.errors == [] && s.environmentAfter.errors == []
      && s.environmentAfter.environments <= s.environmentBefore.environments
      && s.guardRun == GuardRun(None, None) && s.changedFiles.Ok?
  {
    if s.before.Some? {
      SafetyIsExact(s.before.value, b.repositoryPath, b.branch, b.headSha, true, b.requireCleanWorktree);
    }
    PostIsExact(b, s.after);
    var merged := Merge(stageViolations, StartingChanges(s.before, b));
    UninvokedIsExact(b, s, Merge(merged, InspectionViolations(s.before, EnvironmentBefore(s))), failure);
  }
}
