/** The fail-closed resume policy: which persisted runs may continue, and in which workspace. */
module Resume {
  import opened Wrappers
  import opened Models
  import opened Snapshots
  import opened Attempts
  import opened Handoff
  import opened Stages

  datatype ResumeProblem =
    | IncompatibleProvider
    | ArtifactsDamaged
    | InspectionFailed
    | NotOnBranch
    | NotOnHead
    | StagedFiles
    | BaselineMoved
    | BaselineUnverified
    | InterruptedWrite
    | WriteNotRepeatable
    | NoWrittenFingerprint
    | WorkspaceMoved
    | NotResumable

  /**
   What a resume meets: provider compatibility, whether executors can then be configured, the run's
   files, and two captures of the workspace.
   */
  datatype ResumeInput = ResumeInput(
    compatible: bool,
    configured: bool,
    artifactsIntact: bool,
    ticketIntact: bool,
    preflight: Capture,
    policy: Capture)

  /** resume_preflight_problem. */
  function PreflightProblem(cfg: RunConfig, record: RunRecord, ledger: seq<Attempt>, i: ResumeInput)
    : Option<ResumeProblem>
  {
    if !i.artifactsIntact || !i.ticketIntact then Some(ArtifactsDamaged)
    else if i.preflight.None? || !i.preflight.value.inspectionComplete then Some(InspectionFailed)
    else
      var s := i.preflight.value;
      if s.branch != Some(cfg.branch) then Some(NotOnBranch)
      else if s.headSha != Some(cfg.headSha) then Some(NotOnHead)
      else if s.stagedPaths != [] then Some(StagedFiles)
      else if record.state in {PREPARING, PREPARED} && !MatchesFingerprint(s, FingerprintOf(cfg.baseline)) then
        Some(BaselineMoved)
      else if !record.state.PREPARING? && !BaselineEvidence(cfg, ledger, i.ticketIntact) then Some(BaselineUnverified)
      else None
  }

  /** _workspace_fingerprint_problem. */
  function FingerprintProblem(c: Capture, expected: Fingerprint): Option<ResumeProblem> {
    if c.None? || !c.value.inspectionComplete then Some(InspectionFailed)
    else if !MatchesFingerprint(c.value, expected) then Some(WorkspaceMoved)
    else None
  }

  /** resume_problem. */
  function PolicyProblem(cfg: RunConfig, record: RunRecord, ledger: seq<Attempt>, c: Capture): Option<ResumeProblem> {
    var phase := PhaseForActiveState(record.state);
    if Latest(ledger, WRITABLE, {Started}).Some? then Some(InterruptedWrite)
    else if phase.Some? && !AutomaticallyRetried(phase.value) then Some(WriteNotRepeatable)
    else if record.state in {PREPARING, PREPARED} then FingerprintProblem(c, FingerprintOf(cfg.baseline))
    else if (phase.Some? && AutomaticallyRetried(phase.value)) || record.state.CORRECTION_PENDING? then
      var written := LatestWritable(ledger);
      if written.None? || written.value.after.None? then Some(NoWrittenFingerprint)
      else FingerprintProblem(c, written.value.after.value)
    else Some(NotResumable)
  }

  function Problem(cfg: RunConfig, record: RunRecord, ledger: seq<Attempt>, i: ResumeInput): Option<ResumeProblem> {
    if !i.compatible then Some(IncompatibleProvider)
    else
      var preflight := PreflightProblem(cfg, record, ledger, i);
      if preflight.Some? then preflight else PolicyProblem(cfg, record, ledger, i.policy)
  }

  /** The fingerprint the workspace must still have for the run to continue. */
  function ExpectedWorkspace(cfg: RunConfig, record: RunRecord, ledger: seq<Attempt>): Option<Fingerprint> {
    if record.state in {PREPARING, PREPARED} then Some(FingerprintOf(cfg.baseline))
    else
      var written := LatestWritable(ledger);
      if written.None? then None else written.value.after
  }

  predicate OnBaseline(cfg: RunConfig, s: Snapshot) {
    && s.inspectionComplete && s.branch == Some(cfg.branch) && s.headSha == Some(cfg.headSha) && s.stagedPaths == []
  }

  /**
   A run continues exactly when its files and provider are intact, it is in a state that may be repeated,
   no write was interrupted, its baseline was verified if preparation is over, and both captures show the
   workspace that the last completed write (or the clean baseline) left.
   */
  lemma ResumableIff(cfg: RunConfig, record: RunRecord, ledger: seq<Attempt>, i: ResumeInput)
    requires Ordered(ledger)
    ensures Problem(cfg, record, ledger, i).None? <==>
      && i.compatible && i.artifactsIntact && i.ticketIntact
      && record.state in {PREPARING, PREPARED, VERIFYING, REVIEWING, CORRECTION_PENDING, REPORTING}
      && (forall a :: a in ledger && Writes(a.phase) ==> !a.status.Started?)
      && (record.state != PREPARING ==> BaselineEvidence(cfg, ledger, true))
      && i.preflight.Some? && OnBaseline(cfg, i.preflight.value)
      && (record.state in {PREPARING, PREPARED} ==> FingerprintOf(i.preflight.value) == FingerprintOf(cfg.baseline))
      && ExpectedWorkspace(cfg, record, ledger).Some?
      && i.policy.Some? && MatchesFingerprint(i.policy.value, ExpectedWorkspace(cfg, record, ledger).value)
  {
    LatestFound(ledger, WRITABLE, {Started});
    match record.state { case _ => }
  }
}
