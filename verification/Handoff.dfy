/**
 Final handoff acceptance: reading the evidence of a reporting run, the
 ordered policy over that evidence, and the patch capture that follows it.
 */
module Handoff {
  import opened Wrappers
  import opened Models
  import opened Snapshots
  import opened TaskResults
  import opened Verification
  import opened Attempts

  /** What one run fixes when it is created: repository identity, limits, commands, clean baseline. */
  datatype RunConfig = RunConfig(
    repositoryPath: string,
    branch: string,
    headSha: string,
    maxRounds: nat,
    commands: seq<Command>,
    baseline: Snapshot)

  /** WorkspaceSnapshot.capture: None when the capture raises. */
  type Capture = Option<Snapshot>

  function CapturedFingerprint(c: Capture): Option<Fingerprint> {
    if c.None? then None else Some(FingerprintOf(c.value))
  }

  // ----- evidence -----

  datatype VerificationEvidence = VerificationEvidence(sequence: nat, before: Fingerprint, after: Fingerprint)

  datatype ReviewEvidence = ReviewEvidence(
    sequence: nat, before: Option<Fingerprint>, after: Option<Fingerprint>, verdict: ReviewVerdict)

  datatype PolicyRequest = PolicyRequest(
    repositoryPath: string,
    branch: string,
    headSha: string,
    correctionRound: nat,
    maxRounds: nat,
    reviewRound: nat,
    workspace: Option<Snapshot>,
    attempts: seq<Attempt>,
    verification: Option<VerificationEvidence>,
    review: Option<ReviewEvidence>,
    attemptProblem: bool,
    verificationProblem: bool,
    reviewProblem: bool)

  predicate IsAgentPhase(p: AttemptPhase) {
    p in {ImplementingPhase, ReviewingPhase, CorrectingPhase}
  }

  /** The result file of an agent attempt decodes as the type of its task. */
  predicate TypedResult(a: Attempt) {
    match a.phase
    case ReviewingPhase => a.result.Some? && a.result.value.ReviewArtifact?
    case _ => a.result.Some? && a.result.value.ImplementationArtifact?
  }

  /** A started success whose recorded result is the one in the attempt's own result file. */
  predicate AgentEvidenceSound(a: Attempt) {
    && a.execution.Some? && a.execution.value.success && a.execution.value.started && a.processStarted
    && TypedResult(a) && a.execution.value.typedResult == a.result
  }

  /** _agent_execution_evidence_problem finds nothing. */
  predicate AgentEvidenceIntact(ledger: seq<Attempt>) {
    forall a :: a in ledger && IsAgentPhase(a.phase) && a.status.Completed? ==> AgentEvidenceSound(a)
  }

  /** The verification artifact that a verifying attempt left behind, if it left one. */
  function RoundOf(a: Attempt): Option<Round> {
    if a.result.Some? && a.result.value.RoundArtifact? then Some(a.result.value.round) else None
  }

  function ReviewOf(a: Attempt): Option<ReviewResult> {
    if a.result.Some? && a.result.value.ReviewArtifact? then Some(a.result.value.review) else None
  }

  /** read_verification_source_fingerprint without the authoritative checks. */
  function VerificationSource(ledger: seq<Attempt>, statuses: set<VerificationStatus>, commands: seq<Command>)
    : Option<Fingerprint>
  {
    var record := Latest(ledger, {VerifyingPhase}, {Completed});
    if record.None? then None
    else
      var round := RoundOf(record.value);
      if round.None? || !ValidResult(round.value, statuses, commands, false) then None
      else record.value.after
  }

  /** The same with every authoritative check of the final handoff. */
  function AuthoritativeSource(ledger: seq<Attempt>, cfg: RunConfig, sequence: nat, roundIndex: nat)
    : Option<Fingerprint>
  {
    var record := Latest(ledger, {VerifyingPhase}, {Completed});
    if record.None? || record.value.sequence != sequence then None
    else
      var round := RoundOf(record.value);
      if round.None? || !AuthoritativePass(round.value, cfg.commands, cfg.repositoryPath, roundIndex) then None
      else record.value.after
  }

  function ReadVerification(ledger: seq<Attempt>, cfg: RunConfig, roundIndex: nat): Option<VerificationEvidence> {
    var attempt := Latest(ledger, {VerifyingPhase}, ANY_STATUS);
    if attempt.None? || !attempt.value.status.Completed? then None
    else
      var source := AuthoritativeSource(ledger, cfg, attempt.value.sequence, roundIndex);
      if source.None? || attempt.value.before.None? then None
      else Some(VerificationEvidence(attempt.value.sequence, attempt.value.before.value, source.value))
  }

  function ReadReview(ledger: seq<Attempt>): Option<ReviewEvidence> {
    var attempt := Latest(ledger, {ReviewingPhase}, ANY_STATUS);
    if attempt.None? || !attempt.value.status.Completed? then None
    else
      var result := ReviewOf(attempt.value);
      if result.None? then None
      else Some(ReviewEvidence(attempt.value.sequence, attempt.value.before, attempt.value.after, result.value.verdict))
  }

  /** _read_policy_request. */
  function ReadPolicyRequest(cfg: RunConfig, record: RunRecord, ledger: seq<Attempt>, workspace: Snapshot)
    : PolicyRequest
  {
    var intact := AgentEvidenceIntact(ledger);
    var verification := if intact then ReadVerification(ledger, cfg, record.correctionRound) else None;
    var review := if intact then ReadReview(ledger) else None;
    PolicyRequest(cfg.repositoryPath, cfg.branch, cfg.headSha, record.correctionRound, cfg.maxRounds,
      record.reviewRound, Some(workspace), ledger, verification, review,
      !intact, intact && verification.None?, intact && review.None?)
  }

  // ----- the policy -----

  datatype Rejection =
    | AttemptEvidenceInvalid
    | RepositoryUnsafe
    | PathChanged
    | WrongBranch
    | WrongHead
    | StagedChanges
    | CorrectionRoundsContradictory
    | ReportingMissing
    | ReportingNotCurrent
    | NoWritableFingerprint
    | WritableIncomplete
    | WritableMismatch
    | ReadOnlyTerminal
    | VerificationNotPassing
    | VerificationIncomplete
    | VerificationStale
    | VerificationContradictory
    | ReviewMissing
    | ReviewIncomplete
    | ReviewStale
    | ReviewContradictory
    | ReviewNotPassing
    | ReviewOfOtherSource
    | ReviewRoundsContradictory
    | CompletionStale

  predicate MaximumSequence(attempts: seq<Attempt>, sequence: nat) {
    forall a :: a in attempts ==> a.sequence <= sequence
  }

  predicate WorkspaceAcceptable(q: PolicyRequest) {
    && q.workspace.Some? && q.workspace.value.inspectionComplete
    && q.workspace.value.repositoryPath == q.repositoryPath
    && q.workspace.value.branch == Some(q.branch)
    && q.workspace.value.headSha == Some(q.headSha)
    && q.workspace.value.stagedPaths == []
  }

  /** The checks on the workspace and the round limit. */
  function WorkspaceRejection(q: PolicyRequest): (r: Option<Rejection>)
    ensures r.None? <==> !q.attemptProblem && WorkspaceAcceptable(q) && q.correctionRound <= q.maxRounds
  {
    if q.attemptProblem then Some(AttemptEvidenceInvalid)
    else if q.workspace.None? || !q.workspace.value.inspectionComplete then Some(RepositoryUnsafe)
    else if q.workspace.value.repositoryPath != q.repositoryPath then Some(PathChanged)
    else if q.workspace.value.branch != Some(q.branch) then Some(WrongBranch)
    else if q.workspace.value.headSha != Some(q.headSha) then Some(WrongHead)
    else if q.workspace.value.stagedPaths != [] then Some(StagedChanges)
    else if q.correctionRound > q.maxRounds then Some(CorrectionRoundsContradictory)
    else None
  }

  /** The checks on the reporting attempt, the writable attempts and terminal outcomes. */
  function LedgerRejection(q: PolicyRequest, workspace: Snapshot): Option<Rejection> {
    var reporting := Latest(q.attempts, {ReportingPhase}, ANY_STATUS);
    var writable := Latest(q.attempts, WRITABLE, ANY_STATUS);
    if reporting.None? || !reporting.value.status.Started? then Some(ReportingMissing)
    else if !MaximumSequence(q.attempts, reporting.value.sequence) then Some(ReportingNotCurrent)
    else if writable.None? then Some(NoWritableFingerprint)
    else if exists a :: a in q.attempts && Writes(a.phase) && !a.status.Completed? then Some(WritableIncomplete)
    else if writable.value.after.None? then Some(NoWritableFingerprint)
    else if !MatchesFingerprint(workspace, writable.value.after.value) then Some(WritableMismatch)
    else if exists a :: a in q.attempts && !Writes(a.phase) && a.status in {AttemptStatus.Failed, NeedsHuman} then
      Some(ReadOnlyTerminal)
    else if Count(q.attempts, CorrectingPhase) != q.correctionRound then Some(CorrectionRoundsContradictory)
    else None
  }

  function VerificationRejection(q: PolicyRequest, workspace: Snapshot, writable: Attempt): Option<Rejection> {
    if q.verificationProblem || q.verification.None? then Some(VerificationNotPassing)
    else
      var v := q.verification.value;
      var attempt := Latest(q.attempts, {VerifyingPhase}, ANY_STATUS);
      if attempt.None? then Some(VerificationNotPassing)
      else if !attempt.value.status.Completed? then Some(VerificationIncomplete)
      else if attempt.value.sequence != v.sequence then Some(VerificationStale)
      else if attempt.value.before != Some(v.before) || attempt.value.after != Some(v.after) then
        Some(VerificationContradictory)
      else if v.sequence <= writable.sequence then Some(VerificationStale)
      else if !MatchesFingerprint(workspace, v.before) || !MatchesFingerprint(workspace, v.after) then
        Some(VerificationStale)
      else None
  }

  function ReviewRejection(q: PolicyRequest, v: VerificationEvidence, reporting: Attempt): Option<Rejection> {
    if q.reviewProblem || q.review.None? then Some(ReviewMissing)
    else
      var r := q.review.value;
      var attempt := Latest(q.attempts, {ReviewingPhase}, ANY_STATUS);
      var current := Latest(q.attempts,
        {PreparingPhase, ImplementingPhase, VerifyingPhase, ReviewingPhase, CorrectingPhase}, ANY_STATUS);
      if attempt.None? then Some(ReviewMissing)
      else if !attempt.value.status.Completed? then Some(ReviewIncomplete)
      else if attempt.value.sequence != r.sequence then Some(ReviewStale)
      else if attempt.value.before != r.before || attempt.value.after != r.after then Some(ReviewContradictory)
      else if !r.verdict.PASS? then Some(ReviewNotPassing)
      else if r.sequence <= v.sequence then Some(ReviewStale)
      else if r.sequence >= reporting.sequence then Some(ReviewContradictory)
      else if r.before != Some(v.after) || r.after != Some(v.after) then Some(ReviewOfOtherSource)
      else if q.reviewRound < 1 || CountCompleted(q.attempts, ReviewingPhase) < q.reviewRound then
        Some(ReviewRoundsContradictory)
      else if current.None? || current.value.sequence != r.sequence then Some(CompletionStale)
      else None
  }

  /** evaluate_handoff_policy: the first failing check, in the source's order. */
  function EvaluateHandoffPolicy(q: PolicyRequest): Option<Rejection> {
    var workspaceProblem := WorkspaceRejection(q);
    if workspaceProblem.Some? then workspaceProblem
    else
      var workspace := q.workspace.value;
      var ledgerProblem := LedgerRejection(q, workspace);
      if ledgerProblem.Some? then ledgerProblem
      else
        var writable := Latest(q.attempts, WRITABLE, ANY_STATUS).value;
        var verificationProblem := VerificationRejection(q, workspace, writable);
        if verificationProblem.Some? then verificationProblem
        else ReviewRejection(q, q.verification.value, Latest(q.attempts, {ReportingPhase}, ANY_STATUS).value)
  }

  // ----- acceptance -----

  datatype HandoffResult =
    | HandoffAccepted(initial: Snapshot, final: Snapshot, verification: VerificationEvidence, review: ReviewEvidence)
    | HandoffRejected(initialSeen: Option<Snapshot>, finalSeen: Option<Snapshot>)
  {
    /** The checks in the outcome's own constructor. */
    predicate ConstructorAccepts() {
      HandoffAccepted? ==> initial.inspectionComplete && Matches(initial, final) && review.verdict.PASS?
    }
  }

  /** The captures of one acceptance; the patch may fail to be captured or validated. */
  datatype HandoffInput = HandoffInput(initial: Capture, patchCaptured: bool, final: Capture)

  /** HandoffAcceptanceService.accept for the controller-owned reporting attempt. */
  function Accept(cfg: RunConfig, record: RunRecord, ledger: seq<Attempt>, reporting: Attempt, i: HandoffInput)
    : HandoffResult
  {
    if i.initial.None? then HandoffRejected(None, None)
    else
      var initial := i.initial.value;
      if reporting.before != Some(FingerprintOf(initial)) then HandoffRejected(Some(initial), Some(initial))
      else
        var q := ReadPolicyRequest(cfg, record, ledger, initial);
        if EvaluateHandoffPolicy(q).Some? then HandoffRejected(Some(initial), Some(initial))
        else if !i.patchCaptured || i.final.None? then HandoffRejected(Some(initial), None)
        else if !Matches(initial, i.final.value) then HandoffRejected(Some(initial), i.final)
        else HandoffAccepted(initial, i.final.value, q.verification.value, q.review.value)
  }

  // ----- what acceptance means -----

  /**
   The evidence behind a handoff of the workspace with fingerprint f: the last write, then the last
   verification, an authoritative pass, then the last review, a passing one, then the reporting attempt, with
   nothing but reporting after the review, all about f.
   */
  ghost predicate EvidenceChain(cfg: RunConfig, record: RunRecord, ledger: seq<Attempt>, f: Fingerprint,
      w: Attempt, v: Attempt, r: Attempt, p: Attempt)
  {
    && w in ledger && v in ledger && r in ledger && p in ledger
    && Writes(w.phase) && v.phase.VerifyingPhase? && r.phase.ReviewingPhase? && p.phase.ReportingPhase?
    && w.sequence < v.sequence < r.sequence < p.sequence
    && w.status.Completed? && v.status.Completed? && r.status.Completed?
    && w.after == v.before == v.after == r.before == r.after == Some(f)
    && RoundOf(v).Some?
    && AuthoritativePass(RoundOf(v).value, cfg.commands, cfg.repositoryPath, record.correctionRound)
    && ReviewOf(r).Some? && ReviewOf(r).value.verdict.PASS?
    && NothingNewer(ledger, w, v, r, p)
    && SettledLedger(cfg, record, ledger)
  }

  /** No write follows w, no verification v, nothing but reporting r, and p is the newest attempt. */
  ghost predicate NothingNewer(ledger: seq<Attempt>, w: Attempt, v: Attempt, r: Attempt, p: Attempt) {
    forall a :: a in ledger ==>
      && (Writes(a.phase) ==> a.sequence <= w.sequence)
      && (a.phase.VerifyingPhase? ==> a.sequence <= v.sequence)
      && (!a.phase.ReportingPhase? ==> a.sequence <= r.sequence)
      && a.sequence <= p.sequence
  }

  /** Every write completed, nothing ended badly, agent evidence is sound and the counters are honest. */
  ghost predicate SettledLedger(cfg: RunConfig, record: RunRecord, ledger: seq<Attempt>) {
    && (forall a :: a in ledger && Writes(a.phase) ==> a.status.Completed?)
    && !Tainted(ledger)
    && AgentEvidenceIntact(ledger)
    && Count(ledger, CorrectingPhase) == record.correctionRound <= cfg.maxRounds
    && 1 <= record.reviewRound <= CountCompleted(ledger, ReviewingPhase)
  }

  /** The workspace that may be handed over. */
  ghost predicate HandoverWorkspace(cfg: RunConfig, s: Snapshot) {
    && s.inspectionComplete && s.repositoryPath == cfg.repositoryPath
    && s.branch == Some(cfg.branch) && s.headSha == Some(cfg.headSha) && s.stagedPaths == []
  }

  lemma SettledMeansUntainted(ledger: seq<Attempt>)
    requires forall a :: a in ledger && Writes(a.phase) ==> a.status.Completed?
    requires forall a :: a in ledger && !Writes(a.phase) ==> a.status !in {AttemptStatus.Failed, NeedsHuman}
    ensures !Tainted(ledger)
  {
    forall i | 0 <= i < |ledger| ensures ledger[i].status !in {NeedsHuman, AttemptStatus.Failed} {
      assert ledger[i] in ledger;
    }
  }

  lemma LedgerAccepted(q: PolicyRequest, workspace: Snapshot)
    requires LedgerRejection(q, workspace).None? && Ordered(q.attempts)
    ensures var w, p := Latest(q.attempts, WRITABLE, ANY_STATUS), Latest(q.attempts, {ReportingPhase}, ANY_STATUS);
      && w.Some? && p.Some?
      && w.value in q.attempts && p.value in q.attempts && Writes(w.value.phase) && p.value.phase.ReportingPhase?
      && w.value.status.Completed? && w.value.after == Some(FingerprintOf(workspace))
      && MaximumSequence(q.attempts, p.value.sequence)
      && (forall a :: a in q.attempts && Writes(a.phase) ==> a.status.Completed? && a.sequence <= w.value.sequence)
      && !Tainted(q.attempts) && Count(q.attempts, CorrectingPhase) == q.correctionRound
  {
    LatestOfAny(q.attempts, WRITABLE);
    LatestOfAny(q.attempts, {ReportingPhase});
    SettledMeansUntainted(q.attempts);
  }

  lemma ReviewAccepted(q: PolicyRequest, v: VerificationEvidence, reporting: Attempt)
    requires ReviewRejection(q, v, reporting).None? && Ordered(q.attempts)
    ensures var r := Latest(q.attempts, {ReviewingPhase}, ANY_STATUS);
      && r.Some? && r.value in q.attempts && r.value.phase.ReviewingPhase? && r.value.status.Completed?
      && v.sequence < r.value.sequence < reporting.sequence
      && r.value.before == r.value.after == Some(v.after)
      && (forall a :: a in q.attempts && !a.phase.ReportingPhase? ==> a.sequence <= r.value.sequence)
      && 1 <= q.reviewRound <= CountCompleted(q.attempts, ReviewingPhase)
      && q.review.Some? && q.review.value.sequence == r.value.sequence && q.review.value.verdict.PASS?
  {
    var others := {PreparingPhase, ImplementingPhase, VerifyingPhase, ReviewingPhase, CorrectingPhase};
    LatestOfAny(q.attempts, {ReviewingPhase});
    LatestOfAny(q.attempts, others);
    forall a | a in q.attempts && !a.phase.ReportingPhase? ensures a.phase in others {
      match a.phase { case _ => }
    }
  }

  lemma VerificationRead(ledger: seq<Attempt>, cfg: RunConfig, roundIndex: nat)
    requires ReadVerification(ledger, cfg, roundIndex).Some? && Ordered(ledger)
    ensures var v, e := Latest(ledger, {VerifyingPhase}, ANY_STATUS), ReadVerification(ledger, cfg, roundIndex).value;
      && v.Some? && v.value in ledger && v.value.phase.VerifyingPhase? && v.value.status.Completed?
      && e == VerificationEvidence(v.value.sequence, e.before, e.after)
      && v.value.before == Some(e.before) && v.value.after == Some(e.after)
      && RoundOf(v.value).Some?
      && AuthoritativePass(RoundOf(v.value).value, cfg.commands, cfg.repositoryPath, roundIndex)
  {
    LatestOfAny(ledger, {VerifyingPhase});
    var v := Latest(ledger, {VerifyingPhase}, ANY_STATUS).value;
    LatestIsUnique(ledger, {VerifyingPhase}, {Completed}, v);
  }

  /** An accepted policy request proves the whole evidence chain for the captured workspace. */
  lemma PolicyIsSound(cfg: RunConfig, record: RunRecord, ledger: seq<Attempt>, workspace: Snapshot)
    returns (w: Attempt, v: Attempt, r: Attempt, p: Attempt)
    requires Ordered(ledger)
    requires EvaluateHandoffPolicy(ReadPolicyRequest(cfg, record, ledger, workspace)).None?
    ensures HandoverWorkspace(cfg, workspace)
    ensures Latest(ledger, {ReportingPhase}, ANY_STATUS) == Some(p) && p.status.Started?
    ensures EvidenceChain(cfg, record, ledger, FingerprintOf(workspace), w, v, r, p)
  {
    var q := ReadPolicyRequest(cfg, record, ledger, workspace);
    LedgerAccepted(q, workspace);
    w := Latest(ledger, WRITABLE, ANY_STATUS).value;
    p := Latest(ledger, {ReportingPhase}, ANY_STATUS).value;
    VerificationRead(ledger, cfg, record.correctionRound);
    v := Latest(ledger, {VerifyingPhase}, ANY_STATUS).value;
    LatestOfAny(ledger, {VerifyingPhase});
    ReviewAccepted(q, q.verification.value, p);
    r := Latest(ledger, {ReviewingPhase}, ANY_STATUS).value;
    assert q.review == ReadReview(ledger);
  }

  // ----- no spurious rejection -----

  lemma ChainQueries(cfg: RunConfig, record: RunRecord, ledger: seq<Attempt>, f: Fingerprint,
      w: Attempt, v: Attempt, r: Attempt, p: Attempt)
    requires Ordered(ledger) && EvidenceChain(cfg, record, ledger, f, w, v, r, p)
    ensures Latest(ledger, WRITABLE, ANY_STATUS) == Some(w)
    ensures Latest(ledger, {ReportingPhase}, ANY_STATUS) == Some(p)
    ensures Latest(ledger, {VerifyingPhase}, ANY_STATUS) == Some(v) == Latest(ledger, {VerifyingPhase}, {Completed})
    ensures Latest(ledger, {ReviewingPhase}, ANY_STATUS) == Some(r)
    ensures Latest(ledger, {PreparingPhase, ImplementingPhase, VerifyingPhase, ReviewingPhase, CorrectingPhase},
      ANY_STATUS) == Some(r)
  {
    EveryStatus(p.status);
    LatestIsUnique(ledger, WRITABLE, ANY_STATUS, w);
    LatestIsUnique(ledger, {ReportingPhase}, ANY_STATUS, p);
    LatestIsUnique(ledger, {VerifyingPhase}, ANY_STATUS, v);
    LatestIsUnique(ledger, {VerifyingPhase}, {Completed}, v);
    LatestIsUnique(ledger, {ReviewingPhase}, ANY_STATUS, r);
    LatestIsUnique(ledger, {PreparingPhase, ImplementingPhase, VerifyingPhase, ReviewingPhase, CorrectingPhase},
      ANY_STATUS, r);
  }

  lemma SettledLedgerPasses(q: PolicyRequest, workspace: Snapshot, w: Attempt, p: Attempt)
    requires Latest(q.attempts, WRITABLE, ANY_STATUS) == Some(w)
    requires Latest(q.attempts, {ReportingPhase}, ANY_STATUS) == Some(p) && p.status.Started?
    requires MaximumSequence(q.attempts, p.sequence)
    requires w.after == Some(FingerprintOf(workspace)) && workspace.inspectionComplete
    requires forall a :: a in q.attempts && Writes(a.phase) ==> a.status.Completed?
    requires !Tainted(q.attempts) && Count(q.attempts, CorrectingPhase) == q.correctionRound
    ensures LedgerRejection(q, workspace).None?
  {
    forall a | a in q.attempts ensures a.status !in {AttemptStatus.Failed, NeedsHuman} {
      var i :| 0 <= i < |q.attempts| && q.attempts[i] == a;
    }
  }

  /** The policy rejects nothing but a broken chain: a complete chain with a started report passes every check. */
  lemma PolicyIsComplete(cfg: RunConfig, record: RunRecord, ledger: seq<Attempt>, workspace: Snapshot,
      w: Attempt, v: Attempt, r: Attempt, p: Attempt)
    requires Ordered(ledger) && HandoverWorkspace(cfg, workspace)
    requires EvidenceChain(cfg, record, ledger, FingerprintOf(workspace), w, v, r, p) && p.status.Started?
    ensures EvaluateHandoffPolicy(ReadPolicyRequest(cfg, record, ledger, workspace)).None?
  {
    var q := ReadPolicyRequest(cfg, record, ledger, workspace);
    ChainQueries(cfg, record, ledger, FingerprintOf(workspace), w, v, r, p);
    SettledLedgerPasses(q, workspace, w, p);
  }

  /** Every check passes exactly when the workspace may be handed over and a complete chain stands behind it. */
  lemma PolicyIsExact(cfg: RunConfig, record: RunRecord, ledger: seq<Attempt>, workspace: Snapshot)
    requires Ordered(ledger)
    ensures EvaluateHandoffPolicy(ReadPolicyRequest(cfg, record, ledger, workspace)).None? <==>
      HandoverWorkspace(cfg, workspace) && exists w, v, r, p :: CurrentChain(cfg, record, ledger, workspace, w, v, r, p)
  {
    if EvaluateHandoffPolicy(ReadPolicyRequest(cfg, record, ledger, workspace)).None? {
      var w, v, r, p := PolicyIsSound(cfg, record, ledger, workspace);
      assert CurrentChain(cfg, record, ledger, workspace, w, v, r, p);
    }
    if HandoverWorkspace(cfg, workspace) && exists w, v, r, p :: CurrentChain(cfg, record, ledger, workspace, w, v, r, p) {
      var w, v, r, p :| CurrentChain(cfg, record, ledger, workspace, w, v, r, p);
      PolicyIsComplete(cfg, record, ledger, workspace, w, v, r, p);
    }
  }

  /** A chain for this workspace whose report is still running. */
  ghost predicate CurrentChain(cfg: RunConfig, record: RunRecord, ledger: seq<Attempt>, workspace: Snapshot,
      w: Attempt, v: Attempt, r: Attempt, p: Attempt)
  {
    && EvidenceChain(cfg, record, ledger, FingerprintOf(workspace), w, v, r, p) && p.status.Started?
  }

  /** The service never trips its own outcome's constructor. */
  lemma AcceptIsConstructible(cfg: RunConfig, record: RunRecord, ledger: seq<Attempt>, reporting: Attempt, i: HandoffInput)
    requires Ordered(ledger)
    ensures Accept(cfg, record, ledger, reporting, i).ConstructorAccepts()
  {
    var h := Accept(cfg, record, ledger, reporting, i);
    if h.HandoffAccepted? {
      var q := ReadPolicyRequest(cfg, record, ledger, h.initial);
      ReviewAccepted(q, q.verification.value, Latest(ledger, {ReportingPhase}, ANY_STATUS).value);
    }
  }
}
