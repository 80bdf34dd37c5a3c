/** When exactly each stage ends how, in terms of what it met, and what its stop is called. */
module StageOutcomes {
  import opened Wrappers
  import opened Models
  import opened Snapshots
  import opened TaskResults
  import opened Verification
  import opened Attempts
  import opened AgentExecutions
  import opened Corrections
  import opened Handoff
  import opened Stages

  // ----- verification -----

  predicate AllExited(outcomes: seq<ProcessOutcome>) {
    forall i :: 0 <= i < |outcomes| ==> outcomes[i].Exited?
  }

  /** What a round checks before any command runs: the safe workspace its attempt started from, clean for a baseline. */
  ghost predicate RoundMayStart(cfg: RunConfig, attempt: Attempt, i: RoundInput, baseline: bool) {
    && i.before.Some? && attempt.before == Some(FingerprintOf(i.before.value)) && HandoverWorkspace(cfg, i.before.value)
    && (baseline ==>
          && FingerprintOf(i.before.value) == FingerprintOf(cfg.baseline) && i.ticketPresent
          && i.before.value.untrackedPaths == []
          && (i.before.value.trackedDiff.Some? ==> i.before.value.trackedDiff == Some(SHA256.OfNothing())))
  }

  /** The round ran there and left it as it was. */
  ghost predicate UndisturbedRound(cfg: RunConfig, attempt: Attempt, i: RoundInput, baseline: bool) {
    && RoundMayStart(cfg, attempt, i, baseline)
    && i.afterRound.Some? && Matches(i.before.value, i.afterRound.value)
  }

  lemma StartIsExact(cfg: RunConfig, attempt: Attempt, i: RoundInput, baseline: bool)
    ensures StartingRoundChanges(cfg, attempt, i, baseline) == [] <==> RoundMayStart(cfg, attempt, i, baseline)
  {
    hide SafetyChanges, FingerprintOf;
    if i.before.Some? {
      SafetyIsExact(i.before.value, cfg.repositoryPath, Some(cfg.branch), cfg.headSha, true, baseline);
      var r := ChangeNames(SafetyChanges(i.before.value, cfg.repositoryPath, Some(cfg.branch), cfg.headSha, true, baseline));
      assert |r| == 0 <==> r == [];
    }
  }

  lemma CommandsAreExact(cfg: RunConfig, outcomes: seq<ProcessOutcome>, times: seq<Timing>)
    requires |outcomes| == |times| == |cfg.commands|
    ensures var r := RunCommands(cfg.commands, cfg.repositoryPath, outcomes, times);
      && (AnyWithStatus(r, Error) <==> !AllExited(outcomes))
      && (AllExited(outcomes) ==> (AnyWithStatus(r, Fail) <==> !AllExitedZero(outcomes)))
  {
    var r := RunCommands(cfg.commands, cfg.repositoryPath, outcomes, times);
    forall i | 0 <= i < |r|
      ensures r[i].status.Error? <==> !outcomes[i].Exited?
      ensures r[i].status.Fail? <==> outcomes[i].Exited? && outcomes[i].code != 0
    {
      assert r[i] == RunCommand(cfg.commands[i], cfg.repositoryPath, outcomes[i], times[i]);
    }
    if !AllExited(outcomes) {
      var i :| 0 <= i < |outcomes| && !outcomes[i].Exited?;
      assert r[i].status.Error?;
    } else if !AllExitedZero(outcomes) {
      var i :| 0 <= i < |outcomes| && !(outcomes[i].Exited? && outcomes[i].code == 0);
      assert r[i].status.Fail?;
    }
  }

  /**
   A round completes exactly when it was undisturbed and every command exited with zero. It asks for a correction
   exactly when it was undisturbed, is not the baseline, and every command exited but not all with zero. Everything
   else stops for a human: as a baseline failure, as a safety violation, or as a failed infrastructure.
   */
  lemma RoundIsExact(cfg: RunConfig, roundIndex: nat, attempt: Attempt, i: RoundInput, baseline: bool)
    requires |i.outcomes| == |i.times| == |cfg.commands|
    ensures var r := RoundResult(cfg, roundIndex, attempt, i, baseline);
      && (r.outcome.StageCompleted? <==> UndisturbedRound(cfg, attempt, i, baseline) && AllExitedZero(i.outcomes))
      && (r.outcome.CorrectionRequired? <==>
            && UndisturbedRound(cfg, attempt, i, baseline) && !baseline
            && AllExited(i.outcomes) && !AllExitedZero(i.outcomes))
      && !r.outcome.StageFailed?
      && r.category == (
           if !r.outcome.StageHumanRequired? then None
           else if baseline then Some(BASELINE_FAILURE)
           else if !UndisturbedRound(cfg, attempt, i, baseline) then Some(SAFETY_VIOLATION)
           else Some(VERIFICATION_INFRASTRUCTURE))
      && r.after == (if i.final.None? then None else Some(FingerprintOf(i.final.value)))
  {
    hide SafetyChanges, FingerprintOf, StartingRoundChanges, HandoverWorkspace, Excerpt, Compare;
    StartIsExact(cfg, attempt, i, baseline);
    CommandsAreExact(cfg, i.outcomes, i.times);
    if StartingRoundChanges(cfg, attempt, i, baseline) == [] {
      DisturbanceIsExact(i.before.value, i.afterRound);
    }
  }

  lemma DisturbanceIsExact(before: Snapshot, after: Capture)
    ensures RoundChanges(before, after) == [] <==> after.Some? && Matches(before, after.value)
  {
    hide Compare, ChangeName;
    if after.Some? {
      assert |ChangeNames(Compare(before, after.value))| == |Compare(before, after.value)|;
      assert |Compare(before, after.value)| == 0 <==> Compare(before, after.value) == [];
    }
  }

  // ----- review -----

  /** The last completed verification is a valid passing round about this workspace. */
  ghost predicate VerifiedHere(cfg: RunConfig, ledger: seq<Attempt>, s: Snapshot) {
    var v := Latest(ledger, {VerifyingPhase}, {Completed});
    && v.Some? && RoundOf(v.value).Some? && ValidResult(RoundOf(v.value).value, {Pass}, cfg.commands, false)
    && RoundOf(v.value).value.duration >= 0 && v.value.after == Some(FingerprintOf(s))
  }

  /** The review agent may be asked: about the safe, verified workspace its attempt started from. */
  ghost predicate ReviewReady(cfg: RunConfig, ledger: seq<Attempt>, attempt: Attempt, i: ReviewInput) {
    && i.before.Some? && attempt.before == Some(FingerprintOf(i.before.value)) && HandoverWorkspace(cfg, i.before.value)
    && VerifiedHere(cfg, ledger, i.before.value) && i.evidenceReadable
  }

  lemma ReviewStartIsExact(cfg: RunConfig, ledger: seq<Attempt>, attempt: Attempt, i: ReviewInput)
    ensures ReviewMayStart(cfg, ledger, attempt, i) <==> ReviewReady(cfg, ledger, attempt, i)
  {
    hide SafetyChanges, FingerprintOf;
    if i.before.Some? {
      SafetyIsExact(i.before.value, cfg.repositoryPath, Some(cfg.branch), cfg.headSha, true, false);
    }
  }

  lemma {:induction false} EligibleIsExact(findings: seq<ReviewFinding>)
    ensures |EligibleFindings(RequiredFindings(findings))| == |RequiredFindings(findings)| <==>
      forall f :: f in findings && f.disposition == REQUIRED ==> f.scope in {TICKET, IMPLEMENTATION}
  {
    RequiredMembers(findings);
  }

  /** The review ran about that workspace and left it as it was. */
  ghost predicate UndisturbedReview(cfg: RunConfig, ledger: seq<Attempt>, attempt: Attempt, i: ReviewInput) {
    ReviewReady(cfg, ledger, attempt, i) && i.after.Some? && Matches(i.before.value, i.after.value)
  }

  /** Every finding that requires a change is about the ticket or the implementation. */
  predicate Correctable(r: ReviewResult) {
    forall f :: f in r.findings && f.disposition == REQUIRED ==> f.scope in {TICKET, IMPLEMENTATION}
  }

  /**
   A review raises exactly when the workspace cannot be inspected afterwards. Undisturbed, it completes on a passing
   verdict, asks for a correction when every required finding is correctable, fails retryably on a tool failure that
   leaves nothing unclear, and leaves the rest to human judgment. Disturbed, it is a safety violation.
   */
  lemma ReviewIsExact(cfg: RunConfig, record: RunRecord, ledger: seq<Attempt>, attempt: Attempt, i: ReviewInput)
    requires i.execution.Valid() && i.execution.task.ReviewTask?
    ensures ReviewStage(cfg, record, ledger, attempt, i).Raised? <==> ReviewReady(cfg, ledger, attempt, i) && i.after.None?
    ensures ReviewStage(cfg, record, ledger, attempt, i).Returned? ==>
      var r := ReviewStage(cfg, record, ledger, attempt, i).result;
      && (r.outcome.StageCompleted? <==>
            && UndisturbedReview(cfg, ledger, attempt, i) && i.execution.Successful()
            && i.execution.result.value.review.verdict.PASS?)
      && (r.outcome.CorrectionRequired? <==>
            && UndisturbedReview(cfg, ledger, attempt, i) && i.execution.Successful()
            && i.execution.result.value.review.verdict.CORRECTIONS_REQUIRED?
            && Correctable(i.execution.result.value.review))
      && (r.outcome.StageFailed? <==>
            && UndisturbedReview(cfg, ledger, attempt, i) && !i.execution.Successful()
            && i.execution.failure.value.category !in {INVALID_RESULT, INVOCATION_CLEANUP_UNCERTAIN})
      && r.category == (
           if !r.outcome.StageHumanRequired? then None
           else if UndisturbedReview(cfg, ledger, attempt, i) then Some(HUMAN_JUDGMENT_REQUIRED)
           else Some(SAFETY_VIOLATION))
  {
    hide ReviewMayStart, FingerprintOf, VerifiedHere, HandoverWorkspace, Canonical, AgentExecution.Valid, EvidenceOf;
    ReviewStartIsExact(cfg, ledger, attempt, i);
    if ReviewReady(cfg, ledger, attempt, i) && i.after.Some? {
      DisturbanceIsExact(i.before.value, i.after);
      AnswerIsReview(i.execution);
      if i.execution.Successful() {
        EligibleIsExact(i.execution.result.value.review.findings);
      }
    }
  }

  lemma AnswerIsReview(x: AgentExecution)
    requires x.Valid() && x.task.ReviewTask?
    ensures x.Successful() <==> x.failure.None?
    ensures x.Successful() ==> x.result.Some? && x.result.value.ReviewArtifact?
  {
  }

  // ----- reporting -----

  /**
   A report completes exactly when a whole evidence chain stands behind the workspace its attempt started from, the
   patch was captured and the workspace stayed as it was; anything less is a safety violation.
   */
  lemma ReportIsExact(cfg: RunConfig, record: RunRecord, ledger: seq<Attempt>, attempt: Attempt, i: HandoffInput)
    requires Ordered(ledger)
    ensures var r := ReportingStage(cfg, record, ledger, attempt, i);
      && (r.outcome.StageCompleted? <==>
            && i.initial.Some? && attempt.before == Some(FingerprintOf(i.initial.value))
            && HandoverWorkspace(cfg, i.initial.value)
            && (exists w, v, q, p :: CurrentChain(cfg, record, ledger, i.initial.value, w, v, q, p))
            && i.patchCaptured && i.final.Some? && Matches(i.initial.value, i.final.value))
      && (!r.outcome.StageCompleted? ==> r.outcome.StageHumanRequired?)
      && r.category == (if r.outcome.StageCompleted? then None else Some(SAFETY_VIOLATION))
  {
    hide EvaluateHandoffPolicy, CurrentChain, HandoverWorkspace, FingerprintOf;
    if i.initial.Some? {
      PolicyIsExact(cfg, record, ledger, i.initial.value);
    }
  }

  // ----- preparation -----

  /** A preparation that fails before its round is a baseline failure, and no process was started. */
  lemma PreparationIsExact(cfg: RunConfig, record: RunRecord, ledger: seq<Attempt>, attempt: Attempt)
    requires record.state.PREPARING?
    ensures var run := RunStage(cfg, record, ledger, attempt, PreparationFails);
      && run.Returned? && run.result.outcome.StageHumanRequired? && run.result.category == Some(BASELINE_FAILURE)
      && !run.result.processStarted && run.result.after.None? && run.result.artifact.None?
  {
  }

  // ----- recorded failures -----

  /** What is kept of a stream: all of it, or its first 4000 characters and a note. */
  predicate ExcerptOf(kept: string, stream: string) {
    if |stream| <= 4000 then kept == stream
    else |kept| > 4000 && kept[..4000] == stream[..4000] && kept[4000..] == "\n... <truncated>"
  }

  /** The failure that names the command with this index, field by field. */
  ghost predicate NamesFailure(f: VerificationFailure, cfg: RunConfig, outcomes: seq<ProcessOutcome>, k: nat)
    requires |outcomes| == |cfg.commands|
  {
    && k < |outcomes| && outcomes[k].Exited? && outcomes[k].code != 0
    && f.gateName == cfg.commands[k].name && f.command == cfg.commands[k].argv && f.exitCode == Some(outcomes[k].code)
    && ExcerptOf(f.stdoutExcerpt, outcomes[k].stdout) && ExcerptOf(f.stderrExcerpt, outcomes[k].stderr)
  }

  function FailedAt(results: seq<CommandResult>, base: nat): (r: seq<nat>)
    ensures |r| == |Failures(results)|
  {
    if results == [] then []
    else (if results[0].status.Fail? then [base] else []) + FailedAt(results[1..], base + 1)
  }

  lemma {:induction false} FailedAtMembers(results: seq<CommandResult>, base: nat, k: nat)
    ensures k in FailedAt(results, base) <==> base <= k < base + |results| && results[k - base].status.Fail?
  {
    if results != [] {
      FailedAtMembers(results[1..], base + 1, k);
      if base < k < base + |results| {
        assert results[1..][k - base - 1] == results[k - base];
      }
    }
  }

  lemma {:induction false} FailedAtIncreases(results: seq<CommandResult>, base: nat)
    ensures Increasing(FailedAt(results, base)) && forall k :: k in FailedAt(results, base) ==> base <= k
  {
    if results != [] {
      FailedAtIncreases(results[1..], base + 1);
      var rest := FailedAt(results[1..], base + 1);
      forall j | 0 <= j < |rest| ensures base < rest[j] {
        assert rest[j] in rest;
      }
    }
  }

  lemma FailuresStep(results: seq<CommandResult>, base: nat)
    requires results != []
    ensures var rest, failures := FailedAt(results[1..], base + 1), Failures(results[1..]);
      if results[0].status.Fail? then
        FailedAt(results, base) == [base] + rest && Failures(results) == [FailureOf(results[0])] + failures
      else FailedAt(results, base) == rest && Failures(results) == failures
  {
  }

  lemma {:induction false} FailedAtFinds(results: seq<CommandResult>, base: nat, i: nat)
    requires i < |FailedAt(results, base)|
    ensures base <= FailedAt(results, base)[i] < base + |results|
    ensures Failures(results)[i] == FailureOf(results[FailedAt(results, base)[i] - base])
    decreases |results|
  {
    if results != [] {
      hide FailedAt, Failures, FailureOf;
      FailuresStep(results, base);
      var rest, first := results[1..], results[0].status.Fail?;
      if !first || i > 0 {
        var j := if first then i - 1 else i;
        FailedAtFinds(rest, base + 1, j);
        var k := FailedAt(rest, base + 1)[j];
        assert FailedAt(results, base)[i] == k;
        assert Failures(results)[i] == Failures(rest)[j];
        assert rest[k - base - 1] == results[k - base];
      }
    }
  }

  /** The failures of a round name every command that exited with something else than zero, in order, and no other. */
  ghost predicate NameFailures(failures: seq<VerificationFailure>, cfg: RunConfig, outcomes: seq<ProcessOutcome>)
    requires |outcomes| == |cfg.commands|
  {
    exists indices: seq<nat> :: FailingIndices(outcomes, indices) && |failures| == |indices|
      && forall i :: 0 <= i < |failures| ==> NamesFailure(failures[i], cfg, outcomes, indices[i])
  }

  ghost predicate FailingIndices(outcomes: seq<ProcessOutcome>, indices: seq<nat>) {
    && Increasing(indices)
    && forall k :: k in indices <==> 0 <= k < |outcomes| && outcomes[k].Exited? && outcomes[k].code != 0
  }

  lemma FailureIsNamed(cfg: RunConfig, outcomes: seq<ProcessOutcome>, times: seq<Timing>, k: nat)
    requires |outcomes| == |times| == |cfg.commands| && k < |outcomes|
    ensures var results := RunCommands(cfg.commands, cfg.repositoryPath, outcomes, times);
      && (results[k].status.Fail? <==> outcomes[k].Exited? && outcomes[k].code != 0)
      && (results[k].status.Fail? ==> NamesFailure(FailureOf(results[k]), cfg, outcomes, k))
  {
    var result := RunCommand(cfg.commands[k], cfg.repositoryPath, outcomes[k], times[k]);
    ExcerptIsExact(result.stdout);
    ExcerptIsExact(result.stderr);
    hide ExcerptOf, Excerpt;
    assert RunCommands(cfg.commands, cfg.repositoryPath, outcomes, times)[k] == result;
  }

  lemma ExcerptIsExact(stream: string)
    ensures ExcerptOf(Excerpt(stream), stream)
  {
  }

  lemma FailuresInOrder(cfg: RunConfig, outcomes: seq<ProcessOutcome>, times: seq<Timing>)
    requires |outcomes| == |times| == |cfg.commands|
    ensures FailingIndices(outcomes, FailedAt(RunCommands(cfg.commands, cfg.repositoryPath, outcomes, times), 0))
  {
    hide Failures, FailedAt, NamesFailure, FailureOf, RunCommand;
    var results := RunCommands(cfg.commands, cfg.repositoryPath, outcomes, times);
    FailedAtIncreases(results, 0);
    forall k: nat
      ensures k in FailedAt(results, 0) <==> 0 <= k < |outcomes| && outcomes[k].Exited? && outcomes[k].code != 0
    {
      FailedAtMembers(results, 0, k);
      if k < |outcomes| {
        FailureIsNamed(cfg, outcomes, times, k);
      }
    }
  }

  /** A round records one failure for each command that exited with something else than zero, field by field. */
  lemma FailuresAreExact(cfg: RunConfig, outcomes: seq<ProcessOutcome>, times: seq<Timing>)
    requires |outcomes| == |times| == |cfg.commands|
    ensures NameFailures(Failures(RunCommands(cfg.commands, cfg.repositoryPath, outcomes, times)), cfg, outcomes)
  {
    hide Failures, FailedAt, NamesFailure, FailureOf, RunCommand, RunCommands, FailingIndices;
    var results := RunCommands(cfg.commands, cfg.repositoryPath, outcomes, times);
    var indices, failures := FailedAt(results, 0), Failures(results);
    FailuresInOrder(cfg, outcomes, times);
    forall i | 0 <= i < |failures| ensures NamesFailure(failures[i], cfg, outcomes, indices[i]) {
      FailedAtFinds(results, 0, i);
      FailedAtMembers(results, 0, indices[i]);
      assert indices[i] in indices;
      FailureIsNamed(cfg, outcomes, times, indices[i]);
    }
  }
}
