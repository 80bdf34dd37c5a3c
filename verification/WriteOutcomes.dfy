/** When exactly a writable stage ends how, in terms of what its guarded call met, and what its stop is called. */
module WriteOutcomes {
  import opened Wrappers
  import opened Models
  import opened Snapshots
  import opened Verification
  import opened Attempts
  import opened AgentExecutions
  import opened GuardedOperation
  import opened GuardedOutcomes
  import opened Corrections
  import opened Handoff
  import opened Stages
  import opened StageProperties

  // ----- what a call left -----

  /** Nothing unsafe was left or went unrecorded; listing the environments afterwards may still have failed. */
  predicate SafeEnd(b: WritableBaseline, s: Script) {
    && s.after.Some? && Authorized(b, s.after.value)
    && s.environmentAfter.environments <= s.environmentBefore.environments
    && s.guardRun == GuardRun(None, None) && s.changedFiles.Ok? && s.saveAfter.Saved?
  }

  /** The start is recorded as it was reported. */
  predicate RecordedStart(s: Script) {
    && (s.observedStart ==>
          s.saveStart.Saved? && (s.executor.Ok? ==> !s.executor.value.start.NotStarted?))
    && (s.executor.Ok? && s.executor.value.start.InvocationStarted? ==> s.saveStart.Saved?)
  }

  /** The agent answered with a result, and nothing raised. */
  predicate AnsweredWell(s: Script) {
    Answered(s) && s.executor.value.failure.None?
  }

  /** Nothing alarming: a safe end, a true record, and no changed file from a call that did not answer well. */
  predicate Calm(b: WritableBaseline, s: Script) {
    && SafeEnd(b, s) && RecordedStart(s) && (Answered(s) ==> s.saveExecution.Saved?)
    && (!AnsweredWell(s) && s.changedFiles.value != [] ==> Unchanged(s.before, s.after))
  }

  /** A failed or refused call that left everything as it was. */
  predicate LeftNothing(b: WritableBaseline, s: Script) {
    || (CleanStart(b, s) && s.capabilityProblem.Some? && CleanEnd(b, s))
    || (Traceless(b, s)
        && (|| s.executor.value.start.NotStarted?
            || s.executor.value.failure.value.category
                 !in {MISSING_RESULT, INVALID_RESULT, AGENT_TIMEOUT, INVOCATION_CLEANUP_UNCERTAIN}))
  }

  /** What a human is told about a call: a failed agent leaves doubt, an alarm is a violation, the rest is a question. */
  function StopOf(b: WritableBaseline, s: Script): StopCategory {
    if !CleanStart(b, s) then SAFETY_VIOLATION
    else if s.capabilityProblem.Some? then (if SafeEnd(b, s) then REPOSITORY_UNCERTAIN else SAFETY_VIOLATION)
    else if s.executor.Ok? && s.executor.value.failure.Some? then REPOSITORY_UNCERTAIN
    else if !Calm(b, s) then SAFETY_VIOLATION
    else if AnsweredWell(s) then HUMAN_JUDGMENT_REQUIRED
    else REPOSITORY_UNCERTAIN
  }

  // ----- alarms -----

  predicate Alarming(a: WritableAudit) {
    a.violations != [] || a.guard.newEnvironments != {}
  }

  /** The two findings of the guard that a stage looks at. */
  lemma GuardAlarms(e: Evidence, before: EnvironmentSnapshot, after: EnvironmentSnapshot, run: GuardRun)
    requires e.record.Some?
    ensures var r := GuardEvidence(e, before, after, run);
      r.1.errors == [] && r.0.newEnvironments == {} <==>
        e.errors == [] && run == GuardRun(None, None) && after.environments <= before.environments
  {
    if after.environments - before.environments == {} {
      forall x | x in after.environments ensures x in before.environments {
        assert x !in after.environments - before.environments;
      }
    }
  }

  lemma UninvokedAlarms(b: WritableBaseline, s: Script, starting: seq<string>, failure: string)
    ensures var a := AuditWithoutInvocation(b, s, starting, failure);
      && a.execution.None? && a.after == s.after && a.start.NotStarted?
      && (!Alarming(a) <==> starting == [] && s.associated.Ok? && s.saveBefore.Saved? && SafeEnd(b, s))
  {
    hide GuardEvidence, AfterRecordAfter, FingerprintOf, SafetyChanges, Distinct;
    var recorded := AfterRecordAfter(CapturedBefore(s), s.after, s.saveAfter);
    PostIsExact(b, s.after);
    UninvokedEvidence(s);
    EnvironmentsAreExact(b, s);
    if s.associated.Ok? {
      UninvokedRecord(s);
      GuardAlarms(recorded, EnvironmentBefore(s), EnvironmentAfter(s), s.guardRun);
    } else {
      UnrecordedGuard(recorded, EnvironmentBefore(s), EnvironmentAfter(s), s.guardRun);
    }
  }

  lemma UninvokedRecord(s: Script)
    ensures AfterRecordAfter(CapturedBefore(s), s.after, s.saveAfter).record.Some? <==> s.associated.Ok?
  {
    hide FingerprintOf;
  }

  lemma UnrecordedGuard(e: Evidence, before: EnvironmentSnapshot, after: EnvironmentSnapshot, run: GuardRun)
    ensures e.errors != [] ==> GuardEvidence(e, before, after, run).1.errors != []
  {
  }

  lemma InvokedRecord(s: Script)
    requires s.Valid() && s.associated.Ok? && s.saveBefore.Saved?
    ensures var e := AfterRecordAfter(Invoke(s).evidence, s.after, s.saveAfter);
      && e.record.Some?
      && (e.errors == [] <==> RecordedStart(s) && (Answered(s) ==> s.saveExecution.Saved?) && s.saveAfter.Saved?)
  {
    hide FingerprintOf, EvidenceOf, Wording.Text, AgentExecution.Valid;
  }

  lemma InvokedAlarms(b: WritableBaseline, s: Script)
    requires s.Valid() && CleanStart(b, s)
    ensures var a := AuditAfterInvocation(b, s);
      && a.after == s.after && (!Alarming(a) <==> Calm(b, s))
      && a.execution == (if s.executor.Ok? then Some(s.executor.value) else None)
  {
    hide Invoke, GuardEvidence, AfterRecordAfter, FingerprintOf, SafetyChanges, Distinct, AgentExecution.Valid, EnvironmentAfter, EnvironmentBefore;
    var recorded := AfterRecordAfter(Invoke(s).evidence, s.after, s.saveAfter);
    PostIsExact(b, s.after);
    InvokedRecord(s);
    InvokedAnswer(s);
    EnvironmentsAreExact(b, s);
    GuardAlarms(recorded, EnvironmentBefore(s), EnvironmentAfter(s), s.guardRun);
  }

  lemma InvokedAnswer(s: Script)
    requires s.Valid() && s.associated.Ok?
    ensures SucceededExecution(Invoke(s)) <==> AnsweredWell(s)
    ensures Invoke(s).execution == if s.executor.Ok? then Some(s.executor.value) else None
  {
    hide FingerprintOf, EvidenceOf, Wording.Text, AgentExecution.Valid;
  }

  // ----- the readings of a call -----

  lemma RejectionIsRead(b: WritableBaseline, s: Script, stageViolations: seq<string>, failure: string, round: Option<nat>)
    ensures var r := RejectedWrite(RejectBeforeStart(b, s, stageViolations, failure), round);
      && r.outcome.StageHumanRequired? && !r.processStarted && r.after == CapturedFingerprint(s.after)
      && r.category == Some(
           if stageViolations == [] && CleanStart(b, s) && SafeEnd(b, s) then REPOSITORY_UNCERTAIN else SAFETY_VIOLATION)
  {
    hide AuditWithoutInvocation, FingerprintOf, Distinct;
    var merged := Merge(stageViolations, StartingChanges(s.before, b));
    var starting := Merge(merged, InspectionViolations(s.before, EnvironmentBefore(s)));
    UninvokedAlarms(b, s, starting, failure);
    StageStart(b, s, stageViolations);
  }

  /** The reasons a stage rejection starts from: its own, or a bad start. */
  lemma StageStart(b: WritableBaseline, s: Script, stageViolations: seq<string>)
    ensures var merged := Merge(stageViolations, StartingChanges(s.before, b));
      Merge(merged, InspectionViolations(s.before, EnvironmentBefore(s))) == [] && s.associated.Ok? && s.saveBefore.Saved?
      <==> stageViolations == [] && CleanStart(b, s)
  {
    StartingIsExact(b, s);
  }

  lemma FailureIsRead(b: WritableBaseline, s: Script, round: Option<nat>)
    requires s.Valid() && !Guarded(b, s).Succeeded?
    ensures var r := FailedWrite(Guarded(b, s), s, round);
      && r.outcome == (if LeftNothing(b, s) then StageFailed else StageHumanRequired)
      && r.category == (if LeftNothing(b, s) then None else Some(StopOf(b, s)))
      && r.after == CapturedFingerprint(s.after) && r.correctionRound == round
  {
    hide Guarded, CleanStart, CleanEnd, SafeEnd, Calm, FingerprintOf, Matches, AgentExecution.Valid;
    OutcomeCases(b, s);
    CategoryIsRead(b, s);
  }

  lemma CleanStartIsExact(b: WritableBaseline, s: Script)
    ensures StartingViolations(b, s) == [] <==> CleanStart(b, s)
  {
    StartingIsExact(b, s);
  }

  lemma CategoryIsRead(b: WritableBaseline, s: Script)
    requires s.Valid()
    ensures var o := Guarded(b, s);
      && o.audit.after == s.after
      && (o.audit.execution.Some? && o.audit.execution.value.Successful() ==> o.audit.execution.value.result.Some?)
      && (!o.Succeeded? ==>
            var answered := o.SafetyStopped? && o.audit.execution.Some? && o.audit.execution.value.Successful();
            ReportedHarmless(o) || WriteCategory(o.audit, o.audit.violations != [], answered) == StopOf(b, s))
  {
    hide AuditWithoutInvocation, AuditAfterInvocation, Invoke, SafeEnd, Calm, CleanStart, FingerprintOf;
    CleanStartIsExact(b, s);
    UninvokedAlarms(b, s, StartingViolations(b, s), UnsafeStart.Text());
    if CleanStart(b, s) {
      if s.capabilityProblem.Some? {
        UninvokedAlarms(b, s, [], s.capabilityProblem.value);
      } else {
        InvokedAlarms(b, s);
        AnsweredIsExact(s);
      }
    }
  }

  lemma SuccessIsRead(b: WritableBaseline, s: Script, stopped: bool, round: Option<nat>)
    requires s.Valid() && Guarded(b, s).Succeeded?
    ensures var r := SucceededWrite(Guarded(b, s), s, stopped, round);
      && r.outcome == (if stopped then StageHumanRequired else StageCompleted)
      && r.category == (if stopped then Some(HUMAN_JUDGMENT_REQUIRED) else None)
      && r.after == CapturedFingerprint(s.after) && r.correctionRound == round
    ensures s.executor.Ok? && s.executor.value.result == Some(Guarded(b, s).result)
    ensures Guarded(b, s).audit.changedFiles == ChangedFilesOf(s)
  {
    SucceededFacts(b, s);
    OutcomesAreConstructible(b, s);
  }

  // ----- the stages -----

  /** The agent says that it gave up. */
  predicate GaveUp(s: Script) {
    && AnsweredWell(s) && s.executor.value.result.Some? && s.executor.value.result.value.ImplementationArtifact?
    && s.executor.value.result.value.implementation.status.ImplementationBlocked?
  }

  /**
   An implementation completes exactly when the baseline stands, the call succeeded, the agent did not give up and
   files changed. It fails retryably exactly when the call left nothing behind. Everything else stops for a human,
   with the category of the call, or of the missing baseline.
   */
  lemma ImplementationIsExact(cfg: RunConfig, ledger: seq<Attempt>, i: WriteInput)
    requires i.script.Valid()
    ensures var r, b, s := ImplementationStage(cfg, ledger, i), ImplementationBaseline(cfg), i.script;
      && (r.outcome.StageCompleted? <==>
            && BaselineEvidence(cfg, ledger, i.ticketIntact)
            && EvidenceIntact(s) && SoundAnswer(s) && SafeWorkspaces(b, s)
            && !GaveUp(s) && s.changedFiles.value != [])
      && (r.outcome.StageFailed? <==> BaselineEvidence(cfg, ledger, i.ticketIntact) && LeftNothing(b, s))
      && !r.outcome.CorrectionRequired?
      && r.category == (
           if !r.outcome.StageHumanRequired? then None
           else if !BaselineEvidence(cfg, ledger, i.ticketIntact) then Some(SAFETY_VIOLATION)
           else Some(StopOf(b, s)))
      && r.after == CapturedFingerprint(s.after)
  {
    hide RejectBeforeStart, Guarded, BaselineEvidence, LeftNothing, CleanStart, SafeEnd, RejectedWrite, FailedWrite,
      SucceededWrite, FingerprintOf, EvidenceIntact, SafeWorkspaces, AgentExecution.Valid;
    var b, s := ImplementationBaseline(cfg), i.script;
    if !BaselineEvidence(cfg, ledger, i.ticketIntact) {
      RejectionIsRead(b, s, ["baseline-verification"], "baseline evidence", None);
    } else {
      CallIsRead(b, s);
      if Guarded(b, s).Succeeded? {
        SuccessIsRead(b, s, GaveUp(s) || s.changedFiles.value == [], None);
      } else {
        FailureIsRead(b, s, None);
      }
    }
  }

  /** A call succeeds in one way, which is neither harmless nor a stop. */
  lemma CallIsRead(b: WritableBaseline, s: Script)
    requires s.Valid()
    ensures Guarded(b, s).Succeeded? <==> EvidenceIntact(s) && SoundAnswer(s) && SafeWorkspaces(b, s)
    ensures Guarded(b, s).Succeeded? ==>
      && !LeftNothing(b, s) && StopOf(b, s).HUMAN_JUDGMENT_REQUIRED?
      && s.changedFiles.Ok? && AnsweredWell(s)
  {
    hide Guarded, CleanStart, CleanEnd, Authorized, AuthorizedStart, FingerprintOf, Matches, AgentExecution.Valid;
    SuccessIsExact(b, s);
    OutcomeCases(b, s);
    EndsAgree(b, s);
  }

  lemma EndsAgree(b: WritableBaseline, s: Script)
    ensures CleanEnd(b, s) <==> SafeEnd(b, s) && s.environmentAfter.errors == []
  {
  }

  /** The fingerprint that a correction may start from: what the last completed verification of these commands left. */
  predicate CorrectionSource(cfg: RunConfig, ledger: seq<Attempt>, source: Fingerprint) {
    var v := Latest(ledger, {VerifyingPhase}, {Completed});
    && v.Some? && RoundOf(v.value).Some? && ValidResult(RoundOf(v.value).value, {Fail, Pass}, cfg.commands, false)
    && v.value.after == Some(source)
  }

  /** Everything but the readiness of the prompt that a correction needs before its agent may run. */
  ghost predicate CorrectionStands(cfg: RunConfig, ledger: seq<Attempt>, i: WriteInput) {
    BaselineEvidence(cfg, ledger, i.ticketIntact) && exists source :: CorrectionSource(cfg, ledger, source)
  }

  ghost predicate MayCorrect(cfg: RunConfig, record: RunRecord, ledger: seq<Attempt>, i: WriteInput) {
    record.correctionRound < cfg.maxRounds && CorrectionStands(cfg, ledger, i) && i.promptReady
  }

  lemma SourceIsRead(cfg: RunConfig, ledger: seq<Attempt>)
    ensures var source := VerificationSource(ledger, {Fail, Pass}, cfg.commands);
      && (source.Some? <==> exists f :: CorrectionSource(cfg, ledger, f))
      && (source.Some? ==> CorrectionSource(cfg, ledger, source.value))
  {
    hide ValidResult;
    var source := VerificationSource(ledger, {Fail, Pass}, cfg.commands);
    assert source.Some? ==> CorrectionSource(cfg, ledger, source.value);
    if f :| CorrectionSource(cfg, ledger, f) {
      assert source == Some(f);
    }
  }

  /**
   A correction raises exactly when its causes cannot be read. Otherwise it completes exactly when it was allowed, the
   call succeeded and the agent did not give up, and only a successful call advances the round. It fails retryably
   exactly when it was allowed and the call left nothing behind. An exhausted limit or an unreadable prompt leaves
   the repository uncertain, unless something else is wrong; missing evidence is a safety violation.
   */
  lemma CorrectionIsExact(cfg: RunConfig, record: RunRecord, ledger: seq<Attempt>, i: WriteInput)
    requires i.script.Valid()
    ensures CorrectionStage(cfg, record, ledger, i).Raised? <==> PlanPending(ledger).Err?
    ensures CorrectionStage(cfg, record, ledger, i).Returned? ==>
      var r, s, round := CorrectionStage(cfg, record, ledger, i).result, i.script, record.correctionRound;
      var b := CorrectionBaseline(cfg, VerificationSource(ledger, {Fail, Pass}, cfg.commands));
      var success := EvidenceIntact(s) && SoundAnswer(s) && SafeWorkspaces(b, s);
      && (r.outcome.StageCompleted? <==> MayCorrect(cfg, record, ledger, i) && success && !GaveUp(s))
      && (r.outcome.StageFailed? <==> MayCorrect(cfg, record, ledger, i) && LeftNothing(b, s))
      && !r.outcome.CorrectionRequired?
      && r.correctionRound == Some(if MayCorrect(cfg, record, ledger, i) && success then round + 1 else round)
      && (MayCorrect(cfg, record, ledger, i) && r.outcome.StageHumanRequired? ==> r.category == Some(StopOf(b, s)))
      && (!MayCorrect(cfg, record, ledger, i) ==> r.category == Some(RefusalStop(cfg, record, ledger, i)))
      && (!r.outcome.StageHumanRequired? ==> r.category.None?)
      && r.after == CapturedFingerprint(s.after)
  {
    hide RejectBeforeStart, Guarded, BaselineEvidence, LeftNothing, CleanStart, SafeEnd, RejectedWrite, FailedWrite,
      SucceededWrite, FingerprintOf, EvidenceIntact, SafeWorkspaces, AgentExecution.Valid, PlanPending,
      VerificationSource, CorrectionSource;
    var source := VerificationSource(ledger, {Fail, Pass}, cfg.commands);
    var b, s, round := CorrectionBaseline(cfg, source), i.script, record.correctionRound;
    SourceIsRead(cfg, ledger);
    RefusalIsRead(cfg, record, ledger, i);
    if MayCorrect(cfg, record, ledger, i) {
      CallIsRead(b, s);
      if Guarded(b, s).Succeeded? {
        SuccessIsRead(b, s, GaveUp(s), Some(round + 1));
      } else {
        FailureIsRead(b, s, Some(round));
      }
    }
  }

  /** What a human is told about a correction that was not allowed to begin. */
  ghost function RefusalStop(cfg: RunConfig, record: RunRecord, ledger: seq<Attempt>, i: WriteInput): StopCategory {
    var exhausted := record.correctionRound >= cfg.maxRounds;
    var b := CorrectionBaseline(cfg, if exhausted then None else VerificationSource(ledger, {Fail, Pass}, cfg.commands));
    if (exhausted || CorrectionStands(cfg, ledger, i)) && CleanStart(b, i.script) && SafeEnd(b, i.script) then
      REPOSITORY_UNCERTAIN
    else SAFETY_VIOLATION
  }

  lemma RefusalIsRead(cfg: RunConfig, record: RunRecord, ledger: seq<Attempt>, i: WriteInput)
    ensures var rejection := CorrectionRejection(cfg, record, ledger, i);
      && (rejection.None? <==> MayCorrect(cfg, record, ledger, i))
      && (rejection.Some? ==>
            var r := RejectedWrite(rejection.value, Some(record.correctionRound));
            && r.outcome.StageHumanRequired? && r.correctionRound == Some(record.correctionRound)
            && r.category == Some(RefusalStop(cfg, record, ledger, i)) && r.after == CapturedFingerprint(i.script.after))
  {
    hide RejectBeforeStart, BaselineEvidence, CleanStart, SafeEnd, FingerprintOf, VerificationSource, CorrectionSource;
    var source, s, round := VerificationSource(ledger, {Fail, Pass}, cfg.commands), i.script, Some(record.correctionRound);
    var unsourced := CorrectionBaseline(cfg, None);
    SourceIsRead(cfg, ledger);
    RejectionIsRead(unsourced, s, [], "rounds exhausted", round);
    RejectionIsRead(unsourced, s, ["baseline-verification"], "baseline evidence", round);
    RejectionIsRead(unsourced, s, ["verification-evidence"], "correction source", round);
    RejectionIsRead(CorrectionBaseline(cfg, source), s, [], "prompt", round);
  }
}
