/** When exactly a guarded writable call ends in each of its outcomes, in terms of what it met. */
module GuardedOutcomes {
  import opened Wrappers
  import opened Snapshots
  import opened AgentExecutions
  import opened GuardedOperation

  // ----- what a call met -----

  /** The call may begin: an authorized workspace, captured and recorded, with no error around it. */
  predicate CleanStart(b: WritableBaseline, s: Script) {
    && s.before.Some? && AuthorizedStart(b, s.before.value) && s.environmentBefore.errors == []
    && s.associated.Ok? && s.saveBefore.Saved?
  }

  /** Afterwards the workspace is still safe, nothing new appeared, and all of this was captured and recorded. */
  predicate CleanEnd(b: WritableBaseline, s: Script) {
    && s.after.Some? && Authorized(b, s.after.value) && s.environmentAfter.errors == []
    && s.environmentAfter.environments <= s.environmentBefore.environments
    && s.guardRun == GuardRun(None, None) && s.changedFiles.Ok? && s.saveAfter.Saved?
  }

  /** Recording the start that the answer reports was interrupted. */
  predicate Interrupted(s: Script) {
    && s.executor.Ok? && s.executor.value.start.InvocationStarted? && !s.observedStart
    && s.associated.Ok? && s.saveStart.SaveInterrupted?
  }

  /** The executor answered within its contract and the answer was written down; nothing raised. */
  predicate Answered(s: Script) {
    s.executor.Ok? && !Interrupted(s) && s.contractProblem.None? && s.writeEvidence.None?
  }

  /** The attempt's record follows the answer: a start was saved, none was denied, the execution was saved. */
  predicate RecordedAnswer(s: Script)
    requires s.executor.Ok?
  {
    && (s.observedStart ==> !s.executor.value.start.NotStarted?)
    && (s.observedStart || s.executor.value.start.InvocationStarted? ==> s.saveStart.Saved?)
    && s.saveExecution.Saved?
  }

  /** A failed call that left two equal captures and a complete record behind. */
  predicate Traceless(b: WritableBaseline, s: Script) {
    && CleanStart(b, s) && CleanEnd(b, s) && s.capabilityProblem.None? && Answered(s)
    && s.executor.value.failure.Some? && RecordedAnswer(s) && Matches(s.before.value, s.after.value)
  }

  // ----- the audited invocation -----

  lemma AnsweredIsExact(s: Script)
    requires s.Valid() && s.associated.Ok?
    ensures Answered(s) <==> Invoke(s).error.None?
    ensures Answered(s) ==> Invoke(s).execution == Some(s.executor.value)
    ensures Answered(s) ==> StartOf(Invoke(s)) == if s.observedStart then InvocationStarted else s.executor.value.start
  {
  }

  lemma RecordedIsExact(s: Script)
    requires s.Valid() && s.associated.Ok? && s.saveBefore.Saved? && Answered(s)
    ensures var e := AfterRecordAfter(Invoke(s).evidence, s.after, s.saveAfter);
      e.record.Some? && (e.errors == [] <==> RecordedAnswer(s) && s.saveAfter.Saved?)
  {
    hide FingerprintOf, EvidenceOf, Wording.Text;
  }

  /** The audit of an answered call, apart from the source changes of a failed one. */
  lemma AuditIsExact(b: WritableBaseline, s: Script)
    requires s.Valid() && CleanStart(b, s) && Answered(s)
    ensures var a := AuditAfterInvocation(b, s);
      !a.Unsafe() <==>
        && CleanEnd(b, s) && RecordedAnswer(s)
        && (s.executor.value.failure.Some? && s.changedFiles.Ok? && s.changedFiles.value != [] ==>
              Unchanged(s.before, s.after))
  {
    hide FingerprintOf, Wording.Text, Invoke, SafetyChanges, GuardEvidence, Distinct, AfterRecordAfter;
    AnsweredIsExact(s);
    RecordedIsExact(s);
    PostIsExact(b, s.after);
    var recorded := AfterRecordAfter(Invoke(s).evidence, s.after, s.saveAfter);
    GuardIsExact(recorded, EnvironmentBefore(s), EnvironmentAfter(s), s.guardRun);
    EnvironmentsAreExact(b, s);
  }

  /** A complete capture adds nothing to the environment's errors. */
  lemma EnvironmentsAreExact(b: WritableBaseline, s: Script)
    ensures EnvironmentBefore(s).environments == s.environmentBefore.environments
    ensures EnvironmentAfter(s).environments == s.environmentAfter.environments
    ensures Complete(s.before) ==> (EnvironmentBefore(s).errors == [] <==> s.environmentBefore.errors == [])
    ensures Complete(s.after) ==> (EnvironmentAfter(s).errors == [] <==> s.environmentAfter.errors == [])
    ensures EnvironmentAfter(s).errors == [] ==> s.environmentAfter.errors == []
  {
  }

  // ----- the outcomes -----

  /**
   A call is rejected before its start exactly when it left everything clean and either its executor lacks a
   capability, or the answer is a failure that never started and nothing changed.
   */
  lemma RejectedIsExact(b: WritableBaseline, s: Script)
    requires s.Valid()
    ensures Guarded(b, s).RejectedBeforeStart? <==>
      || (CleanStart(b, s) && s.capabilityProblem.Some? && CleanEnd(b, s))
      || (Traceless(b, s) && s.executor.value.start.NotStarted?)
  {
    OutcomeCases(b, s);
  }

  /**
   A call has failed unchanged exactly when a started or unclear failure left everything clean and equal, and it
   is not one after which the agent may still be at work: no timeout, no missing or invalid result, no uncertain
   cleanup.
   */
  lemma FailedUnchangedIsExact(b: WritableBaseline, s: Script)
    requires s.Valid()
    ensures Guarded(b, s).FailedUnchanged? <==>
      && Traceless(b, s) && !s.executor.value.start.NotStarted?
      && s.executor.value.failure.value.category
           !in {MISSING_RESULT, INVALID_RESULT, AGENT_TIMEOUT, INVOCATION_CLEANUP_UNCERTAIN}
  {
    OutcomeCases(b, s);
  }

  /** A call is stopped for safety exactly on a bad start, a refusal or a success with something wrong around it. */
  lemma SafetyStoppedIsExact(b: WritableBaseline, s: Script)
    requires s.Valid()
    ensures Guarded(b, s).SafetyStopped? <==>
      || !CleanStart(b, s)
      || (s.capabilityProblem.Some? && !CleanEnd(b, s))
      || (s.capabilityProblem.None? && Answered(s) && s.executor.value.failure.None?
          && !(CleanEnd(b, s) && RecordedAnswer(s)))
  {
    OutcomeCases(b, s);
  }

  /** What is left is uncertain: whatever raised, and every failure that is not known to have left nothing. */
  lemma FailedUncertainIsExact(b: WritableBaseline, s: Script)
    requires s.Valid()
    ensures Guarded(b, s).FailedUncertain? <==>
      && CleanStart(b, s) && s.capabilityProblem.None?
      && (|| !Answered(s)
          || (s.executor.value.failure.Some?
              && (|| !Traceless(b, s)
                  || (!s.executor.value.start.NotStarted? && s.executor.value.failure.value.category
                        in {MISSING_RESULT, INVALID_RESULT, AGENT_TIMEOUT, INVOCATION_CLEANUP_UNCERTAIN}))))
  {
    OutcomeCases(b, s);
  }

  /** The order of the outcomes, one case after the other. */
  lemma OutcomeCases(b: WritableBaseline, s: Script)
    requires s.Valid()
    ensures var o := Guarded(b, s);
      && (!CleanStart(b, s) ==> o.SafetyStopped?)
      && (CleanStart(b, s) && s.capabilityProblem.Some? ==>
            if CleanEnd(b, s) then o.RejectedBeforeStart? else o.SafetyStopped?)
      && (CleanStart(b, s) && s.capabilityProblem.None? ==>
            if !Answered(s) then o.FailedUncertain?
            else if s.executor.value.failure.None? then
              if CleanEnd(b, s) && RecordedAnswer(s) then o.Succeeded? else o.SafetyStopped?
            else if Traceless(b, s) && s.executor.value.start.NotStarted? then o.RejectedBeforeStart?
            else if Traceless(b, s) && s.executor.value.failure.value.category
                !in {MISSING_RESULT, INVALID_RESULT, AGENT_TIMEOUT, INVOCATION_CLEANUP_UNCERTAIN} then o.FailedUnchanged?
            else o.FailedUncertain?)
  {
    hide Invoke, AuditAfterInvocation, AuditWithoutInvocation, Traceless;
    StartingIsExact(b, s);
    if CleanStart(b, s) {
      if s.capabilityProblem.Some? {
        RefusalIsExact(b, s);
      } else {
        InvocationCases(b, s);
      }
    }
  }

  lemma RefusalIsExact(b: WritableBaseline, s: Script)
    requires CleanStart(b, s) && s.capabilityProblem.Some?
    ensures !AuditWithoutInvocation(b, s, [], s.capabilityProblem.value).Unsafe() <==> CleanEnd(b, s)
  {
    hide AuditWithoutInvocation, SafetyChanges, FingerprintOf, EnvironmentBefore, EnvironmentAfter;
    UninvokedIsExact(b, s, [], s.capabilityProblem.value);
    PostIsExact(b, s.after);
    EnvironmentsAreExact(b, s);
  }

  lemma InvocationCases(b: WritableBaseline, s: Script)
    requires s.Valid() && CleanStart(b, s) && s.capabilityProblem.None?
    ensures var o := ClassifyInvocation(AuditAfterInvocation(b, s), Invoke(s).error.Some?);
      if !Answered(s) then o.FailedUncertain?
      else if s.executor.value.failure.None? then
        if CleanEnd(b, s) && RecordedAnswer(s) then o.Succeeded? else o.SafetyStopped?
      else if Traceless(b, s) && s.executor.value.start.NotStarted? then o.RejectedBeforeStart?
      else if Traceless(b, s) && s.executor.value.failure.value.category
          !in {MISSING_RESULT, INVALID_RESULT, AGENT_TIMEOUT, INVOCATION_CLEANUP_UNCERTAIN} then o.FailedUnchanged?
      else o.FailedUncertain?
  {
    AnsweredIsExact(s);
    if Answered(s) {
      AuditIsExact(b, s);
      AuditFields(b, s);
      hide Invoke, AuditAfterInvocation;
    }
  }

  lemma AuditFields(b: WritableBaseline, s: Script)
    requires s.Valid()
    ensures var a := AuditAfterInvocation(b, s);
      a.execution == Invoke(s).execution && a.before == s.before && a.after == s.after && a.start == StartOf(Invoke(s))
  {
    hide Invoke, GuardEvidence, SafetyChanges;
  }
}
