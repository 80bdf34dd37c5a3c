/** The provider-neutral outcome of one agent call and the evidence written about it. */
module AgentExecutions {
  import opened Wrappers
  import opened TaskResults
  import opened Attempts

  datatype AgentTask = ImplementationTask | ReviewTask | CorrectionTask

  /** What is known about whether provider-controlled work began. */
  datatype InvocationStart = NotStarted | InvocationStarted | Unknown

  datatype FailureCategory =
    | PROVIDER_UNAVAILABLE
    | INVOCATION_START_FAILURE
    | AGENT_TIMEOUT
    | PROVIDER_REJECTION_OR_SERVICE_FAILURE
    | NON_SUCCESSFUL_EXECUTION
    | INVOCATION_CLEANUP_UNCERTAIN
    | MISSING_RESULT
    | INVALID_RESULT
    | CAPABILITY_OR_CONFIGURATION_FAILURE

  datatype AgentFailure = AgentFailure(category: FailureCategory, message: string)

  const PRE_INVOCATION_FAILURES: set<FailureCategory> :=
    {PROVIDER_UNAVAILABLE, INVOCATION_START_FAILURE, CAPABILITY_OR_CONFIGURATION_FAILURE}

  /** A result has the type its task asks for, and obeys its own constructor. */
  predicate ResultOfTask(task: AgentTask, result: Artifact) {
    match task
    case ReviewTask => result.ReviewArtifact? && result.review.Valid()
    case _ => result.ImplementationArtifact? && result.implementation.Valid()
  }

  datatype AgentExecution = AgentExecution(
    task: AgentTask,
    start: InvocationStart,
    result: Option<Artifact>,
    failure: Option<AgentFailure>)
  {
    predicate Successful() {
      failure.None?
    }

    /** The constructor check, validate_execution_semantics included. */
    predicate Valid() {
      match failure
      case None => start.InvocationStarted? && result.Some? && ResultOfTask(task, result.value)
      case Some(f) =>
        && result.None? && !Blank(f.message)
        && (f.category in PRE_INVOCATION_FAILURES ==> start.NotStarted?)
        && (f.category !in PRE_INVOCATION_FAILURES && !f.category.AGENT_TIMEOUT? ==> !start.NotStarted?)
    }
  }

  /** evidence_from_execution. */
  function EvidenceOf(e: AgentExecution): ExecutionEvidence {
    ExecutionEvidence(e.Successful(), e.start.InvocationStarted?, e.result)
  }
}
