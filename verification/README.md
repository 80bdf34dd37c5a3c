# Ticket automation: a verified model of the crash-safe lifecycle

Ticket automation drives one ticket through preparation, implementation, verification, review, bounded
correction rounds and a final report. What survives a crash is a run record and an append-only ledger of
attempts; everything the controller holds in memory is lost. This project models that lifecycle in Dafny as a
transition system over the persisted state and proves what it promises over every run: with exceptions at any
point, crashes between any two persisted writes, any number of resumes, and a workspace that anyone may edit at
any time. Around it stand models of the parts the lifecycle relies on: the guarded writable operation, the
compare-and-swap commit of an attempt record, attempt numbering and loading, partial capture publication,
canonical workspace snapshots, the environment walk, verification rounds with their judge, and the codecs of task
results, execution evidence and the run policy.

Code that computes a value is modelled by functions; code that works by steps is a method or a class, proved
against those functions: `LifecycleController.Controller` (the drive loop), `GuardedOperation.AttemptTracker`,
`CapturePublication.Output` and `Staging`, `EnvironmentWalk.Walker`, and the loops of the parsers.

## How the lifecycle is modelled

* A `World` is the persisted record, the ledger, the workspace and the place of the controller process. A `Step`
  is one persisted write, one stage handler, or one act of the environment: an exception, a crash, a resume, an
  edit. Losing ownership of the run is a crash.
* A stage handler is a function of the record, the ledger, its attempt and an input that holds everything it
  observes: captures, clock readings, agent answers, write failures. All theorems are over every input.
* `Inv` in `LifecycleInvariant.dfy` ties the record's counters to the ledger; it is kept by every step, and the
  theorems follow from it. A quiet run (`QuietRuns.dfy`) is one whose workspace changes only while a writable
  stage runs, whose attempts end well and which crashes only outside the writable states.
* What every outcome of a stage depends on, and what it leaves in the record, is stated without the functions that
  compute it: `GuardedOutcomes.dfy`, `StageOutcomes.dfy`, `WriteOutcomes.dfy` and `PersistedRecords.dfy`.
* Fingerprints are the canonical data behind a constructor, so equal fingerprints are equal data.

## What turned out differently from what one would expect

* A guarded call refused for missing capabilities, and a rejection asked for by a stage, never compare the two
  captures around it. A workspace that changed in between, to another state that is safe in itself, is then
  reported as rejected before start. `GuardedOperation.ChangeIsNoticedIffCapable` states exactly when a change
  is kept out of the harmless outcomes, `StageRejectionIsExact` what a stage's rejection does establish.
* `_write_all` counts a raw write that reports no byte count as a full one. `CapturePublication.Output.WriteAll`
  shows that success means the whole value was appended exactly when no such write happened; the publication
  theorems carry that condition.
* A retained tail longer than the observed count is refused when a capture is completed in place, and spliced
  without that check when it is copied (`Staging.CompleteStable`, `Staging.PublishUnstable`).
* An artifact reference accepts two kinds of path that the evidence decoder then refuses: a blank one, and one like
  `./C:/x`, whose normal form uncovers a drive. `EvidenceCodec.EnvelopeRoundTrip` states exactly which evidence
  comes back; references made by the attempt layout always do.
* A snapshot's normal form ignores order and repetition exactly when no path is listed with two different hashes
  (`Snapshots.NormalizeIsInsensitiveIffConsistent`): the constructor keeps the last hash of a path.
* A round that ran passes the authoritative check exactly when every command exited with zero, nothing unsafe was
  seen and no clock reading went backwards (`Verification.RunRoundJudged`).
* A run policy comes back from its JSON form with its free text stripped and its providers sorted, and unchanged
  exactly when it was so already (`PolicyRoundTrip.UnchangedIffSettled`); command arguments are never stripped.
  A whole-number timeout is accepted exactly when its bits beyond the 53rd are zero (`PolicyCodec.TimeoutIsAcceptedIff`).

## Model

| member | source | states |
|---|---|---|
| LifecycleTheorems.ReadyIsSafe | ticket_automation/workflow.py:453-516 | in every run with exceptions, crashes, resumes and workspace edits, a persisted READY_FOR_HUMAN record has a safe workspace whose fingerprint the last write, the last verification (an authoritative pass) and the last review (a passing one) all carry, in that order and before the report |
| LifecycleTheorems.WritesAreBounded | ticket_automation/application/lifecycle/resume.py:158-181 | over every schedule the ledger holds at most one IMPLEMENTING and at most max_correction_rounds CORRECTING attempts |
| LifecycleTheorems.StartsAreAlone | ticket_automation/workflow.py:453-516 | no attempt starts while a writable attempt is anything but completed |
| LifecycleTheorems.BookkeepingIsHonest | ticket_automation/application/lifecycle/correction.py:27-74 | in every nonterminal persisted record the correction round is within its limit and equals the CORRECTING attempts (or is one behind while CORRECTING), the review round is at most the completed reviews, and outside the writable states every write is completed |
| LifecycleTheorems.TaintIsForever | ticket_automation/application/handoff_acceptance.py:445-473 | once any attempt ended FAILED or HUMAN_REQUIRED, no continuation of the run is ever READY_FOR_HUMAN, whatever a crash lost |
| LifecycleTheorems.LedgerOnlyGrows | ticket_automation/attempts.py:333-419 | attempts are never removed or renamed and an ended attempt never changes again |
| LifecycleTheorems.TerminalIsFinal | ticket_automation/workflow.py:743-767 | a terminal record is never rewritten, by exceptions and resumes included |
| LifecycleTheorems.PlannerIsExactOverRuns | ticket_automation/correction_planner.py:26-117 | in every reachable CORRECTION_PENDING or CORRECTING state the planner succeeds with one cause for each failure or required finding of the attempt whose decision produced the state, in order, and every field of a cause is the field of that failure or finding |
| LifecycleTheorems.OriginIsTheDecidingAttempt | ticket_automation/workflow.py:502-513 | that attempt is the newest, just completed one, and it asked for a correction |
| LifecycleTheorems.DriveIsBounded | ticket_automation/workflow.py:453-516 | an uninterrupted drive of a new run persists at most 4 * max + 6 transitions and starts at most 3 * max + 5 attempts, although the states form a cycle |
| LifecycleTheorems.RunSpends | ticket_automation/workflow.py:453-516 | the same from every state that satisfies the invariant, by a measure on remaining rounds and state rank |
| LifecycleTheorems.InvOverRuns | ticket_automation/workflow.py:453-516 | the invariant tying the record to the ledger holds after every run |
| LifecycleTheorems.ReportingProvesChain | ticket_automation/application/handoff_acceptance.py:268-410 | a reporting stage completes only with the whole evidence chain behind it, its last verification included, on the workspace its attempt started from |
| LifecycleTheorems.PolicyHandsOver | ticket_automation/application/handoff_acceptance.py:413-579 | an accepted policy about the reporting attempt's workspace hands that workspace over |
| LifecycleTheorems.ChainSurvivesEnd | ticket_automation/workflow.py:502-513 | completing the reporting attempt after the record was saved keeps the evidence chain of the handoff |
| QuietRuns.QuietRunsResume | ticket_automation/application/lifecycle/resume.py:150-210 | no spurious rejection: after any quiet run, an unfinished run whose controller is gone is resumable |
| QuietRuns.QuietRunsAreAccepted | ticket_automation/application/handoff_acceptance.py:439-579 | no spurious rejection: after any quiet run, a report in progress passes every policy check and completes |
| CompletedRun.SomeRunHandsOver | ticket_automation/workflow.py:441-534 | neither guarantee is empty: for every safe workspace an implementation may leave, a quiet run starts a report about it and persists READY_FOR_HUMAN with it |
| QuietRuns.QuietOverRuns | ticket_automation/workflow.py:453-516 | every persisted nonterminal state of a quiet run has its evidence in the ledger, for the current workspace |
| LifecycleController.Controller.Drive | ticket_automation/workflow.py:441-534 | the drive loop only takes steps of the transition system, needs at most the measured number of iterations and leaves a terminal record unless its process was lost; a crash is taken only where the environment asks for one, an exception only where a handler or a decision raised, and READY_FOR_HUMAN only with a handed-over workspace |
| LifecycleController.Controller.ResumeTicket | ticket_automation/workflow.py:305-438 | a resume leaves a terminal run alone, stops a refused one for a human without touching the ledger, and drives an accepted one to a terminal record unless its process is lost again |
| LifecycleController.Controller.StartStageAttempt | ticket_automation/workflow.py:611-640 | starting an attempt is one step of the transition system and appends one record with a fresh number |
| LifecycleController.Controller.UpdateAttempt | ticket_automation/attempts.py:379-419 | the running attempt's updates are steps that touch the newest record only |
| LifecycleController.Controller.Dispatch | ticket_automation/application/lifecycle/handlers.py:55-71 | dispatching a stage is one step and leaves its decision, or nothing when anything raised |
| LifecycleController.Controller.Persist | ticket_automation/workflow.py:502-513 | a report saves its transition before it ends its attempt, any other stage the other way round; a crash in between leaves exactly the first write, and surviving both leaves less to do |
| LifecycleController.Controller.CompleteStageAttempt | ticket_automation/attempts.py:565-625 | completing an attempt is the step that ends the newest record |
| LifecycleController.Controller.SaveLifecycleRun | ticket_automation/workflow.py:842-851 | saving the record is the step that makes the decided record the persisted one, and shrinks what is left to do |
| LifecycleController.Controller.MarkControllerException | ticket_automation/workflow.py:743-767 | an exception leaves a terminal record; it stops a writable state for a human because the repository is uncertain, and fails any other one on the controller, neither retryable |
| PersistedRecords.ExceptionStops | ticket_automation/failure_classification.py:44-69 | the same for every exception in every world of the transition system: HUMAN_REQUIRED with REPOSITORY_UNCERTAIN if and only if the phase of an unfinished state writes the repository, FAILED with CONTROLLER_FAILURE otherwise |
| PersistedRecords.RefusalStops | ticket_automation/workflow.py:305-438 | a resume either lets the unchanged record be driven, exactly when it has no problem and a configuration, or stops it for human judgment |
| PersistedRecords.StagesAreDecided | ticket_automation/application/lifecycle/contracts.py:166-330 | in every run, what each outcome of a stage persists: the state, the rounds, and the category and retry flag of the stop |
| PersistedRecords.ImmediateDecisions | ticket_automation/application/lifecycle/correction.py:27-48 | a pending correction moves to CORRECTING exactly when its round is below the maximum, and otherwise stops for human judgment; PREPARED moves to IMPLEMENTING |
| PersistedRecords.StartRecords | ticket_automation/workflow.py:611-640 | a started attempt has the phase of its state and, exactly in a read-only phase, the captured workspace it starts from |
| PersistedRecords.EndRecords | ticket_automation/attempts.py:422-443 | an ended attempt has the status of its outcome, the final workspace when one was captured, and its artifact; nothing else of the ledger changes |
| PersistedRecords.TransitionsAreExact | ticket_automation/models.py:220-262 | the legal transitions are exactly the failure stops of unfinished states, what stage outcomes ask for, and the two starts that need no stage |
| StageOutcomes.RoundIsExact | ticket_automation/verification.py:634-752 | a verification round completes, asks for a correction or stops exactly under stated conditions on its captures and exit codes, and a stop is a baseline failure, a safety violation or a failed infrastructure |
| StageOutcomes.FailuresAreExact | ticket_automation/verification.py:955-974 | a round after the baseline records one failure for each command that exited with something else than zero, in order and field by field, its streams cut at 4000 characters |
| StageOutcomes.ReviewIsExact | ticket_automation/review.py:201-544 | a review raises, completes, asks for a correction, fails or stops exactly under stated conditions on its captures, its verdict and its findings; the stop is human judgment when nothing was disturbed and a safety violation otherwise |
| StageOutcomes.ReportIsExact | ticket_automation/application/handoff_acceptance.py:268-410 | a report completes if and only if a whole chain stands behind its starting workspace, the patch was captured and the workspace stayed; every other report is a safety violation |
| WriteOutcomes.ImplementationIsExact | ticket_automation/implementation.py:172-437 | an implementation completes if and only if the baseline stands, the call succeeded, the agent did not give up and files changed; it fails retryably if and only if the call left nothing; the category of every other end is stated from what the call met |
| WriteOutcomes.CorrectionIsExact | ticket_automation/corrections.py:295-707 | the same for a correction, which raises exactly when its causes cannot be read, needs a round that is left, and advances it exactly on a successful call |
| StageProperties.StageDecisionsAreLegal | ticket_automation/application/lifecycle/contracts.py:214-300 | the controller never trips over its own decision: every result of every stage, on every input, is a legal transition to a valid record |
| StageProperties.RoundResultFacts | ticket_automation/verification.py:681-727 | a verification stage's outcome and artifact agree: completed means a passing round, a correction a failing one with usable reasons, never for the baseline |
| StageProperties.ReviewStageFacts | ticket_automation/review.py:201-544 | a review asks for a correction only with a review that names one, about a passing round |
| StageProperties.ImplementationStageFacts | ticket_automation/implementation.py:172-437 | a completed implementation leaves a safe captured workspace and sound agent evidence |
| StageProperties.CorrectionStageFacts | ticket_automation/corrections.py:295-707 | a completed correction does too, and only in the round after the record's |
| StageProperties.FailuresBecomeCauses | ticket_automation/persistence_codecs.py:140-176 | every failure that a round records becomes a valid correction cause |
| Corrections.PlanIsExact | ticket_automation/correction_planner.py:26-117 | the planner never raises and picks no stale cause when the ledger has the deciding attempt as the latest completed one of its phase; the plan says what that attempt said, field by field |
| Handoff.PolicyIsExact | ticket_automation/application/handoff_acceptance.py:413-579 | all policy checks pass if and only if the workspace may be handed over and a complete evidence chain for it stands in the ledger |
| Handoff.PolicyIsSound | ticket_automation/application/handoff_acceptance.py:582-702 | acceptance yields the write, verification, review and report of that chain |
| Handoff.PolicyIsComplete | ticket_automation/application/handoff_acceptance.py:439-579 | such a chain passes every check |
| Handoff.AcceptIsConstructible | ticket_automation/application/handoff_acceptance.py:219-239 | an acceptance always passes its own outcome's constructor |
| Resume.ResumableIff | ticket_automation/application/lifecycle/resume.py:38-210 | a run continues if and only if its files and provider are intact, its state may be repeated, no write was interrupted, its baseline was verified when needed, and both captures show the expected workspace |
| GuardedOperation.Execute | ticket_automation/application/guarded_writable_operation.py:474-696 | the stepwise execution with its tracker yields exactly the specified outcome, for every combination of evidence errors, captures and answers |
| GuardedOperation.OutcomesAreConstructible | ticket_automation/application/guarded_writable_operation.py:229-346 | the classifier never trips a constructor check of the five outcomes |
| GuardedOperation.StageRejectionsAreConstructible | ticket_automation/application/guarded_writable_operation.py:698-740 | neither does a rejection asked for by a stage |
| GuardedOperation.SuccessIsExact | ticket_automation/application/guarded_writable_operation.py:474-696 | a call succeeds if and only if all evidence is intact, the answer is sound and the workspace was safe on both sides |
| GuardedOutcomes.RejectedIsExact | ticket_automation/application/guarded_writable_operation.py:474-696 | a call is rejected before its start if and only if everything around it was clean and either a capability was missing or a failure never started and changed nothing |
| GuardedOutcomes.FailedUnchangedIsExact | ticket_automation/application/guarded_writable_operation.py:671-696 | a call failed unchanged if and only if a failure that may have started left two equal clean captures and is no timeout, missing or invalid result, or uncertain cleanup |
| GuardedOutcomes.SafetyStoppedIsExact | ticket_automation/application/guarded_writable_operation.py:474-696 | a call is stopped for safety if and only if it started badly, or was refused or succeeded with something wrong around it |
| GuardedOutcomes.FailedUncertainIsExact | ticket_automation/application/guarded_writable_operation.py:671-696 | a call is uncertain if and only if something raised after a clean start, or a failure may have left something |
| GuardedOperation.HarmlessMeansSafe | ticket_automation/application/guarded_writable_operation.py:261-322 | a rejection before start or an unchanged failure has two complete safe captures, equal ones once the executor was allowed to run |
| GuardedOperation.ChangeIsNoticedIffCapable | ticket_automation/application/guarded_writable_operation.py:792-851 | a change between two safe captures is kept out of the harmless outcomes exactly when no capability refusal happened |
| GuardedOperation.StageRejectionIsExact | ticket_automation/application/guarded_writable_operation.py:698-740 | a stage's rejection is harmless exactly when nothing is wrong beside its own reason |
| GuardedOperation.UninvokedIsExact | ticket_automation/application/guarded_writable_operation.py:792-851 | an audit without an invocation is clean exactly when every capture, write and comparison was |
| GuardedOperation.GuardIsExact | ticket_automation/application/guarded_writable_operation.py:891-951 | the environment guard needs no human exactly when both walks were clean, nothing new appeared and the evidence was written |
| GuardedOperation.AttemptTracker.RecordStarted | ticket_automation/application/guarded_writable_operation.py:397-416 | the tracker remembers a start even when writing it failed, and passes an interruption on |
| AttemptCommit.CommitsFormChain | ticket_automation/attempts.py:333-419 | under every interleaving of any number of writers each commit replaced exactly the value it was computed from: no update is lost |
| AttemptCommit.EndedIsFinal | ticket_automation/attempts.py:841-847 | once a record has ended, before or during the schedule, no later commit returns it to STARTED |
| AttemptCommit.IdentityIsConstant | ticket_automation/attempts.py:901-908 | no schedule changes whose attempt the file is |
| AttemptCommit.PrepareIsExact | ticket_automation/attempts.py:379-419 | each given argument becomes its field, every other field is kept, and an update is refused exactly when the attempt would end without a time or have one without ending |
| AttemptCommit.LoneWriterCommitsIffCurrent | ticket_automation/attempts.py:333-376 | a writer that no other one disturbs commits its update if and only if its record is the stored one; with another one nothing is stored |
| AttemptStore.NameParsesBack | ticket_automation/attempts.py:67-67 | a zero-padded directory name parses back to its sequence, for every size |
| AttemptStore.NextSequence | ticket_automation/attempts.py:798-817 | the next number exceeds every reserved one and is the least such |
| AttemptStore.NextIsFresh | ticket_automation/attempts.py:286-330 | after any run with crashes and orphan directories the next number exceeds every attempt ever created and its directory is new |
| AttemptStore.LoadsInCreationOrder | ticket_automation/attempts.py:446-527 | loading returns exactly the created attempts in creation order, never a duplicate error, however the file system lists them |
| Attempts.LatestIsUnique | ticket_automation/attempts.py:530-562 | the latest record of a query is the one matching record that no later one follows |
| Decimals.PaddedValue | ticket_automation/attempts.py:911-912 | padding with zeros changes no value |
| CapturePublication.Output.WriteAll | ticket_automation/providers/codex_cli/evidence.py:488-504 | for every pattern of short writes: an error leaves a prefix appended and is reported exactly when a deadline check had expired or a write took nothing, success appends the whole value exactly when no write reported no count |
| CapturePublication.SpliceIsWhole | ticket_automation/providers/codex_cli/evidence.py:361-403 | a copied prefix and the missing part of the retained tail make the observed stream, for every split |
| CapturePublication.Staging.PublishUnstable | ticket_automation/providers/codex_cli/evidence.py:318-403 | a splice is given up if and only if a deadline check had expired or what was copied is beyond the observed stream or before the tail, and fails if and only if a write made no progress; otherwise it leaves exactly the observed stream, and for any tail at all what was copied and what the tail holds behind it |
| CapturePublication.Staging.CompleteStable | ticket_automation/providers/codex_cli/evidence.py:406-478 | the same for a capture completed in place, refused exactly when it is too long or the tail does not hold just what it lacks, and failing exactly when a write made no progress |
| CapturePublication.Staging.PublishStream | ticket_automation/providers/codex_cli/evidence.py:224-288 | one stream is promoted, spliced or replaced by the fallback: each if and only if a stated condition on the capture, the deadline and the writes holds, and which one is said truthfully |
| Snapshots.NormalizeIsIdempotent | ticket_automation/git_safety.py:45-103 | normalizing a snapshot twice is normalizing it once |
| Snapshots.NormalizeIsInsensitiveIffConsistent | ticket_automation/git_safety.py:45-103 | the normal form ignores order and repetition if and only if no path has two hashes |
| Snapshots.MatchesIffSameFingerprint | ticket_automation/git_safety.py:268-365 | the fieldwise comparison finds nothing if and only if both snapshots are complete and their fingerprinted data agree |
| Snapshots.MatchesIsPartialEquivalence | ticket_automation/git_safety.py:131-149 | matching is symmetric and transitive, and reflexive exactly on complete snapshots |
| Snapshots.FingerprintStandsForSnapshot | ticket_automation/git_safety.py:162-170 | matching a recorded fingerprint is matching the recorded snapshot |
| Snapshots.SafetyIsExact | ticket_automation/git_safety.py:368-446 | no safety change is reported exactly on the authorized workspace |
| SnapshotNormalForm.SafetyNamesAreExact | ticket_automation/git_safety.py:368-446 | each unsafe part of a workspace is reported under its own name, and nothing else is |
| SnapshotNormalForm.ComparisonNamesAreExact | ticket_automation/git_safety.py:268-365 | each difference between two snapshots is reported under its own name, and nothing else is |
| SnapshotNormalForm.NormalizeIsExact | ticket_automation/git_safety.py:45-103 | the constructor lists canonical paths once and in order, keeps the last hash of each file and every given error, and calls an inspection complete if and only if nothing was missing, malformed or contradictory |
| Snapshots.CollectHashes | ticket_automation/git_safety.py:70-83 | the loop over untracked hashes keeps the last hash of each path and reports conflicts and bad digests |
| Canonicalization.CanonicalPathIsNormal | ticket_automation/git_safety.py:473-477 | the path normal form has no backslash and no leading "./", is not empty and is a fixed point |
| Canonicalization.CanonicalPathKeepsMeaning | ticket_automation/git_safety.py:473-477 | the normal form is the path itself exactly when that is normal already, and neither the kind of slash nor a leading "./" makes a difference |
| Canonicalization.CanonicalPathLoop | ticket_automation/git_safety.py:473-477 | the loop computes that normal form |
| Canonicalization.PathSetIsCanonical | ticket_automation/git_safety.py:45-64 | sorting a set of paths depends on its elements only and is idempotent |
| Verification.RunRoundJudged | ticket_automation/verification_evidence.py:264-327 | the authoritative check accepts a round that ran exactly when every command exited with zero, nothing unsafe was seen and no clock reading went backwards |
| Verification.OutcomeMatchesArtifact | ticket_automation/verification.py:634-727 | stage outcome and recorded artifact tell the same story |
| EnvironmentWalk.WalkIsExact | ticket_automation/workspace_guard.py:200-238 | a walk without errors reports exactly the roots reachable without crossing another root, a skipped directory or a link |
| EnvironmentWalk.ReportsAreExact | ticket_automation/workspace_guard.py:200-238 | for every tree, the roots and the errors a walk records are exactly the roots, and the unlistable directories and unreadable entries, that it meets without crossing a root, a skipped name or a link; the seven skipped names are listed in the statement |
| EnvironmentWalk.MissedMeansError | ticket_automation/workspace_guard.py:200-238 | a reachable root that is not reported lies below a recorded error |
| EnvironmentWalk.RootsAreAntichain | ticket_automation/workspace_guard.py:200-238 | no reported root lies inside another |
| EnvironmentWalk.NewIsExact | ticket_automation/workspace_guard.py:150-161 | after clean walks the new environments are exactly the set difference |
| EnvironmentWalk.Walker.Walk | ticket_automation/workspace_guard.py:200-238 | the recursive walk over its two shared lists appends exactly the specified findings |
| TaskResultCodecs.ImplementationRoundTrip | ticket_automation/task_result_codecs.py:21-74 | decoding an encoded implementation result returns it |
| TaskResultCodecs.ReviewRoundTrip | ticket_automation/task_result_codecs.py:77-163 | decoding an encoded review returns it, verdict and findings still consistent |
| Timestamps.TimestampRoundTrip | ticket_automation/persistence.py:280-301 | a formatted instant parses back to itself, to the microsecond |
| EvidenceCodec.EnvelopeRoundTrip | ticket_automation/execution_evidence.py:236-375 | decoding encoded evidence returns it, with every construction invariant holding again, if and only if every stored artifact path is text and no drive with a root; otherwise nothing is read |
| EvidenceCodec.ReferenceRoundTrip | ticket_automation/application/agent_execution.py:611-626 | the same for one artifact reference |
| EvidenceCodec.UnreadableReferences | ticket_automation/application/agent_execution.py:878-893 | two paths that the constructor takes and the decoder refuses |
| EvidenceCodec.OwnReferencesAreReadable | ticket_automation/application/agent_execution.py:414-438 | every reference below the attempts directory, as the layout makes them, can be read back |
| ArtifactPaths.StoredIsExact | ticket_automation/application/agent_execution.py:878-893 | the paths a reference can store are exactly the normal forms of accepted texts: relative, without backslash and traversal |
| ArtifactPaths.PosixFormIsNormal | ticket_automation/application/agent_execution.py:622-623 | the normal form keeps the components and is a fixed point |
| EvidenceCodec.Decode | ticket_automation/execution_evidence.py:268-375 | whatever is decoded satisfies every construction invariant, the artifact path rules included |
| EvidenceCodec.MetadataRoundTrip | ticket_automation/execution_evidence.py:439-486 | provider metadata nested to any depth survives |
| EvidenceCodec.CapabilitiesRoundTrip | ticket_automation/execution_evidence.py:236-265 | a capability set survives being written as a sorted list |
| PolicyRoundTrip.RoundTrip | ticket_automation/resolved_config.py:261-394 | reading a written policy gives its normal form, which passes every construction check again |
| PolicyRoundTrip.UnchangedIffSettled | ticket_automation/resolved_config.py:261-394 | a policy comes back unchanged if and only if its free text is trimmed and its providers are sorted |
| PolicyRoundTrip.DecodedIsStable | ticket_automation/resolved_config.py:297-394 | a policy that could be read is settled: writing and reading it once more changes nothing |
| PolicyRoundTrip.ReadPolicyRestrictsTasks | ticket_automation/resolved_config.py:593-722 | a policy that could be read has a read-only review off the network and two workspace-writing tasks, each served by one provider that declares everything its access requires |
| PolicyRoundTrip.ParseProviderPolicies | ticket_automation/resolved_config.py:639-677 | the loop's result does not depend on the order of the object's members |
| PolicyRoundTrip.ParseTaskPolicies | ticket_automation/resolved_config.py:593-636 | the tasks come in the order of their kinds, each exactly as its kind demands |
| PolicyRoundTrip.ProvidersRoundTrip | ticket_automation/resolved_config.py:639-677 | providers come back sorted by identity with stripped versions |
| PolicyCodec.TimeoutIsAcceptedIff | ticket_automation/resolved_config.py:748-778 | a whole-number timeout is accepted if and only if it is positive, below 2 to the 1024th and has no bit beyond the 53rd |
| PolicyCodec.TimeoutRoundTrip | ticket_automation/resolved_config.py:725-745 | a timeout survives int, float and int again |
| Binary64.ToFloatIsExactIff | ticket_automation/resolved_config.py:761-774 | float() keeps a whole number exactly under that condition |
| Binary64.ToFloatIsIdempotent | ticket_automation/resolved_config.py:761-774 | what float() returned it keeps |
| Binary64.RoundedIsNear | ticket_automation/resolved_config.py:761-774 | float() is off by at most half of the last bit it holds |
| Binary64.FirstLostNumber | ticket_automation/resolved_config.py:733-735 | 2 to the 53rd plus one would be rounded silently |
| Trimming.StripIsNormal | ticket_automation/resolved_config.py:963-969 | stripping trims, changes nothing exactly on trimmed text and keeps text from being blank |

## Left out

- Git, subprocesses, the file system, operating-system locks: captures, listings and write results are inputs.
- Ownership of a run, inode identity, links and path confinement: losing ownership is a crash; run_ownership.py is not part of this model.
- The repository lock: one controller works on a run at a time, which the lock guarantees; the commit fence of an attempt is per process.
- Prompts, tickets, reports, command line, configuration files, provider registration: no authority over state.
- Message wording: failure messages are carried where a check reads them; rejection reasons are a datatype.
- SHA-256: digests are injective.
- JSON text: the codecs work on values of section 3 of RFC 8259; record member names and free text are kept apart.
- Real numbers in JSON: exact reals; only whole-second timeouts are rounded to binary64.
- LifecycleTheorems.ReadyIsSafe: artifacts of a completed attempt stay as they were written; files damaged later are not modelled.
- QuietRuns.QuietRunsResume: a run in a writable state is refused on purpose, so a quiet run does not crash there.
- LifecycleController.Controller.Drive: a stage's updates of its running attempt come before its handler's step; a start recorder that fires after its stage returned is modelled by the commit of an attempt record.
- LifecycleController.Controller.constructor: creating the run directory, and a crash during it, come before the initial world.
- CapturePublication.Staging.PublishStream: the two streams of a process are independent; one is modelled.
- AttemptStore.NextIsFresh: a regular file with the name of an attempt's directory is not reserved, so creating that directory would fail.
- EnvironmentWalk.WalkIsExact: which markers make a directory an environment root is an input.
- Timestamps.TimestampRoundTrip: reads the written form in UTC only; other ISO 8601 spellings and offsets are not modelled.
- EvidenceCodec.EnvelopeRoundTrip: the constant schema version and format members, and the check that an artifact lies in its own attempt.
- PolicyRoundTrip.RoundTrip: capturing a policy, restoring provider policies and comparing installed assets are not modelled; paths are POSIX.
- ArtifactPaths.PathAccepted: a drive is any one character and a colon, as in Python 3.12 and later; 3.11 asks for a letter.
- EvaluateHandoffPolicy: the evidence lists of a rejection.
