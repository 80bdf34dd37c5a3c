/** Correction causes and the planner that reads them back from the attempt ledger. */
module Corrections {
  import opened Wrappers
  import opened Models
  import opened TaskResults
  import opened Verification
  import opened Attempts

  datatype Cause =
    | VerificationCause(gateName: string, command: seq<string>, exitCode: Option<int>, stdoutExcerpt: string,
        stderrExcerpt: string)
    | ReviewCause(findingId: string, summary: string, details: string, findingEvidence: string,
        requiredChange: string, acceptanceCriteria: seq<string>, scope: FindingScope)
  {
    /** The checks in the two cause constructors. */
    predicate Valid() {
      match this
      case VerificationCause(gateName, command, _, _, _) =>
        !Blank(gateName) && command != [] && forall item :: item in command ==> item != ""
      case ReviewCause(findingId, summary, details, findingEvidence, requiredChange, criteria, scope) =>
        && !Blank(findingId) && !Blank(summary) && !Blank(details) && !Blank(findingEvidence) && !Blank(requiredChange)
        && criteria != [] && (forall c :: c in criteria ==> !Blank(c))
        && scope in {TICKET, IMPLEMENTATION}
    }
  }

  datatype CorrectionError = NoCause | MixedCauses | InvalidCause | WrongVerdict | IneligibleFinding | InvalidSource

  /** CorrectionCauseSet: the causes of one round, never empty and of one source type. */
  function CauseSet(causes: seq<Cause>): Result<seq<Cause>, CorrectionError> {
    if causes == [] then Err(NoCause)
    else if exists i, j :: 0 <= i < |causes| && 0 <= j < |causes| && causes[i].ReviewCause? && !causes[j].ReviewCause? then
      Err(MixedCauses)
    else Ok(causes)
  }

  function FailureCause(f: VerificationFailure): Cause {
    VerificationCause(f.gateName, f.command, f.exitCode, f.stdoutExcerpt, f.stderrExcerpt)
  }

  function FailureCauses(failures: seq<VerificationFailure>): (r: seq<Cause>)
    ensures |r| == |failures| && forall i :: 0 <= i < |r| ==> r[i] == FailureCause(failures[i])
  {
    if failures == [] then [] else [FailureCause(failures[0])] + FailureCauses(failures[1..])
  }

  function FindingCause(f: ReviewFinding): Cause {
    ReviewCause(f.id, f.title, f.description, f.evidence, f.requiredChange, f.acceptanceCriteria, f.scope)
  }

  function FindingCauses(findings: seq<ReviewFinding>): (r: seq<Cause>)
    ensures |r| == |findings| && forall i :: 0 <= i < |r| ==> r[i] == FindingCause(findings[i])
  {
    if findings == [] then [] else [FindingCause(findings[0])] + FindingCauses(findings[1..])
  }

  predicate AllValid(causes: seq<Cause>) {
    forall i :: 0 <= i < |causes| ==> causes[i].Valid()
  }

  function PlanVerification(failures: seq<VerificationFailure>): Result<seq<Cause>, CorrectionError> {
    if failures == [] then Err(NoCause)
    else if !AllValid(FailureCauses(failures)) then Err(InvalidCause)
    else CauseSet(FailureCauses(failures))
  }

  function PlanReview(r: ReviewResult): Result<seq<Cause>, CorrectionError> {
    if r.verdict != CORRECTIONS_REQUIRED then Err(WrongVerdict)
    else
      var required := RequiredFindings(r.findings);
      var eligible := EligibleFindings(required);
      if |eligible| != |required| then Err(IneligibleFinding)
      else if !AllValid(FindingCauses(eligible)) then Err(InvalidCause)
      else CauseSet(FindingCauses(eligible))
  }

  /** read_verification_failures: a passing round has none, a failed one must name them. */
  function ReadFailures(a: Attempt): Result<seq<VerificationFailure>, CorrectionError> {
    if a.result.None? then Ok([])
    else if !a.result.value.RoundArtifact? then Err(InvalidSource)
    else
      var round := a.result.value.round;
      if !round.status.Fail? then Ok([])
      else if round.failures == [] || !AllValid(FailureCauses(round.failures)) then Err(InvalidSource)
      else Ok(round.failures)
  }

  function LatestFailures(ledger: seq<Attempt>): Result<seq<VerificationFailure>, CorrectionError> {
    var a := Latest(ledger, {VerifyingPhase}, {Completed});
    if a.None? then Ok([]) else ReadFailures(a.value)
  }

  function LatestReview(ledger: seq<Attempt>): Result<Option<ReviewResult>, CorrectionError> {
    var a := Latest(ledger, {ReviewingPhase}, {Completed});
    if a.None? || a.value.result.None? then Ok(None)
    else if !a.value.result.value.ReviewArtifact? then Err(InvalidSource)
    else Ok(Some(a.value.result.value.review))
  }

  /** plan_pending_correction. */
  function PlanPending(ledger: seq<Attempt>): Result<seq<Cause>, CorrectionError> {
    var failures := LatestFailures(ledger);
    if failures.Err? then Err(failures.error)
    else if failures.value != [] then PlanVerification(failures.value)
    else
      var review := LatestReview(ledger);
      if review.Err? then Err(review.error)
      else if review.value.Some? then PlanReview(review.value.value)
      else Err(NoCause)
  }

  // ----- the source of a correction -----

  /** The attempt's own decision was CORRECTION_REQUIRED, and its artifact says why. */
  predicate AsksForCorrection(a: Attempt) {
    && a.status.Completed? && a.result.Some?
    && match a.phase
       case VerifyingPhase =>
         a.result.value.RoundArtifact? && a.result.value.round.status.Fail? && a.result.value.round.failures != []
         && AllValid(FailureCauses(a.result.value.round.failures))
       case ReviewingPhase =>
         a.result.value.ReviewArtifact? && a.result.value.review.Valid()
         && ReviewOutcome(a.result.value.review).CorrectionRequired?
       case _ => false
  }

  /** The last completed verification left a round that asks for nothing. */
  predicate LatestRoundPassed(ledger: seq<Attempt>) {
    var a := Latest(ledger, {VerifyingPhase}, {Completed});
    a.Some? && a.value.result.Some? && a.value.result.value.RoundArtifact? && a.value.result.value.round.status.Pass?
  }

  /** What a correction must address, read off the attempt that asked for it: every failure, or every required finding. */
  function CausesOf(a: Attempt): seq<Cause>
    requires AsksForCorrection(a)
  {
    if a.phase.VerifyingPhase? then FailureCauses(a.result.value.round.failures)
    else FindingCauses(RequiredFindings(a.result.value.review.findings))
  }

  lemma RequiredCausesAreValid(r: ReviewResult)
    requires r.Valid() && ReviewOutcome(r).CorrectionRequired?
    ensures AllValid(FindingCauses(RequiredFindings(r.findings)))
  {
    RequiredMembers(r.findings);
    var required := RequiredFindings(r.findings);
    forall i | 0 <= i < |required| ensures FindingCause(required[i]).Valid() {
      assert required[i] in required;
      assert required[i].Valid() && required[i].CorrectionEligible();
    }
  }

  lemma OneSourceType(causes: seq<Cause>, reviewed: bool)
    requires causes != [] && forall i :: 0 <= i < |causes| ==> causes[i].ReviewCause? == reviewed
    ensures CauseSet(causes) == Ok(causes)
  {
  }

  /** One cause for each recorded failure, in order, and what it says of it. */
  predicate AddressesFailures(plan: seq<Cause>, failures: seq<VerificationFailure>) {
    && |plan| == |failures|
    && forall i :: 0 <= i < |plan| ==>
         && plan[i].VerificationCause?
         && plan[i].gateName == failures[i].gateName && plan[i].command == failures[i].command
         && plan[i].exitCode == failures[i].exitCode && plan[i].stdoutExcerpt == failures[i].stdoutExcerpt
         && plan[i].stderrExcerpt == failures[i].stderrExcerpt
  }

  predicate Increasing(indices: seq<nat>) {
    forall i, j :: 0 <= i < j < |indices| ==> indices[i] < indices[j]
  }

  /** The indices of the required findings, in order. */
  ghost predicate RequiredIndices(findings: seq<ReviewFinding>, indices: seq<nat>) {
    && Increasing(indices)
    && forall k :: k in indices <==> 0 <= k < |findings| && findings[k].disposition == REQUIRED
  }

  /** One cause for each required finding, in order, and what it says of it. */
  ghost predicate AddressesFindings(plan: seq<Cause>, findings: seq<ReviewFinding>) {
    exists indices: seq<nat> :: RequiredIndices(findings, indices) && |plan| == |indices|
      && forall i :: 0 <= i < |plan| ==> Describes(plan[i], findings, indices[i])
  }

  predicate Describes(c: Cause, findings: seq<ReviewFinding>, k: nat) {
    && k < |findings| && c.ReviewCause?
    && c.findingId == findings[k].id && c.summary == findings[k].title && c.details == findings[k].description
    && c.findingEvidence == findings[k].evidence && c.requiredChange == findings[k].requiredChange
    && c.acceptanceCriteria == findings[k].acceptanceCriteria && c.scope == findings[k].scope
  }

  /** The plan says what the attempt's artifact says, field by field. */
  ghost predicate Addresses(plan: seq<Cause>, source: Attempt) {
    && source.result.Some?
    && match source.result.value
       case RoundArtifact(round) => AddressesFailures(plan, round.failures)
       case ReviewArtifact(review) => AddressesFindings(plan, review.findings)
       case _ => false
  }

  function Positions(findings: seq<ReviewFinding>, base: nat): (r: seq<nat>)
    ensures |r| == |RequiredFindings(findings)|
  {
    if findings == [] then []
    else (if findings[0].disposition == REQUIRED then [base] else []) + Positions(findings[1..], base + 1)
  }

  lemma {:induction false} PositionsAre(findings: seq<ReviewFinding>, base: nat, k: nat)
    ensures k in Positions(findings, base) <==>
      base <= k < base + |findings| && findings[k - base].disposition == REQUIRED
  {
    if findings != [] {
      PositionsAre(findings[1..], base + 1, k);
      if base < k < base + |findings| {
        assert findings[1..][k - base - 1] == findings[k - base];
      }
    }
  }

  lemma {:induction false} PositionsIncrease(findings: seq<ReviewFinding>, base: nat)
    ensures Increasing(Positions(findings, base)) && forall k :: k in Positions(findings, base) ==> base <= k
  {
    if findings != [] {
      PositionsIncrease(findings[1..], base + 1);
      var rest := Positions(findings[1..], base + 1);
      forall j | 0 <= j < |rest| ensures base < rest[j] {
        assert rest[j] in rest;
      }
    }
  }

  lemma PositionsStep(findings: seq<ReviewFinding>, base: nat)
    requires findings != []
    ensures var rest, required := Positions(findings[1..], base + 1), RequiredFindings(findings[1..]);
      if findings[0].disposition == REQUIRED then
        Positions(findings, base) == [base] + rest && RequiredFindings(findings) == [findings[0]] + required
      else Positions(findings, base) == rest && RequiredFindings(findings) == required
  {
  }

  lemma {:induction false} PositionsFind(findings: seq<ReviewFinding>, base: nat, i: nat)
    requires i < |Positions(findings, base)|
    ensures base <= Positions(findings, base)[i] < base + |findings|
    ensures RequiredFindings(findings)[i] == findings[Positions(findings, base)[i] - base]
    decreases |findings|
  {
    if findings != [] {
      hide Positions, RequiredFindings;
      PositionsStep(findings, base);
      var rest, first := findings[1..], findings[0].disposition == REQUIRED;
      if !first || i > 0 {
        var j := if first then i - 1 else i;
        PositionsFind(rest, base + 1, j);
        var k := Positions(rest, base + 1)[j];
        assert Positions(findings, base)[i] == k;
        assert RequiredFindings(findings)[i] == RequiredFindings(rest)[j];
        assert rest[k - base - 1] == findings[k - base];
      }
    }
  }

  lemma RequiredInOrder(findings: seq<ReviewFinding>)
    ensures RequiredIndices(findings, Positions(findings, 0))
  {
    PositionsIncrease(findings, 0);
    forall k: nat ensures k in Positions(findings, 0) <==> 0 <= k < |findings| && findings[k].disposition == REQUIRED {
      PositionsAre(findings, 0, k);
    }
  }

  lemma CausesAddress(source: Attempt)
    requires AsksForCorrection(source)
    ensures Addresses(CausesOf(source), source)
  {
    if source.phase.ReviewingPhase? {
      var findings := source.result.value.review.findings;
      var indices := Positions(findings, 0);
      var plan := FindingCauses(RequiredFindings(findings));
      RequiredInOrder(findings);
      forall i | 0 <= i < |plan| ensures Describes(plan[i], findings, indices[i]) {
        PositionsFind(findings, 0, i);
      }
    }
  }

  /**
   The planner never raises and never picks stale causes: if an attempt asked for a correction and no later
   completed attempt of its phase exists, and a review asked only after a passing round, then the plan is
   exactly what that attempt asked for, field by field.
   */
  lemma PlanIsExact(ledger: seq<Attempt>, source: Attempt)
    requires AsksForCorrection(source)
    requires Latest(ledger, {source.phase}, {Completed}) == Some(source)
    requires source.phase.ReviewingPhase? ==> LatestRoundPassed(ledger)
    ensures PlanPending(ledger) == Ok(CausesOf(source)) && Addresses(PlanPending(ledger).value, source)
  {
    CausesAddress(source);
    if source.phase.VerifyingPhase? {
      OneSourceType(FailureCauses(source.result.value.round.failures), false);
    } else {
      var review := source.result.value.review;
      RequiredCausesAreValid(review);
      OneSourceType(FindingCauses(RequiredFindings(review.findings)), true);
    }
  }
}
