/** Immutable task results: their consistency rules, and what a review verdict asks of the lifecycle. */
module TaskResults {
  import opened Models

  datatype ImplementationStatus = ImplementationCompleted | ImplementationBlocked

  datatype ReviewVerdict = PASS | CORRECTIONS_REQUIRED | HUMAN_REVIEW_REQUIRED

  datatype FindingDisposition = REQUIRED | ADVISORY | FOLLOW_UP

  datatype FindingScope = TICKET | IMPLEMENTATION | REPOSITORY_AUTHORITY | OUT_OF_SCOPE | AMBIGUOUS

  /** The characters that strip() removes. */
  predicate Space(c: char) {
    || c == ' ' || '\t' <= c <= '\r' || '\U{1c}' <= c <= '\U{1f}'
    || c in {'\U{85}', '\U{a0}', '\U{1680}', '\U{2028}', '\U{2029}', '\U{202f}', '\U{205f}', '\U{3000}'}
    || '\U{2000}' <= c <= '\U{200a}'
  }

  /** Whether strip() leaves nothing. */
  predicate Blank(s: string) {
    forall c :: c in s ==> Space(c)
  }

  predicate AllText(values: seq<string>) {
    forall v :: v in values ==> !Blank(v)
  }

  datatype TestRun = TestRun(command: string, outcome: string)
  {
    predicate Valid() {
      !Blank(command) && !Blank(outcome)
    }
  }

  datatype ImplementationResult = ImplementationResult(
    status: ImplementationStatus,
    summary: string,
    testsRun: seq<TestRun>,
    assumptions: seq<string>,
    knownIssues: seq<string>)
  {
    /** The constructor check. */
    predicate Valid() {
      && !Blank(summary) && (forall t :: t in testsRun ==> t.Valid())
      && AllText(assumptions) && AllText(knownIssues)
    }
  }

  datatype ReviewFinding = ReviewFinding(
    id: string,
    disposition: FindingDisposition,
    scope: FindingScope,
    title: string,
    description: string,
    evidence: string,
    requiredChange: string,
    acceptanceCriteria: seq<string>)
  {
    /** The constructor check. */
    predicate Valid() {
      && !Blank(id) && !Blank(title) && !Blank(description) && !Blank(evidence) && !Blank(requiredChange)
      && acceptanceCriteria != [] && AllText(acceptanceCriteria)
    }

    predicate CorrectionEligible() {
      disposition == REQUIRED && scope in {TICKET, IMPLEMENTATION}
    }
  }

  function RequiredFindings(findings: seq<ReviewFinding>): seq<ReviewFinding> {
    if findings == [] then []
    else (if findings[0].disposition == REQUIRED then [findings[0]] else []) + RequiredFindings(findings[1..])
  }

  lemma {:induction false} RequiredMembers(findings: seq<ReviewFinding>)
    ensures forall f :: f in RequiredFindings(findings) <==> f in findings && f.disposition == REQUIRED
  {
    if findings != [] {
      RequiredMembers(findings[1..]);
      assert findings == [findings[0]] + findings[1..];
    }
  }

  function EligibleFindings(findings: seq<ReviewFinding>): (r: seq<ReviewFinding>)
    ensures |r| <= |findings|
    ensures |r| == |findings| <==> forall f :: f in findings ==> f.CorrectionEligible()
    ensures |r| == |findings| ==> r == findings
  {
    if findings == [] then []
    else
      var rest := EligibleFindings(findings[1..]);
      assert findings == [findings[0]] + findings[1..];
      (if findings[0].CorrectionEligible() then [findings[0]] else []) + rest
  }

  datatype ReviewResult = ReviewResult(verdict: ReviewVerdict, summary: string, findings: seq<ReviewFinding>)
  {
    /** Every finding is valid and the verdict agrees with the required ones, as the constructors demand. */
    predicate Valid() {
      && !Blank(summary) && (forall f :: f in findings ==> f.Valid())
      && (verdict == PASS ==> RequiredFindings(findings) == [])
      && (verdict == CORRECTIONS_REQUIRED ==> RequiredFindings(findings) != [])
    }
  }

  /** _finish_valid_review_result: a correction needs every required finding to be eligible. */
  function ReviewOutcome(r: ReviewResult): StageOutcome {
    match r.verdict
    case PASS => StageCompleted
    case CORRECTIONS_REQUIRED =>
      var required := RequiredFindings(r.findings);
      if |EligibleFindings(required)| == |required| then CorrectionRequired else StageHumanRequired
    case HUMAN_REVIEW_REQUIRED => StageHumanRequired
  }
}
