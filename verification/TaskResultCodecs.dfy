/** The JSON codecs of the typed task results. */
module TaskResultCodecs {
  import opened Wrappers
  import opened TaskResults
  import opened JsonValues

  function ImplementationStatusNames(): seq<(ImplementationStatus, string)> {
    [(ImplementationCompleted, "COMPLETED"), (ImplementationBlocked, "BLOCKED")]
  }

  function VerdictNames(): seq<(ReviewVerdict, string)> {
    [(PASS, "PASS"), (CORRECTIONS_REQUIRED, "CORRECTIONS_REQUIRED"), (HUMAN_REVIEW_REQUIRED, "HUMAN_REVIEW_REQUIRED")]
  }

  function DispositionNames(): seq<(FindingDisposition, string)> {
    [(REQUIRED, "REQUIRED"), (ADVISORY, "ADVISORY"), (FOLLOW_UP, "FOLLOW_UP")]
  }

  function ScopeNames(): seq<(FindingScope, string)> {
    [(TICKET, "TICKET"), (IMPLEMENTATION, "IMPLEMENTATION"), (REPOSITORY_AUTHORITY, "REPOSITORY_AUTHORITY"),
     (OUT_OF_SCOPE, "OUT_OF_SCOPE"), (AMBIGUOUS, "AMBIGUOUS")]
  }

  lemma ImplementationStatusTable(x: ImplementationStatus)
    ensures exists i :: 0 <= i < |ImplementationStatusNames()| && ImplementationStatusNames()[i].0 == x
  {
    var k := if x.ImplementationCompleted? then 0 else 1;
    assert ImplementationStatusNames()[k].0 == x;
  }

  lemma ImplementationStatusRoundTrip(x: ImplementationStatus)
    ensures exists i :: 0 <= i < |ImplementationStatusNames()| && ImplementationStatusNames()[i].0 == x
    ensures DecodeEnum(ImplementationStatusNames(), EncodeEnum(ImplementationStatusNames(), x)) == Some(x)
  {
    ImplementationStatusTable(x);
    ImplementationStatusFaithful();
    hide ImplementationStatusNames, DecodeEnum, EncodeEnum, Faithful;
    EnumRoundTrip(ImplementationStatusNames(), x);
  }

  lemma ImplementationStatusFaithful()
    ensures Faithful(ImplementationStatusNames())
  {
    hide Blank, Space;
    forall i | 0 <= i < |ImplementationStatusNames()| ensures !Blank(ImplementationStatusNames()[i].1) {
      ImplementationStatusText(i);
    }
    forall i, j | 0 <= i < j < |ImplementationStatusNames()| ensures ImplementationStatusNames()[i].1 != ImplementationStatusNames()[j].1 {
      assert ImplementationStatusNames()[i].1[0] != ImplementationStatusNames()[j].1[0];
    }
  }

  lemma ImplementationStatusText(i: nat)
    requires i < |ImplementationStatusNames()|
    ensures !Blank(ImplementationStatusNames()[i].1)
  {
    NotBlank(ImplementationStatusNames()[i].1);
  }

  lemma VerdictTable(x: ReviewVerdict)
    ensures exists i :: 0 <= i < |VerdictNames()| && VerdictNames()[i].0 == x
  {
    var k := if x.PASS? then 0 else if x.CORRECTIONS_REQUIRED? then 1 else 2;
    assert VerdictNames()[k].0 == x;
  }

  lemma VerdictRoundTrip(x: ReviewVerdict)
    ensures exists i :: 0 <= i < |VerdictNames()| && VerdictNames()[i].0 == x
    ensures DecodeEnum(VerdictNames(), EncodeEnum(VerdictNames(), x)) == Some(x)
  {
    VerdictTable(x);
    VerdictFaithful();
    hide VerdictNames, DecodeEnum, EncodeEnum, Faithful;
    EnumRoundTrip(VerdictNames(), x);
  }

  lemma VerdictFaithful()
    ensures Faithful(VerdictNames())
  {
    hide Blank, Space;
    forall i | 0 <= i < |VerdictNames()| ensures !Blank(VerdictNames()[i].1) {
      VerdictText(i);
    }
    forall i, j | 0 <= i < j < |VerdictNames()| ensures VerdictNames()[i].1 != VerdictNames()[j].1 {
      assert VerdictNames()[i].1[0] != VerdictNames()[j].1[0];
    }
  }

  lemma VerdictText(i: nat)
    requires i < |VerdictNames()|
    ensures !Blank(VerdictNames()[i].1)
  {
    NotBlank(VerdictNames()[i].1);
  }

  lemma DispositionTable(x: FindingDisposition)
    ensures exists i :: 0 <= i < |DispositionNames()| && DispositionNames()[i].0 == x
  {
    var k := if x.REQUIRED? then 0 else if x.ADVISORY? then 1 else 2;
    assert DispositionNames()[k].0 == x;
  }

  lemma DispositionRoundTrip(x: FindingDisposition)
    ensures exists i :: 0 <= i < |DispositionNames()| && DispositionNames()[i].0 == x
    ensures DecodeEnum(DispositionNames(), EncodeEnum(DispositionNames(), x)) == Some(x)
  {
    DispositionTable(x);
    DispositionFaithful();
    hide DispositionNames, DecodeEnum, EncodeEnum, Faithful;
    EnumRoundTrip(DispositionNames(), x);
  }

  lemma DispositionFaithful()
    ensures Faithful(DispositionNames())
  {
    hide Blank, Space;
    forall i | 0 <= i < |DispositionNames()| ensures !Blank(DispositionNames()[i].1) {
      DispositionText(i);
    }
    forall i, j | 0 <= i < j < |DispositionNames()| ensures DispositionNames()[i].1 != DispositionNames()[j].1 {
      assert DispositionNames()[i].1[0] != DispositionNames()[j].1[0];
    }
  }

  lemma DispositionText(i: nat)
    requires i < |DispositionNames()|
    ensures !Blank(DispositionNames()[i].1)
  {
    NotBlank(DispositionNames()[i].1);
  }

  lemma ScopeTable(x: FindingScope)
    ensures exists i :: 0 <= i < |ScopeNames()| && ScopeNames()[i].0 == x
  {
    var k := match x { case TICKET => 0 case IMPLEMENTATION => 1 case REPOSITORY_AUTHORITY => 2 case OUT_OF_SCOPE => 3 case AMBIGUOUS => 4 };
    assert ScopeNames()[k].0 == x;
  }

  lemma ScopeRoundTrip(x: FindingScope)
    ensures exists i :: 0 <= i < |ScopeNames()| && ScopeNames()[i].0 == x
    ensures DecodeEnum(ScopeNames(), EncodeEnum(ScopeNames(), x)) == Some(x)
  {
    ScopeTable(x);
    ScopeFaithful();
    hide ScopeNames, DecodeEnum, EncodeEnum, Faithful;
    EnumRoundTrip(ScopeNames(), x);
  }

  lemma ScopeFaithful()
    ensures Faithful(ScopeNames())
  {
    hide Blank, Space;
    forall i | 0 <= i < |ScopeNames()| ensures !Blank(ScopeNames()[i].1) {
      ScopeText(i);
    }
    forall i, j | 0 <= i < j < |ScopeNames()| ensures ScopeNames()[i].1 != ScopeNames()[j].1 {
      assert ScopeNames()[i].1[0] != ScopeNames()[j].1[0];
    }
  }

  lemma ScopeText(i: nat)
    requires i < |ScopeNames()|
    ensures !Blank(ScopeNames()[i].1)
  {
    NotBlank(ScopeNames()[i].1);
  }

  // ----- implementation results -----

  const TEST_FIELDS := {COMMAND, RESULT}

  function EncodeTest(t: TestRun): Json {
    Record(map[COMMAND := Str(t.command), RESULT := Str(t.outcome)])
  }

  function DecodeTest(v: Json): Option<TestRun> {
    var fields :- ExactObject(v, TEST_FIELDS);
    var command :- DecodeText(fields[COMMAND]);
    var outcome :- DecodeText(fields[RESULT]);
    Some(TestRun(command, outcome))
  }

  function EncodeTests(tests: seq<TestRun>): seq<Json> {
    if tests == [] then [] else [EncodeTest(tests[0])] + EncodeTests(tests[1..])
  }

  function DecodeTests(items: seq<Json>): Option<seq<TestRun>> {
    if items == [] then Some([])
    else
      var first :- DecodeTest(items[0]);
      var rest :- DecodeTests(items[1..]);
      Some([first] + rest)
  }

  const IMPLEMENTATION_FIELDS := {STATUS, SUMMARY, TESTS_RUN, ASSUMPTIONS, KNOWN_ISSUES}

  function EncodeImplementation(r: ImplementationResult): Json {
    ImplementationStatusTable(r.status);
    Record(map[
      STATUS := EncodeEnum(ImplementationStatusNames(), r.status),
      SUMMARY := Str(r.summary),
      TESTS_RUN := Arr(EncodeTests(r.testsRun)),
      ASSUMPTIONS := Arr(Texts(r.assumptions)),
      KNOWN_ISSUES := Arr(Texts(r.knownIssues))])
  }

  function DecodeImplementation(v: Json): Option<ImplementationResult> {
    var fields :- ExactObject(v, IMPLEMENTATION_FIELDS);
    if !fields[TESTS_RUN].Arr? then None
    else
      var tests :- DecodeTests(fields[TESTS_RUN].items);
      var status :- DecodeEnum(ImplementationStatusNames(), fields[STATUS]);
      var summary :- DecodeText(fields[SUMMARY]);
      var assumptions :- DecodeTexts(fields[ASSUMPTIONS], 0);
      var issues :- DecodeTexts(fields[KNOWN_ISSUES], 0);
      Some(ImplementationResult(status, summary, tests, assumptions, issues))
  }

  lemma TestRoundTrip(t: TestRun)
    requires t.Valid()
    ensures DecodeTest(EncodeTest(t)) == Some(t)
  {
    var fields := map[COMMAND := Str(t.command), RESULT := Str(t.outcome)];
    assert fields.Keys == TEST_FIELDS;
    RecordIsExact(fields);
  }

  lemma {:induction false} TestsRoundTrip(tests: seq<TestRun>)
    requires forall t :: t in tests ==> t.Valid()
    ensures DecodeTests(EncodeTests(tests)) == Some(tests)
  {
    if tests != [] {
      TestRoundTrip(tests[0]);
      TestsRoundTrip(tests[1..]);
      assert EncodeTests(tests)[1..] == EncodeTests(tests[1..]);
      assert tests == [tests[0]] + tests[1..];
    }
  }

  /** Decoding an encoded implementation result returns it. */
  lemma ImplementationRoundTrip(r: ImplementationResult)
    requires r.Valid()
    ensures DecodeImplementation(EncodeImplementation(r)) == Some(r)
  {
    hide ExactObject, Record, DecodeEnum, EncodeEnum, TextsOf, Texts, EncodeTests, DecodeTests;
    ImplementationStatusRoundTrip(r.status);
    var fields := map[
      STATUS := EncodeEnum(ImplementationStatusNames(), r.status),
      SUMMARY := Str(r.summary),
      TESTS_RUN := Arr(EncodeTests(r.testsRun)),
      ASSUMPTIONS := Arr(Texts(r.assumptions)),
      KNOWN_ISSUES := Arr(Texts(r.knownIssues))];
    assert fields.Keys == IMPLEMENTATION_FIELDS;
    RecordIsExact(fields);
    TestsRoundTrip(r.testsRun);
    TextsRoundTrip(r.assumptions);
    TextsRoundTrip(r.knownIssues);
  }

  // ----- review results -----

  const FINDING_FIELDS :=
    {ID, DISPOSITION, SCOPE_RELATION, TITLE, DESCRIPTION, EVIDENCE, REQUIRED_CHANGE, ACCEPTANCE_CRITERIA}

  function FindingFields(f: ReviewFinding): map<FieldName, Json> {
    DispositionTable(f.disposition);
    ScopeTable(f.scope);
    map[
      ID := Str(f.id),
      DISPOSITION := EncodeEnum(DispositionNames(), f.disposition),
      SCOPE_RELATION := EncodeEnum(ScopeNames(), f.scope),
      TITLE := Str(f.title),
      DESCRIPTION := Str(f.description),
      EVIDENCE := Str(f.evidence),
      REQUIRED_CHANGE := Str(f.requiredChange),
      ACCEPTANCE_CRITERIA := Arr(Texts(f.acceptanceCriteria))]
  }

  function EncodeFinding(f: ReviewFinding): Json {
    Record(FindingFields(f))
  }

  function DecodeFinding(v: Json): Option<ReviewFinding> {
    var fields :- ExactObject(v, FINDING_FIELDS);
    var id :- DecodeText(fields[ID]);
    var disposition :- DecodeEnum(DispositionNames(), fields[DISPOSITION]);
    var scope :- DecodeEnum(ScopeNames(), fields[SCOPE_RELATION]);
    var title :- DecodeText(fields[TITLE]);
    var description :- DecodeText(fields[DESCRIPTION]);
    var evidence :- DecodeText(fields[EVIDENCE]);
    var change :- DecodeText(fields[REQUIRED_CHANGE]);
    var criteria :- DecodeTexts(fields[ACCEPTANCE_CRITERIA], 1);
    Some(ReviewFinding(id, disposition, scope, title, description, evidence, change, criteria))
  }

  function EncodeFindings(findings: seq<ReviewFinding>): seq<Json> {
    if findings == [] then [] else [EncodeFinding(findings[0])] + EncodeFindings(findings[1..])
  }

  function DecodeFindings(items: seq<Json>): Option<seq<ReviewFinding>> {
    if items == [] then Some([])
    else
      var first :- DecodeFinding(items[0]);
      var rest :- DecodeFindings(items[1..]);
      Some([first] + rest)
  }

  const REVIEW_FIELDS := {VERDICT, SUMMARY, FINDINGS}

  function EncodeReview(r: ReviewResult): Json {
    VerdictTable(r.verdict);
    Record(map[
      VERDICT := EncodeEnum(VerdictNames(), r.verdict),
      SUMMARY := Str(r.summary),
      FINDINGS := Arr(EncodeFindings(r.findings))])
  }

  /** The result's own constructor has the last word: a verdict that contradicts its findings is refused. */
  function DecodeReview(v: Json): (d: Option<ReviewResult>)
    ensures d.Some? ==> d.value.Valid()
  {
    var fields :- ExactObject(v, REVIEW_FIELDS);
    if !fields[FINDINGS].Arr? then None
    else
      var findings :- DecodeFindings(fields[FINDINGS].items);
      var verdict :- DecodeEnum(VerdictNames(), fields[VERDICT]);
      var summary :- DecodeText(fields[SUMMARY]);
      var r := ReviewResult(verdict, summary, findings);
      if r.Valid() then Some(r) else None
  }

  lemma FindingRoundTrip(f: ReviewFinding)
    requires f.Valid()
    ensures DecodeFinding(EncodeFinding(f)) == Some(f)
  {
    hide ExactObject, Record, DecodeEnum, EncodeEnum, TextsOf, Texts;
    DispositionRoundTrip(f.disposition);
    ScopeRoundTrip(f.scope);
    var fields := FindingFields(f);
    assert fields.Keys == FINDING_FIELDS;
    RecordIsExact(fields);
    TextsRoundTrip(f.acceptanceCriteria);
  }

  lemma {:induction false} FindingsRoundTrip(findings: seq<ReviewFinding>)
    requires forall f :: f in findings ==> f.Valid()
    ensures DecodeFindings(EncodeFindings(findings)) == Some(findings)
  {
    hide EncodeFinding, DecodeFinding;
    if findings != [] {
      FindingRoundTrip(findings[0]);
      FindingsRoundTrip(findings[1..]);
      assert EncodeFindings(findings)[1..] == EncodeFindings(findings[1..]);
      assert findings == [findings[0]] + findings[1..];
    }
  }

  /** Decoding an encoded review result returns it. */
  lemma ReviewRoundTrip(r: ReviewResult)
    requires r.Valid()
    ensures DecodeReview(EncodeReview(r)) == Some(r)
  {
    hide ExactObject, Record, DecodeEnum, EncodeEnum, EncodeFindings, DecodeFindings;
    VerdictRoundTrip(r.verdict);
    var fields := map[
      VERDICT := EncodeEnum(VerdictNames(), r.verdict),
      SUMMARY := Str(r.summary),
      FINDINGS := Arr(EncodeFindings(r.findings))];
    assert fields.Keys == REVIEW_FIELDS;
    RecordIsExact(fields);
    FindingsRoundTrip(r.findings);
  }
}
