/** The codec of the neutral execution-evidence envelope. */
module EvidenceCodec {
  import opened Wrappers
  import opened TaskResults
  import opened Attempts
  import opened AgentExecutions
  import opened JsonValues
  import opened TaskResultCodecs
  import opened ArtifactPaths
  import opened Timestamps
  import opened Trimming

  // ----- provider metadata -----

  /** Immutable provider metadata: scalars, tuples and mappings, nested to any depth. */
  datatype Metadata =
    | MetaNull
    | MetaBool(bool)
    | MetaInt(int)
    | MetaReal(real)
    | MetaText(string)
    | MetaTuple(elements: seq<Metadata>)
    | MetaMapping(entries: map<string, Metadata>)

  function MetadataToJson(m: Metadata): Json
    decreases m, 1
  {
    match m
    case MetaNull => Null
    case MetaBool(b) => Bool(b)
    case MetaInt(i) => Int(i)
    case MetaReal(r) => Real(r)
    case MetaText(s) => Str(s)
    case MetaTuple(elements) =>
      Arr(seq(|elements|, i requires 0 <= i < |elements| => MetadataToJson(elements[i])))
    case MetaMapping(_) => Obj(EntriesToJson(m))
  }

  function EntriesToJson(m: Metadata): map<Key, Json>
    requires m.MetaMapping?
    decreases m, 0
  {
    map k | k in m.entries :: Free(k) := MetadataToJson(m.entries[k])
  }

  function DecodeMetadata(v: Json): Option<Metadata>
    decreases v, 1
  {
    match v
    case Null => Some(MetaNull)
    case Bool(b) => Some(MetaBool(b))
    case Int(i) => Some(MetaInt(i))
    case Real(r) => Some(MetaReal(r))
    case Str(s) => Some(MetaText(s))
    case Arr(items) =>
      if forall i :: 0 <= i < |items| ==> DecodeMetadata(items[i]).Some?
      then Some(MetaTuple(seq(|items|, i requires 0 <= i < |items| => DecodeMetadata(items[i]).value)))
      else None
    case Obj(members) =>
      if forall k :: k in members ==> k.Free? && DecodeMetadata(members[k]).Some? then Some(MetaMapping(DecodeEntries(v)))
      else None
  }

  function DecodeEntries(v: Json): map<string, Metadata>
    requires v.Obj?
    decreases v, 0
  {
    map k | k in v.members && k.Free? && DecodeMetadata(v.members[k]).Some? :: k.text := DecodeMetadata(v.members[k]).value
  }

  /** Nested metadata survives the trip through JSON. */
  lemma {:induction false} MetadataRoundTrip(m: Metadata)
    ensures DecodeMetadata(MetadataToJson(m)) == Some(m)
  {
    match m
    case MetaTuple(elements) =>
      forall i | 0 <= i < |elements| ensures DecodeMetadata(MetadataToJson(elements[i])) == Some(elements[i]) {
        MetadataRoundTrip(elements[i]);
      }
      TupleRoundTrip(elements);
    case MetaMapping(entries) =>
      forall k | k in entries ensures DecodeMetadata(MetadataToJson(entries[k])) == Some(entries[k]) {
        MetadataRoundTrip(entries[k]);
      }
      MappingRoundTrip(entries);
    case _ =>
  }

  lemma TupleRoundTrip(elements: seq<Metadata>)
    requires forall i :: 0 <= i < |elements| ==> DecodeMetadata(MetadataToJson(elements[i])) == Some(elements[i])
    ensures DecodeMetadata(MetadataToJson(MetaTuple(elements))) == Some(MetaTuple(elements))
  {
    var items := MetadataToJson(MetaTuple(elements)).items;
    assert forall i :: 0 <= i < |items| ==> items[i] == MetadataToJson(elements[i]);
    var decoded := seq(|items|, i requires 0 <= i < |items| => DecodeMetadata(items[i]).value);
    assert decoded == elements;
  }

  lemma MemberOrigin(m: Metadata, k: Key)
    requires m.MetaMapping? && k in EntriesToJson(m)
    ensures k.Free? && k.text in m.entries && EntriesToJson(m)[k] == MetadataToJson(m.entries[k.text])
  {
  }

  lemma DecodedMember(m: Metadata, k: Key)
    requires m.MetaMapping? && k in EntriesToJson(m)
    requires forall t :: t in m.entries ==> DecodeMetadata(MetadataToJson(m.entries[t])) == Some(m.entries[t])
    ensures k.Free? && k.text in m.entries && DecodeMetadata(EntriesToJson(m)[k]) == Some(m.entries[k.text])
  {
    hide DecodeMetadata;
    MemberOrigin(m, k);
  }

  lemma EntryIsMember(m: Metadata, t: string)
    requires m.MetaMapping? && t in m.entries
    ensures Free(t) in EntriesToJson(m)
  {
  }

  lemma DecodedEntries(m: Metadata)
    requires m.MetaMapping?
    requires forall k :: k in EntriesToJson(m) ==>
      k.Free? && k.text in m.entries && DecodeMetadata(EntriesToJson(m)[k]) == Some(m.entries[k.text])
    ensures DecodeEntries(Obj(EntriesToJson(m))) == m.entries
  {
    hide DecodeMetadata, EntriesToJson;
    var decoded := DecodeEntries(Obj(EntriesToJson(m)));
    forall t | t in m.entries ensures t in decoded && decoded[t] == m.entries[t] {
      EntryIsMember(m, t);
    }
  }

  lemma MappingRoundTrip(entries: map<string, Metadata>)
    requires forall k :: k in entries ==> DecodeMetadata(MetadataToJson(entries[k])) == Some(entries[k])
    ensures DecodeMetadata(MetadataToJson(MetaMapping(entries))) == Some(MetaMapping(entries))
  {
    hide EntriesToJson, DecodeEntries;
    var m := MetaMapping(entries);
    forall k | k in EntriesToJson(m)
      ensures k.Free? && k.text in m.entries && DecodeMetadata(EntriesToJson(m)[k]) == Some(m.entries[k.text])
    {
      DecodedMember(m, k);
    }
    DecodedEntries(m);
    MappingDecodes(m);
  }

  lemma MappingDecodes(m: Metadata)
    requires m.MetaMapping?
    requires forall k :: k in EntriesToJson(m) ==> k.Free? && DecodeMetadata(EntriesToJson(m)[k]).Some?
    ensures DecodeMetadata(MetadataToJson(m)) == Some(MetaMapping(DecodeEntries(Obj(EntriesToJson(m)))))
  {
    hide EntriesToJson, DecodeEntries;
  }

  // ----- the envelope -----

  datatype RepositoryAccess = ReadOnly | WorkspaceWrite

  datatype Capability =
    | DIAGNOSTIC_ARTIFACT_CAPTURE
    | ISOLATED_INVOCATION
    | NETWORK_POLICY_CONTROL
    | READ_ONLY_EXECUTION
    | STRUCTURED_RESULT
    | WORKSPACE_WRITE_EXECUTION

  datatype ArtifactRole =
    | ExecutionEvidenceRole
    | TypedResultRole
    | PromptRole
    | ProviderEventsRole
    | StandardErrorRole
    | ProviderDetailsRole
    | DiagnosticResultRole
    | WorkspaceGuardRole
    | CorrectionTicketRole

  /** An artifact reference; its path is kept in the normal form its constructor gives it. */
  datatype ArtifactReference = ArtifactReference(role: ArtifactRole, path: string, mediaType: Option<string>)
  {
    predicate Valid() {
      Stored(path) && (mediaType.Some? ==> !Blank(mediaType.value))
    }

    /** The path is text, and the constructor would take it again. */
    predicate Readable() {
      !Blank(path) && !DriveAbsolute(path)
    }
  }

  /** The constructor of a reference. */
  function NewReference(role: ArtifactRole, path: string, mediaType: Option<string>): (r: Option<ArtifactReference>)
    ensures r.Some? ==> r.value.Valid()
  {
    if PathAccepted(path) && (mediaType.Some? ==> !Blank(mediaType.value)) then
      AcceptedIsStored(path);
      Some(ArtifactReference(role, PosixForm(path), mediaType))
    else None
  }

  datatype Envelope = Envelope(
    executionId: string,
    attemptId: string,
    providerId: string,
    access: RepositoryAccess,
    capabilities: set<Capability>,
    startedAt: Timestamp,
    endedAt: Timestamp,
    duration: real,
    execution: AgentExecution,
    typedArtifact: Option<ArtifactReference>,
    artifacts: seq<ArtifactReference>,
    metadata: map<string, Metadata>)
  {
    /** The constructor check, execution semantics included; the duration agrees with the timestamps. */
    predicate Valid() {
      && !Blank(attemptId) && !Blank(providerId) && Trimmed(providerId)
      && executionId == attemptId + ":" + Spelling(execution.task)
      && startedAt.Valid() && endedAt.Valid() && duration >= 0.0
      && Micros(startedAt) <= Micros(endedAt)
      && -1.0 <= duration * 1000000.0 - (Micros(endedAt) - Micros(startedAt)) as real <= 1.0
      && (typedArtifact.Some? ==> typedArtifact.value.Valid() && typedArtifact.value.role.TypedResultRole?)
      && (forall i :: 0 <= i < |artifacts| ==> artifacts[i].Valid() && !artifacts[i].role.TypedResultRole?)
      && (forall i, j :: 0 <= i < j < |artifacts| ==> artifacts[i].role != artifacts[j].role)
      && execution.Valid() && (execution.Successful() ==> typedArtifact.Some?)
    }
  }

  /** Microseconds since the start of year 1. */
  function Micros(t: Timestamp): int {
    ((((DaysBefore(t) * 24 + t.hour) * 60) + t.minute) * 60 + t.second) * 1000000 + t.micro
  }

  function DaysBefore(t: Timestamp): int {
    var y := t.year - 1;
    365 * y + y / 4 - y / 100 + y / 400 + DaysBeforeMonth(t.year, t.month) + t.day - 1
  }

  function DaysBeforeMonth(year: nat, month: nat): nat {
    if month <= 1 then 0 else DaysBeforeMonth(year, month - 1) + DaysIn(year, month - 1)
  }

  function Spelling(t: AgentTask): string {
    match t
    case ImplementationTask => "implementation"
    case ReviewTask => "review"
    case CorrectionTask => "correction"
  }

  // ----- spellings -----

  function TaskNames(): seq<(AgentTask, string)> {
    [(ImplementationTask, "implementation"), (ReviewTask, "review"), (CorrectionTask, "correction")]
  }

  function AccessNames(): seq<(RepositoryAccess, string)> {
    [(ReadOnly, "read-only"), (WorkspaceWrite, "workspace-write")]
  }

  /** In the order in which sorted() puts the spellings. */
  function CapabilityNames(): seq<(Capability, string)> {
    [(DIAGNOSTIC_ARTIFACT_CAPTURE, "diagnostic-artifact-capture"), (ISOLATED_INVOCATION, "isolated-invocation"),
     (NETWORK_POLICY_CONTROL, "network-policy-control"), (READ_ONLY_EXECUTION, "read-only-execution"),
     (STRUCTURED_RESULT, "structured-result"), (WORKSPACE_WRITE_EXECUTION, "workspace-write-execution")]
  }

  function StatusNames(): seq<(bool, string)> {
    [(true, "success"), (false, "failed")]
  }

  function StartNames(): seq<(InvocationStart, string)> {
    [(NotStarted, "not-started"), (InvocationStarted, "started"), (Unknown, "unknown")]
  }

  function CategoryNames(): seq<(FailureCategory, string)> {
    [(PROVIDER_UNAVAILABLE, "provider-unavailable"), (INVOCATION_START_FAILURE, "invocation-start-failure"),
     (AGENT_TIMEOUT, "timeout"), (PROVIDER_REJECTION_OR_SERVICE_FAILURE, "provider-rejection-or-service-failure"),
     (NON_SUCCESSFUL_EXECUTION, "non-successful-execution"),
     (INVOCATION_CLEANUP_UNCERTAIN, "invocation-cleanup-uncertain"), (MISSING_RESULT, "missing-result"),
     (INVALID_RESULT, "invalid-result"), (CAPABILITY_OR_CONFIGURATION_FAILURE, "capability-or-configuration-failure")]
  }

  function RoleNames(): seq<(ArtifactRole, string)> {
    [(ExecutionEvidenceRole, "execution-evidence"), (TypedResultRole, "typed-result"), (PromptRole, "prompt"),
     (ProviderEventsRole, "provider-events"), (StandardErrorRole, "standard-error"),
     (ProviderDetailsRole, "provider-execution-details"), (DiagnosticResultRole, "provider-diagnostic-result"),
     (WorkspaceGuardRole, "workspace-guard"), (CorrectionTicketRole, "correction-ticket")]
  }

  predicate Covers<T(==)>(table: seq<(T, string)>, x: T) {
    exists i :: 0 <= i < |table| && table[i].0 == x
  }

  lemma TaskRoundTrip(x: AgentTask)
    ensures Covers(TaskNames(), x) && DecodeEnum(TaskNames(), EncodeEnum(TaskNames(), x)) == Some(x)
  {
    var k := match x { case ImplementationTask => 0 case ReviewTask => 1 case CorrectionTask => 2 };
    assert TaskNames()[k].0 == x;
    forall i | 0 <= i < |TaskNames()| ensures !Blank(TaskNames()[i].1) {
      NotBlank(TaskNames()[i].1);
    }
    EnumRoundTrip(TaskNames(), x);
  }

  lemma AccessRoundTrip(x: RepositoryAccess)
    ensures Covers(AccessNames(), x) && DecodeEnum(AccessNames(), EncodeEnum(AccessNames(), x)) == Some(x)
  {
    assert AccessNames()[if x.ReadOnly? then 0 else 1].0 == x;
    forall i | 0 <= i < |AccessNames()| ensures !Blank(AccessNames()[i].1) {
      NotBlank(AccessNames()[i].1);
    }
    EnumRoundTrip(AccessNames(), x);
  }

  lemma StatusRoundTrip(x: bool)
    ensures Covers(StatusNames(), x) && DecodeEnum(StatusNames(), EncodeEnum(StatusNames(), x)) == Some(x)
  {
    assert StatusNames()[if x then 0 else 1].0 == x;
    forall i | 0 <= i < |StatusNames()| ensures !Blank(StatusNames()[i].1) {
      NotBlank(StatusNames()[i].1);
    }
    EnumRoundTrip(StatusNames(), x);
  }

  lemma StartRoundTrip(x: InvocationStart)
    ensures Covers(StartNames(), x) && DecodeEnum(StartNames(), EncodeEnum(StartNames(), x)) == Some(x)
  {
    var k := match x { case NotStarted => 0 case InvocationStarted => 1 case Unknown => 2 };
    assert StartNames()[k].0 == x;
    forall i | 0 <= i < |StartNames()| ensures !Blank(StartNames()[i].1) {
      NotBlank(StartNames()[i].1);
    }
    EnumRoundTrip(StartNames(), x);
  }

  function CategoryIndex(x: FailureCategory): (k: nat)
    ensures k < |CategoryNames()| && CategoryNames()[k].0 == x
  {
    match x
    case PROVIDER_UNAVAILABLE => 0
    case INVOCATION_START_FAILURE => 1
    case AGENT_TIMEOUT => 2
    case PROVIDER_REJECTION_OR_SERVICE_FAILURE => 3
    case NON_SUCCESSFUL_EXECUTION => 4
    case INVOCATION_CLEANUP_UNCERTAIN => 5
    case MISSING_RESULT => 6
    case INVALID_RESULT => 7
    case CAPABILITY_OR_CONFIGURATION_FAILURE => 8
  }

  lemma CategoryRoundTrip(x: FailureCategory)
    ensures Covers(CategoryNames(), x) && DecodeEnum(CategoryNames(), EncodeEnum(CategoryNames(), x)) == Some(x)
  {
    assert CategoryNames()[CategoryIndex(x)].0 == x;
    CategoryFaithful();
    hide Faithful, DecodeEnum, EncodeEnum;
    EnumRoundTrip(CategoryNames(), x);
  }

  lemma CategoryFaithful()
    ensures Faithful(CategoryNames())
  {
    hide Blank, Space;
    forall i | 0 <= i < |CategoryNames()| ensures !Blank(CategoryNames()[i].1) {
      CategoryText(i);
    }
    forall i, j | 0 <= i < j < |CategoryNames()| ensures CategoryNames()[i].1 != CategoryNames()[j].1 {
      var a, b := CategoryNames()[i].1, CategoryNames()[j].1;
      assert |a| != |b| || a[0] != b[0];
    }
  }

  lemma CategoryText(i: nat)
    requires i < |CategoryNames()|
    ensures !Blank(CategoryNames()[i].1)
  {
    NotBlank(CategoryNames()[i].1);
  }

  function RoleIndex(x: ArtifactRole): (k: nat)
    ensures k < |RoleNames()| && RoleNames()[k].0 == x
  {
    match x
    case ExecutionEvidenceRole => 0
    case TypedResultRole => 1
    case PromptRole => 2
    case ProviderEventsRole => 3
    case StandardErrorRole => 4
    case ProviderDetailsRole => 5
    case DiagnosticResultRole => 6
    case WorkspaceGuardRole => 7
    case CorrectionTicketRole => 8
  }

  lemma RoleRoundTrip(x: ArtifactRole)
    ensures Covers(RoleNames(), x) && DecodeEnum(RoleNames(), EncodeEnum(RoleNames(), x)) == Some(x)
  {
    assert RoleNames()[RoleIndex(x)].0 == x;
    RoleFaithful();
    hide Faithful, DecodeEnum, EncodeEnum;
    EnumRoundTrip(RoleNames(), x);
  }

  lemma RoleFaithful()
    ensures Faithful(RoleNames())
  {
    hide Blank, Space;
    forall i | 0 <= i < |RoleNames()| ensures !Blank(RoleNames()[i].1) {
      RoleText(i);
    }
    forall i, j | 0 <= i < j < |RoleNames()| ensures RoleNames()[i].1 != RoleNames()[j].1 {
      var a, b := RoleNames()[i].1, RoleNames()[j].1;
      assert |a| != |b| || a[0] != b[0] || (|a| > 9 && a[9] != b[9]);
    }
  }

  lemma RoleText(i: nat)
    requires i < |RoleNames()|
    ensures !Blank(RoleNames()[i].1)
  {
    NotBlank(RoleNames()[i].1);
  }

  // ----- capability sets -----

  /** The sorted spellings of a capability set, taken from the sorted table. */
  function EncodeCapabilities(table: seq<(Capability, string)>, s: set<Capability>): seq<Json> {
    if table == [] then []
    else (if table[0].0 in s then [Str(table[0].1)] else []) + EncodeCapabilities(table[1..], s)
  }

  function DecodeCapabilities(items: seq<Json>): Option<set<Capability>> {
    if items == [] then Some({})
    else
      var first :- DecodeEnum(CapabilityNames(), items[0]);
      var rest :- DecodeCapabilities(items[1..]);
      Some({first} + rest)
  }

  lemma CapabilityFaithful()
    ensures Faithful(CapabilityNames())
  {
    hide Blank, Space;
    forall i | 0 <= i < |CapabilityNames()| ensures !Blank(CapabilityNames()[i].1) {
      CapabilityText(i);
    }
    forall i, j | 0 <= i < j < |CapabilityNames()| ensures CapabilityNames()[i].1 != CapabilityNames()[j].1 {
      assert CapabilityNames()[i].1[0] != CapabilityNames()[j].1[0];
    }
  }

  lemma CapabilityText(i: nat)
    requires i < |CapabilityNames()|
    ensures !Blank(CapabilityNames()[i].1)
  {
    NotBlank(CapabilityNames()[i].1);
  }

  /** The members of a set that a part of the table lists. */
  function Listed(table: seq<(Capability, string)>, s: set<Capability>): set<Capability> {
    if table == [] then {}
    else (if table[0].0 in s then {table[0].0} else {}) + Listed(table[1..], s)
  }

  lemma {:induction false} CapabilitiesFrom(k: nat, s: set<Capability>)
    requires k <= |CapabilityNames()|
    ensures DecodeCapabilities(EncodeCapabilities(CapabilityNames()[k..], s)) == Some(Listed(CapabilityNames()[k..], s))
    decreases |CapabilityNames()| - k
  {
    if k < |CapabilityNames()| {
      CapabilitiesFrom(k + 1, s);
      assert CapabilityNames()[k..][1..] == CapabilityNames()[k + 1..];
      assert CapabilityNames()[k..][0] == CapabilityNames()[k];
      CapabilityFaithful();
      FindAt(CapabilityNames(), k);
      CapabilityStep(CapabilityNames()[k..], s);
    }
  }

  lemma CapabilityStep(table: seq<(Capability, string)>, s: set<Capability>)
    requires table != [] && DecodeEnum(CapabilityNames(), Str(table[0].1)) == Some(table[0].0)
    requires DecodeCapabilities(EncodeCapabilities(table[1..], s)) == Some(Listed(table[1..], s))
    ensures DecodeCapabilities(EncodeCapabilities(table, s)) == Some(Listed(table, s))
  {
    var items, rest := EncodeCapabilities(table, s), EncodeCapabilities(table[1..], s);
    if table[0].0 in s {
      assert items == [Str(table[0].1)] + rest;
      assert items[0] == Str(table[0].1) && items[1..] == rest;
    } else {
      assert items == rest;
      assert Listed(table, s) == Listed(table[1..], s);
    }
  }

  lemma {:induction false} ListedIsMember(table: seq<(Capability, string)>, s: set<Capability>, x: Capability)
    ensures x in Listed(table, s) <==> x in s && exists i :: 0 <= i < |table| && table[i].0 == x
  {
    if table != [] {
      ListedIsMember(table[1..], s, x);
      if exists i :: 0 <= i < |table[1..]| && table[1..][i].0 == x {
        var i :| 0 <= i < |table[1..]| && table[1..][i].0 == x;
        assert table[i + 1].0 == x;
      }
      if exists i :: 0 <= i < |table| && table[i].0 == x {
        var i :| 0 <= i < |table| && table[i].0 == x;
        assert i == 0 || table[1..][i - 1].0 == x;
      }
    }
  }

  function CapabilityIndex(x: Capability): (k: nat)
    ensures k < |CapabilityNames()| && CapabilityNames()[k].0 == x
  {
    match x
    case DIAGNOSTIC_ARTIFACT_CAPTURE => 0
    case ISOLATED_INVOCATION => 1
    case NETWORK_POLICY_CONTROL => 2
    case READ_ONLY_EXECUTION => 3
    case STRUCTURED_RESULT => 4
    case WORKSPACE_WRITE_EXECUTION => 5
  }

  /** A capability set survives being written as a sorted array. */
  lemma CapabilitiesRoundTrip(s: set<Capability>)
    ensures DecodeCapabilities(EncodeCapabilities(CapabilityNames(), s)) == Some(s)
  {
    CapabilitiesFrom(0, s);
    assert CapabilityNames()[0..] == CapabilityNames();
    forall x ensures x in Listed(CapabilityNames(), s) <==> x in s {
      assert CapabilityNames()[CapabilityIndex(x)].0 == x;
      ListedIsMember(CapabilityNames(), s, x);
    }
    assert Listed(CapabilityNames(), s) == s;
  }

  // ----- artifact references -----

  const ARTIFACT_FIELDS := {ROLE, PATH, MEDIA_TYPE}

  function EncodeReference(a: ArtifactReference): Json {
    RoleRoundTrip(a.role);
    Record(map[
      ROLE := EncodeEnum(RoleNames(), a.role),
      PATH := Str(a.path),
      MEDIA_TYPE := if a.mediaType.None? then Null else Str(a.mediaType.value)])
  }

  function DecodeReference(v: Json): Option<ArtifactReference> {
    var fields :- ExactObject(v, ARTIFACT_FIELDS);
    var media := fields[MEDIA_TYPE];
    if !media.Null? && !media.Str? then None
    else
      var role :- DecodeEnum(RoleNames(), fields[ROLE]);
      var path :- DecodeText(fields[PATH]);
      NewReference(role, path, if media.Null? then None else Some(media.text))
  }

  function EncodeReferences(xs: seq<ArtifactReference>): seq<Json> {
    if xs == [] then [] else [EncodeReference(xs[0])] + EncodeReferences(xs[1..])
  }

  function DecodeReferences(items: seq<Json>): Option<seq<ArtifactReference>> {
    if items == [] then Some([])
    else
      var first :- DecodeReference(items[0]);
      var rest :- DecodeReferences(items[1..]);
      Some([first] + rest)
  }

  function EncodeOptionalReference(a: Option<ArtifactReference>): Json {
    if a.None? then Null else EncodeReference(a.value)
  }

  function DecodeOptionalReference(v: Json): Option<Option<ArtifactReference>> {
    if v.Null? then Some(None)
    else
      var a :- DecodeReference(v);
      Some(Some(a))
  }

  lemma OptionalReferenceRoundTrip(a: Option<ArtifactReference>)
    requires a.Some? ==> a.value.Valid()
    ensures DecodeOptionalReference(EncodeOptionalReference(a)) == if a.Some? && !a.value.Readable() then None else Some(a)
  {
    hide DecodeReference;
    if a.Some? {
      ReferenceRoundTrip(a.value);
    }
  }

  /** A constructed reference comes back exactly when its stored path is text and no drive with a root. */
  lemma ReferenceRoundTrip(a: ArtifactReference)
    requires a.Valid()
    ensures DecodeReference(EncodeReference(a)) == if a.Readable() then Some(a) else None
  {
    hide ExactObject, Record, DecodeEnum, EncodeEnum, Blank, Parts, PosixForm;
    RoleRoundTrip(a.role);
    StoredIsAcceptedIff(a.path);
    var fields := map[
      ROLE := EncodeEnum(RoleNames(), a.role),
      PATH := Str(a.path),
      MEDIA_TYPE := if a.mediaType.None? then Null else Str(a.mediaType.value)];
    assert fields.Keys == ARTIFACT_FIELDS;
    RecordIsExact(fields);
  }

  /** Two texts that the constructor takes and the decoder refuses: a blank one, and one that hides a drive. */
  lemma UnreadableReferences(role: ArtifactRole)
    ensures NewReference(role, " ", None).Some? && !NewReference(role, " ", None).value.Readable()
    ensures NewReference(role, "./C:/x", None).Some? && !NewReference(role, "./C:/x", None).value.Readable()
  {
    hide Parts, PosixForm, PathAccepted;
    BlankPath();
    HiddenDrive();
  }

  /** The program's own references lie in the attempts directory; all of them can be read back. */
  lemma OwnReferencesAreReadable(a: ArtifactReference)
    requires "attempts/" <= a.path
    ensures a.Readable()
  {
    assert a.path[0] == 'a' && a.path[1] == 't' && a.path[0] in a.path;
  }

  predicate AllReadable(xs: seq<ArtifactReference>) {
    forall i :: 0 <= i < |xs| ==> xs[i].Readable()
  }

  lemma {:induction false} ReferencesRoundTrip(xs: seq<ArtifactReference>)
    requires forall i :: 0 <= i < |xs| ==> xs[i].Valid()
    ensures DecodeReferences(EncodeReferences(xs)) == if AllReadable(xs) then Some(xs) else None
  {
    hide EncodeReference, DecodeReference, ArtifactReference.Readable, ArtifactReference.Valid;
    if xs != [] {
      ReferenceRoundTrip(xs[0]);
      ReferencesRoundTrip(xs[1..]);
      assert EncodeReferences(xs)[1..] == EncodeReferences(xs[1..]);
      assert xs == [xs[0]] + xs[1..];
      assert AllReadable(xs) <==> xs[0].Readable() && AllReadable(xs[1..]);
    }
  }

  // ----- typed results and failures -----

  function EncodeResult(r: Option<Artifact>): Json
    requires r.Some? ==> r.value.ReviewArtifact? || r.value.ImplementationArtifact?
  {
    if r.None? then Null
    else if r.value.ReviewArtifact? then EncodeReview(r.value.review)
    else EncodeImplementation(r.value.implementation)
  }

  /** A typed result is read as what its task kind asks for. */
  function DecodeResult(v: Json, t: AgentTask): Option<Option<Artifact>> {
    if v.Null? then Some(None)
    else if t.ReviewTask? then
      var r :- DecodeReview(v);
      Some(Some(ReviewArtifact(r)))
    else
      var r :- DecodeImplementation(v);
      Some(Some(ImplementationArtifact(r)))
  }

  lemma ResultRoundTrip(r: Option<Artifact>, t: AgentTask)
    requires r.Some? ==> ResultOfTask(t, r.value)
    ensures DecodeResult(EncodeResult(r), t) == Some(r)
  {
    hide DecodeReview, DecodeImplementation;
    if r.Some? {
      if r.value.ReviewArtifact? {
        ReviewRoundTrip(r.value.review);
      } else {
        ImplementationRoundTrip(r.value.implementation);
      }
    }
  }

  const FAILURE_FIELDS := {CATEGORY, MESSAGE}

  function EncodeFailure(f: Option<AgentFailure>): Json {
    if f.None? then Null
    else
      CategoryRoundTrip(f.value.category);
      Record(map[CATEGORY := EncodeEnum(CategoryNames(), f.value.category), MESSAGE := Str(f.value.message)])
  }

  function DecodeFailure(v: Json): Option<Option<AgentFailure>> {
    if v.Null? then Some(None)
    else
      var fields :- ExactObject(v, FAILURE_FIELDS);
      var category :- DecodeEnum(CategoryNames(), fields[CATEGORY]);
      var message :- DecodeText(fields[MESSAGE]);
      Some(Some(AgentFailure(category, message)))
  }

  lemma FailureRoundTrip(f: Option<AgentFailure>)
    requires f.Some? ==> !Blank(f.value.message)
    ensures DecodeFailure(EncodeFailure(f)) == Some(f)
  {
    hide ExactObject, DecodeEnum, EncodeEnum;
    if f.Some? {
      CategoryRoundTrip(f.value.category);
      var fields := map[CATEGORY := EncodeEnum(CategoryNames(), f.value.category), MESSAGE := Str(f.value.message)];
      assert fields.Keys == FAILURE_FIELDS;
      RecordIsExact(fields);
    }
  }

  // ----- the envelope's codec -----

  /** The members of an encoded envelope; the constant schema version and format are not repeated here. */
  const ENVELOPE_FIELDS: set<FieldName> := {
    EXECUTION_ID, ATTEMPT_ID, PROVIDER_ID, TASK_KIND, REPOSITORY_ACCESS, REQUIRED_CAPABILITIES, STARTED_AT, ENDED_AT,
    DURATION_SECONDS, STATUS, INVOCATION_START, TYPED_RESULT, FAILURE, TYPED_RESULT_ARTIFACT, ARTIFACTS,
    PROVIDER_METADATA}

  function Member(e: Envelope, f: FieldName): Json
    requires e.Valid()
  {
    TaskRoundTrip(e.execution.task);
    AccessRoundTrip(e.access);
    StatusRoundTrip(e.execution.Successful());
    StartRoundTrip(e.execution.start);
    match f
    case EXECUTION_ID => Str(e.executionId)
    case ATTEMPT_ID => Str(e.attemptId)
    case PROVIDER_ID => Str(e.providerId)
    case TASK_KIND => EncodeEnum(TaskNames(), e.execution.task)
    case REPOSITORY_ACCESS => EncodeEnum(AccessNames(), e.access)
    case REQUIRED_CAPABILITIES => Arr(EncodeCapabilities(CapabilityNames(), e.capabilities))
    case STARTED_AT => Str(Format(e.startedAt))
    case ENDED_AT => Str(Format(e.endedAt))
    case DURATION_SECONDS => Real(e.duration)
    case STATUS => EncodeEnum(StatusNames(), e.execution.Successful())
    case INVOCATION_START => EncodeEnum(StartNames(), e.execution.start)
    case TYPED_RESULT => EncodeResult(e.execution.result)
    case FAILURE => EncodeFailure(e.execution.failure)
    case TYPED_RESULT_ARTIFACT => EncodeOptionalReference(e.typedArtifact)
    case ARTIFACTS => Arr(EncodeReferences(e.artifacts))
    case PROVIDER_METADATA => MetadataToJson(MetaMapping(e.metadata))
    case _ => Null
  }

  /** encode_execution_evidence. */
  function EnvelopeFields(e: Envelope): (fields: map<FieldName, Json>)
    requires e.Valid()
    ensures fields.Keys == ENVELOPE_FIELDS
  {
    map f | f in ENVELOPE_FIELDS :: Member(e, f)
  }

  function Encode(e: Envelope): Json
    requires e.Valid()
  {
    Record(EnvelopeFields(e))
  }

  function DecodeDuration(v: Json): Option<real> {
    match v
    case Real(r) => if r >= 0.0 then Some(r) else None
    case Int(i) => if i >= 0 then Some(i as real) else None
    case _ => None
  }

  function DecodeTimestamp(v: Json): Option<Timestamp> {
    if v.Str? then Parse(v.text) else None
  }

  /** The execution that an envelope records. */
  function DecodeExecution(fields: map<FieldName, Json>): Option<AgentExecution>
    requires fields.Keys == ENVELOPE_FIELDS
  {
    var task :- DecodeEnum(TaskNames(), fields[TASK_KIND]);
    var success :- DecodeEnum(StatusNames(), fields[STATUS]);
    var start :- DecodeEnum(StartNames(), fields[INVOCATION_START]);
    var result :- DecodeResult(fields[TYPED_RESULT], task);
    var failure :- DecodeFailure(fields[FAILURE]);
    if success == failure.None? then Some(AgentExecution(task, start, result, failure)) else None
  }

  /** decode_execution_evidence: the envelope's constructor checks every invariant again. */
  function Decode(v: Json): (d: Option<Envelope>)
    ensures d.Some? ==> d.value.Valid()
  {
    var fields :- ExactObject(v, ENVELOPE_FIELDS);
    if !fields[REQUIRED_CAPABILITIES].Arr? || !fields[ARTIFACTS].Arr? then None
    else
      var capabilities :- DecodeCapabilities(fields[REQUIRED_CAPABILITIES].items);
      var artifacts :- DecodeReferences(fields[ARTIFACTS].items);
      var typed :- DecodeOptionalReference(fields[TYPED_RESULT_ARTIFACT]);
      var execution :- DecodeExecution(fields);
      var metadata :- DecodeMetadata(fields[PROVIDER_METADATA]);
      var executionId :- DecodeText(fields[EXECUTION_ID]);
      var attemptId :- DecodeText(fields[ATTEMPT_ID]);
      var providerId :- DecodeText(fields[PROVIDER_ID]);
      var access :- DecodeEnum(AccessNames(), fields[REPOSITORY_ACCESS]);
      var startedAt :- DecodeTimestamp(fields[STARTED_AT]);
      var endedAt :- DecodeTimestamp(fields[ENDED_AT]);
      var duration :- DecodeDuration(fields[DURATION_SECONDS]);
      if !metadata.MetaMapping? then None
      else
        var e := Envelope(executionId, attemptId, providerId, access, capabilities, startedAt, endedAt, duration,
          execution, typed, artifacts, metadata.entries);
        if e.Valid() then Some(e) else None
  }

  lemma MemberOf(e: Envelope, fields: map<FieldName, Json>, f: FieldName)
    requires e.Valid() && fields == EnvelopeFields(e) && f in ENVELOPE_FIELDS
    ensures f in fields && fields[f] == Member(e, f)
  {
    hide Member, Envelope.Valid;
  }

  lemma ExecutionRoundTrip(e: Envelope, fields: map<FieldName, Json>)
    requires e.Valid() && fields == EnvelopeFields(e)
    ensures DecodeExecution(fields) == Some(e.execution)
  {
    hide EnvelopeFields, ArtifactReference.Valid, Trimmed, Blank, Spelling;
    hide TaskNames, AccessNames, CapabilityNames, StatusNames, StartNames, CategoryNames, RoleNames;
    hide DecodeEnum, EncodeEnum, DecodeResult, EncodeResult, DecodeFailure, EncodeFailure, Micros;
    MemberOf(e, fields, TASK_KIND);
    MemberOf(e, fields, STATUS);
    MemberOf(e, fields, INVOCATION_START);
    MemberOf(e, fields, TYPED_RESULT);
    MemberOf(e, fields, FAILURE);
    TaskRoundTrip(e.execution.task);
    StatusRoundTrip(e.execution.Successful());
    StartRoundTrip(e.execution.start);
    ResultRoundTrip(e.execution.result, e.execution.task);
    FailureRoundTrip(e.execution.failure);
  }

  lemma PrefixIsText(s: string, rest: string)
    requires !Blank(s)
    ensures !Blank(s + rest)
  {
    var c :| c in s && !Space(c);
    assert c in s + rest;
  }

  /** Every member but the execution's own reads back. */
  lemma MembersRead(e: Envelope, fields: map<FieldName, Json>)
    requires e.Valid() && fields == EnvelopeFields(e)
    ensures fields[REQUIRED_CAPABILITIES].Arr? && fields[ARTIFACTS].Arr?
    ensures DecodeCapabilities(fields[REQUIRED_CAPABILITIES].items) == Some(e.capabilities)
    ensures DecodeReferences(fields[ARTIFACTS].items) == if AllReadable(e.artifacts) then Some(e.artifacts) else None
    ensures DecodeOptionalReference(fields[TYPED_RESULT_ARTIFACT]) ==
      if e.typedArtifact.Some? && !e.typedArtifact.value.Readable() then None else Some(e.typedArtifact)
    ensures DecodeMetadata(fields[PROVIDER_METADATA]) == Some(MetaMapping(e.metadata))
    ensures DecodeEnum(AccessNames(), fields[REPOSITORY_ACCESS]) == Some(e.access)
    ensures DecodeDuration(fields[DURATION_SECONDS]) == Some(e.duration)
  {
    hide EnvelopeFields, ArtifactReference.Valid, Trimmed, Blank, Spelling;
    hide TaskNames, AccessNames, CapabilityNames, StatusNames, StartNames, CategoryNames, RoleNames;
    hide DecodeEnum, EncodeEnum, DecodeReferences, EncodeReferences, DecodeOptionalReference,
      EncodeOptionalReference, AllReadable, ArtifactReference.Readable, ArtifactReference.Valid, DecodeCapabilities,
      EncodeCapabilities, DecodeMetadata, MetadataToJson, Micros, AgentExecution.Valid;
    MemberOf(e, fields, REQUIRED_CAPABILITIES);
    MemberOf(e, fields, ARTIFACTS);
    MemberOf(e, fields, TYPED_RESULT_ARTIFACT);
    MemberOf(e, fields, PROVIDER_METADATA);
    MemberOf(e, fields, REPOSITORY_ACCESS);
    MemberOf(e, fields, DURATION_SECONDS);
    CapabilitiesRoundTrip(e.capabilities);
    ReferencesRoundTrip(e.artifacts);
    OptionalReferenceRoundTrip(e.typedArtifact);
    MetadataRoundTrip(MetaMapping(e.metadata));
    AccessRoundTrip(e.access);
  }

  lemma TextMembersRead(e: Envelope, fields: map<FieldName, Json>)
    requires e.Valid() && fields == EnvelopeFields(e)
    ensures DecodeText(fields[EXECUTION_ID]) == Some(e.executionId)
    ensures DecodeText(fields[ATTEMPT_ID]) == Some(e.attemptId)
    ensures DecodeText(fields[PROVIDER_ID]) == Some(e.providerId)
    ensures DecodeTimestamp(fields[STARTED_AT]) == Some(e.startedAt)
    ensures DecodeTimestamp(fields[ENDED_AT]) == Some(e.endedAt)
  {
    hide EnvelopeFields;
    hide TaskNames, AccessNames, CapabilityNames, StatusNames, StartNames, CategoryNames, RoleNames;
    hide Format, Parse, Micros, DecodeText, DecodeTimestamp, Blank, Trimmed, Spelling,
      AgentExecution.Valid, ArtifactReference.Valid;
    MemberOf(e, fields, EXECUTION_ID);
    MemberOf(e, fields, ATTEMPT_ID);
    MemberOf(e, fields, PROVIDER_ID);
    MemberOf(e, fields, STARTED_AT);
    MemberOf(e, fields, ENDED_AT);
    PrefixIsText(e.attemptId, ":" + Spelling(e.execution.task));
    assert e.executionId == e.attemptId + (":" + Spelling(e.execution.task));
    TimestampRead(e.startedAt);
    TimestampRead(e.endedAt);
    TextRead(e.executionId);
    TextRead(e.attemptId);
    TextRead(e.providerId);
  }

  /** Every artifact path can be read back. */
  predicate ReadableArtifacts(e: Envelope) {
    AllReadable(e.artifacts) && (e.typedArtifact.Some? ==> e.typedArtifact.value.Readable())
  }

  /**
   Decoding encoded evidence returns it: nested metadata, capability set, typed result, artifacts and both
   instants, with every construction invariant holding again. The one exception are artifact paths that the
   constructor takes and the decoder refuses; with one of them nothing is read.
   */
  lemma EnvelopeRoundTrip(e: Envelope)
    requires e.Valid()
    ensures Decode(Encode(e)) == Some(e) <==> ReadableArtifacts(e)
    ensures !ReadableArtifacts(e) ==> Decode(Encode(e)).None?
  {
    hide TaskNames, AccessNames, CapabilityNames, StatusNames, StartNames, CategoryNames, RoleNames;
    hide ExactObject, Record, EnvelopeFields, DecodeEnum, DecodeExecution, DecodeReferences, DecodeOptionalReference,
      DecodeCapabilities, DecodeMetadata, DecodeDuration, DecodeText, DecodeTimestamp, Envelope.Valid,
      AllReadable, ArtifactReference.Readable;
    var fields := EnvelopeFields(e);
    RecordIsExact(fields);
    ExecutionRoundTrip(e, fields);
    MembersRead(e, fields);
    TextMembersRead(e, fields);
  }

  lemma TextRead(s: string)
    requires !Blank(s)
    ensures DecodeText(Str(s)) == Some(s)
  {
  }

  lemma TimestampRead(t: Timestamp)
    requires t.Valid()
    ensures DecodeTimestamp(Str(Format(t))) == Some(t)
  {
    hide Format, Parse;
    TimestampRoundTrip(t);
  }
}
