/** The run policy captured when a run is created, and its JSON form. */
module PolicyCodec {
  import opened Wrappers
  import opened TaskResults
  import opened Trimming
  import opened Binary64
  import opened AgentExecutions
  import opened JsonValues
  import opened Canonicalization
  import opened Snapshots
  import opened EvidenceCodec

  const RUN_POLICY_SCHEMA: int := 3

  datatype NetworkAccess = Denied | Allowed

  datatype Command = Command(name: string, argv: seq<string>, timeout: int)
  {
    predicate Valid() {
      !Blank(name) && argv != [] && AllText(argv) && timeout >= 1
    }
  }

  /** A provider identity is text without surrounding whitespace. */
  predicate ProviderName(id: string) {
    !Blank(id) && Trimmed(id)
  }

  // ----- timeouts -----

  /** A positive whole number of seconds that float() keeps. */
  predicate ValidTimeout(seconds: int) {
    seconds > 0 && ToFloat(seconds) == Some(seconds)
  }

  /** Timeouts are floats once an execution policy is built. */
  function EncodeTimeout(seconds: int): Json {
    Real(seconds as real)
  }

  /** An integer must survive float(); a Real holds a float, and must be whole. */
  function DecodeTimeout(v: Json): (r: Option<int>)
    ensures r.Some? ==> ValidTimeout(r.value)
  {
    match v
    case Int(n) => if ValidTimeout(n) then Some(n) else None
    case Real(x) => if x.Floor as real == x && ValidTimeout(x.Floor) then Some(x.Floor) else None
    case _ => None
  }

  lemma TimeoutRoundTrip(seconds: int)
    requires ValidTimeout(seconds)
    ensures DecodeTimeout(EncodeTimeout(seconds)) == Some(seconds)
  {
    hide ValidTimeout;
  }

  /** Which whole-number timeouts a persisted policy may hold. */
  lemma TimeoutIsAcceptedIff(n: nat)
    ensures DecodeTimeout(Int(n)) == Some(n) <==> 0 < n < Pow2(MAX_EXPONENT) && n % Unit(n) == 0
    ensures DecodeTimeout(Int(n)).Some? <==> DecodeTimeout(Int(n)) == Some(n)
  {
    hide Pow2, ToFloat, Unit;
    ToFloatIsExactIff(n);
  }

  // ----- task policies -----

  datatype TaskPolicy = TaskPolicy(
    kind: AgentTask,
    provider: string,
    access: RepositoryAccess,
    capabilities: set<Capability>,
    timeout: int,
    network: NetworkAccess)
  {
    /** The constructor check: everything but the provider and the timeout follows from the kind. */
    predicate Valid() {
      && ProviderName(provider) && ValidTimeout(timeout)
      && access == TaskAccess(kind) && capabilities == RequiredCapabilities(access) && network == TaskNetwork(kind)
    }
  }

  function TaskAccess(kind: AgentTask): RepositoryAccess {
    if kind.ReviewTask? then ReadOnly else WorkspaceWrite
  }

  function TaskNetwork(kind: AgentTask): NetworkAccess {
    if kind.ReviewTask? then Denied else Allowed
  }

  function RequiredCapabilities(access: RepositoryAccess): set<Capability> {
    {if access.ReadOnly? then READ_ONLY_EXECUTION else WORKSPACE_WRITE_EXECUTION,
     STRUCTURED_RESULT, ISOLATED_INVOCATION, DIAGNOSTIC_ARTIFACT_CAPTURE, NETWORK_POLICY_CONTROL}
  }

  function NetworkNames(): seq<(NetworkAccess, string)> {
    [(Denied, "denied"), (Allowed, "allowed")]
  }

  lemma NetworkRoundTrip(x: NetworkAccess)
    ensures Covers(NetworkNames(), x) && DecodeEnum(NetworkNames(), EncodeEnum(NetworkNames(), x)) == Some(x)
  {
    assert NetworkNames()[if x.Denied? then 0 else 1].0 == x;
    forall i | 0 <= i < |NetworkNames()| ensures !Blank(NetworkNames()[i].1) {
      NotBlank(NetworkNames()[i].1);
    }
    EnumRoundTrip(NetworkNames(), x);
  }

  /** _require_string: the text, stripped. */
  function DecodeStripped(v: Json): (r: Option<string>)
    ensures r.Some? ==> Trimmed(r.value) && !Blank(r.value)
  {
    if v.Str? && !Blank(v.text) then
      StripIsNormal(v.text);
      Some(Strip(v.text))
    else None
  }

  function DecodeStrippedEnum<T>(table: seq<(T, string)>, v: Json): Option<T> {
    var s :- DecodeStripped(v);
    Find(table, s)
  }

  /** _parse_capabilities: a non-empty list without repetition. */
  function DecodeCapabilityList(v: Json): (r: Option<set<Capability>>)
    ensures r.Some? ==> r.value != {}
  {
    if !v.Arr? || v.items == [] then None
    else
      var parsed :- DecodeCapabilities(v.items);
      if |parsed| == |v.items| then Some(parsed) else None
  }

  function EncodeCapabilityList(s: set<Capability>): Json {
    Arr(EncodeCapabilities(CapabilityNames(), s))
  }

  const EXECUTION_POLICY_FIELDS := {TIMEOUT_SECONDS, NETWORK_ACCESS}

  function EncodeExecutionPolicy(t: TaskPolicy): Json {
    NetworkRoundTrip(t.network);
    Record(map[TIMEOUT_SECONDS := EncodeTimeout(t.timeout), NETWORK_ACCESS := EncodeEnum(NetworkNames(), t.network)])
  }

  function DecodeExecutionPolicy(v: Json): Option<(int, NetworkAccess)> {
    var fields :- ExactObject(v, EXECUTION_POLICY_FIELDS);
    var timeout :- DecodeTimeout(fields[TIMEOUT_SECONDS]);
    var network :- DecodeStrippedEnum(NetworkNames(), fields[NETWORK_ACCESS]);
    Some((timeout, network))
  }

  const TASK_FIELDS := {PROVIDER_ID, REPOSITORY_ACCESS, REQUIRED_CAPABILITIES, EXECUTION_POLICY}

  function TaskFields(t: TaskPolicy): map<FieldName, Json> {
    AccessRoundTrip(t.access);
    map[
      PROVIDER_ID := Str(t.provider),
      REPOSITORY_ACCESS := EncodeEnum(AccessNames(), t.access),
      REQUIRED_CAPABILITIES := EncodeCapabilityList(t.capabilities),
      EXECUTION_POLICY := EncodeExecutionPolicy(t)]
  }

  function EncodeTask(t: TaskPolicy): Json {
    Record(TaskFields(t))
  }

  /** One turn of the loop of _parse_task_policies. */
  function DecodeTask(v: Json, kind: AgentTask): (r: Option<TaskPolicy>)
    ensures r.Some? ==> r.value.Valid() && r.value.kind == kind
  {
    var fields :- ExactObject(v, TASK_FIELDS);
    var provider :- DecodeStripped(fields[PROVIDER_ID]);
    var access :- DecodeStrippedEnum(AccessNames(), fields[REPOSITORY_ACCESS]);
    var capabilities :- DecodeCapabilityList(fields[REQUIRED_CAPABILITIES]);
    var execution :- DecodeExecutionPolicy(fields[EXECUTION_POLICY]);
    var t := TaskPolicy(kind, provider, access, capabilities, execution.0, execution.1);
    if t.Valid() then Some(t) else None
  }

  // ----- provider policies -----

  /** The payload is kept as canonical JSON text, which stands for the value. */
  datatype ProviderPolicy = ProviderPolicy(id: string, version: string, declared: set<Capability>, payload: Json)
  {
    predicate Valid() {
      ProviderName(id) && !Blank(version)
    }
  }

  const PROVIDER_FIELDS := {PROVIDER_ID, ADAPTER_POLICY_VERSION, DECLARED_CAPABILITIES, PAYLOAD}

  function ProviderFields(p: ProviderPolicy): map<FieldName, Json> {
    map[
      PROVIDER_ID := Str(p.id),
      ADAPTER_POLICY_VERSION := Str(p.version),
      DECLARED_CAPABILITIES := EncodeCapabilityList(p.declared),
      PAYLOAD := p.payload]
  }

  function EncodeProvider(p: ProviderPolicy): Json {
    Record(ProviderFields(p))
  }

  function DecodeProvider(id: string, v: Json): (r: Option<ProviderPolicy>)
    ensures r.Some? ==> r.value.Valid() && r.value.id == id && r.value.declared != {} && Trimmed(r.value.version)
  {
    if !ProviderName(id) then None
    else
      var fields :- ExactObject(v, PROVIDER_FIELDS);
      var own :- DecodeStripped(fields[PROVIDER_ID]);
      var version :- DecodeStripped(fields[ADAPTER_POLICY_VERSION]);
      var declared :- DecodeCapabilityList(fields[DECLARED_CAPABILITIES]);
      if own == id then Some(ProviderPolicy(id, version, declared, fields[PAYLOAD])) else None
  }

  function ProviderIds(providers: seq<ProviderPolicy>): (r: seq<string>)
    ensures |r| == |providers| && forall i :: 0 <= i < |r| ==> r[i] == providers[i].id
  {
    if providers == [] then [] else [providers[0].id] + ProviderIds(providers[1..])
  }

  /** The keys of an object in sorted order. */
  ghost function SortedKeys(keys: set<string>): (r: seq<string>)
    ensures Ascending(r) && forall k :: k in r <==> k in keys
  {
    if keys == {} then []
    else
      var k :| k in keys;
      InsertCorrect(k, SortedKeys(keys - {k}));
      Insert(k, SortedKeys(keys - {k}))
  }

  predicate ProvidersParse(members: map<Key, Json>) {
    members != map[] && forall k :: k in members ==> k.Free? && DecodeProvider(k.text, members[k]).Some?
  }

  ghost function MemberNames(members: map<Key, Json>): (r: seq<string>)
    ensures Ascending(r)
    ensures forall id :: id in r <==> Free(id) in members
  {
    SortedKeys(set k | k in members && k.Free? :: k.text)
  }

  ghost function DecodeNamed(ids: seq<string>, members: map<Key, Json>): (r: seq<ProviderPolicy>)
    requires ProvidersParse(members) && forall id :: id in ids ==> Free(id) in members
    ensures ProviderIds(r) == ids
    ensures |r| == |ids| && forall i :: 0 <= i < |r| ==> DecodeProvider(ids[i], members[Free(ids[i])]) == Some(r[i])
  {
    hide DecodeProvider;
    if ids == [] then []
    else
      assert ids[0] in ids && forall id :: id in ids[1..] ==> id in ids;
      [DecodeProvider(ids[0], members[Free(ids[0])]).value] + DecodeNamed(ids[1..], members)
  }

  /** _parse_provider_policies: every member parsed, sorted by identity. */
  ghost function DecodeProviders(members: map<Key, Json>): (r: Option<seq<ProviderPolicy>>)
    ensures r.Some? ==> Ascending(ProviderIds(r.value)) && forall p :: p in r.value ==> Trimmed(p.version)
  {
    hide DecodeProvider;
    if ProvidersParse(members) then Some(DecodeNamed(MemberNames(members), members)) else None
  }

  // ----- the run policy -----

  /** The assets' names, sorted. */
  function AssetNames(): seq<string> {
    ["prompt.correction", "prompt.implementation", "prompt.review",
     "result-contract.implementation", "result-contract.review"]
  }

  predicate IsSha(s: string) {
    |s| in {40, 64} && LowerHex(s)
  }

  /** Every asset once, in sorted order, with a digest. */
  predicate ValidAssets(assets: seq<(string, string)>) {
    && Ascending(AssetKeys(assets))
    && SameElements(AssetKeys(assets), AssetNames())
    && forall i :: 0 <= i < |assets| ==> IsSha(assets[i].1)
  }

  function AssetKeys(assets: seq<(string, string)>): (r: seq<string>)
    ensures |r| == |assets| && forall i :: 0 <= i < |r| ==> r[i] == assets[i].0
  {
    if assets == [] then [] else [assets[0].0] + AssetKeys(assets[1..])
  }

  datatype RunPolicy = RunPolicy(
    path: string,
    branches: seq<string>,
    commands: seq<Command>,
    rounds: int,
    tasks: seq<TaskPolicy>,
    providers: seq<ProviderPolicy>,
    version: string,
    kind: string,
    revision: Option<string>,
    assets: seq<(string, string)>)
  {
    /** The constructor check. */
    predicate Valid() {
      && !Blank(path) && Absolute(path)
      && branches != [] && AllText(branches)
      && commands != [] && (forall c :: c in commands ==> c.Valid())
      && rounds >= 1 && !Blank(version)
      && SourceIdentity(kind, revision)
      && ValidAssets(assets)
      && (forall t :: t in tasks ==> t.Valid()) && (forall p :: p in providers ==> p.Valid())
      && Related(tasks, providers)
    }
  }

  predicate Absolute(path: string) {
    path != "" && path[0] == '/'
  }

  predicate SourceIdentity(kind: string, revision: Option<string>) {
    if kind == "git" then revision.Some? && IsSha(revision.value)
    else kind == "installed-package" && revision.None?
  }

  /** _validate_policy_relationships. */
  predicate Related(tasks: seq<TaskPolicy>, providers: seq<ProviderPolicy>) {
    && |tasks| == 3 && tasks[0].kind.ImplementationTask? && tasks[1].kind.ReviewTask? && tasks[2].kind.CorrectionTask?
    && (forall i, j :: 0 <= i < j < |providers| ==> providers[i].id != providers[j].id)
    && (forall p :: p in providers ==> Referenced(p, tasks))
    && forall t :: t in tasks ==> Served(t, providers)
  }

  predicate Referenced(p: ProviderPolicy, tasks: seq<TaskPolicy>) {
    exists t :: t in tasks && t.provider == p.id
  }

  /** A task is served by a provider that declares what it requires. */
  predicate Served(t: TaskPolicy, providers: seq<ProviderPolicy>) {
    exists p :: p in providers && p.id == t.provider && t.capabilities <= p.declared
  }

  const COMMAND_FIELDS := {NAME, ARGV, TIMEOUT_SECONDS}

  function EncodeCommand(c: Command): Json {
    Record(map[NAME := Str(c.name), ARGV := Arr(Texts(c.argv)), TIMEOUT_SECONDS := Int(c.timeout)])
  }

  function DecodePositive(v: Json): (r: Option<int>)
    ensures r.Some? ==> r.value >= 1
  {
    match v
    case Int(n) => if n >= 1 then Some(n) else None
    case _ => None
  }

  /** One turn of the loop of _parse_verification_commands; only the name is stripped. */
  function DecodeCommand(v: Json): (r: Option<Command>)
    ensures r.Some? ==> r.value.Valid() && Trimmed(r.value.name)
  {
    var fields :- ExactObject(v, COMMAND_FIELDS);
    var argv :- DecodeTexts(fields[ARGV], 1);
    var name :- DecodeStripped(fields[NAME]);
    var timeout :- DecodePositive(fields[TIMEOUT_SECONDS]);
    Some(Command(name, argv, timeout))
  }

  function EncodeCommands(commands: seq<Command>): seq<Json> {
    if commands == [] then [] else [EncodeCommand(commands[0])] + EncodeCommands(commands[1..])
  }

  function DecodeCommands(items: seq<Json>): (r: Option<seq<Command>>)
    ensures r.Some? ==> |r.value| == |items| && forall c :: c in r.value ==> c.Valid() && Trimmed(c.name)
  {
    if items == [] then Some([])
    else
      var before :- DecodeCommands(items[..|items| - 1]);
      var last :- DecodeCommand(items[|items| - 1]);
      Some(before + [last])
  }

  /** _parse_verification_commands. */
  method ParseVerificationCommands(v: Json) returns (r: Option<seq<Command>>)
    ensures r == if v.Arr? && v.items != [] then DecodeCommands(v.items) else None
  {
    hide DecodeCommand;
    if !v.Arr? || v.items == [] {
      return None;
    }
    var parsed := [];
    for i := 0 to |v.items|
      invariant DecodeCommands(v.items[..i]) == Some(parsed)
    {
      assert v.items[..i + 1][..i] == v.items[..i];
      var command := DecodeCommand(v.items[i]);
      if command.None? {
        CommandsPrefixFails(v.items, i + 1);
        return None;
      }
      parsed := parsed + [command.value];
    }
    assert v.items[..|v.items|] == v.items;
    return Some(parsed);
  }

  lemma {:induction false} CommandsPrefixFails(items: seq<Json>, n: nat)
    requires n <= |items| && DecodeCommands(items[..n]).None?
    ensures DecodeCommands(items).None?
    decreases |items|
  {
    if n == |items| {
      assert items[..n] == items;
    } else {
      assert items[..|items| - 1][..n] == items[..n];
      CommandsPrefixFails(items[..|items| - 1], n);
    }
  }

  /** _require_string_tuple: every text stripped. */
  function DecodeStrippedTexts(items: seq<Json>): (r: Option<seq<string>>)
    ensures r.Some? ==> |r.value| == |items| && AllText(r.value) && forall s :: s in r.value ==> Trimmed(s)
  {
    if items == [] then Some([])
    else
      var first :- DecodeStripped(items[0]);
      var rest :- DecodeStrippedTexts(items[1..]);
      Some([first] + rest)
  }

  function StripAll(values: seq<string>): (r: seq<string>)
    ensures |r| == |values| && forall i :: 0 <= i < |r| ==> r[i] == Strip(values[i])
  {
    if values == [] then [] else [Strip(values[0])] + StripAll(values[1..])
  }

  // ----- the sections of the policy -----

  const TARGET_FIELDS := {PATH, PROTECTED_BRANCHES}
  const VERIFICATION_FIELDS := {COMMANDS, MAX_CORRECTION_ROUNDS}
  const TASKS_FIELDS := {IMPLEMENTATION_POLICY, REVIEW_POLICY, CORRECTION_POLICY}
  const PACKAGE_FIELDS := {PACKAGE, VERSION, SOURCE}
  const SOURCE_FIELDS := {KIND, REVISION}
  const PACKAGE_NAME := "ticket-automation"

  function EncodeTarget(p: RunPolicy): Json {
    Record(map[PATH := Str(p.path), PROTECTED_BRANCHES := Arr(Texts(p.branches))])
  }

  function DecodeTarget(v: Json): Option<(string, seq<string>)> {
    var fields :- ExactObject(v, TARGET_FIELDS);
    var path :- DecodeStripped(fields[PATH]);
    if !Absolute(path) || !fields[PROTECTED_BRANCHES].Arr? || fields[PROTECTED_BRANCHES].items == [] then None
    else
      var branches :- DecodeStrippedTexts(fields[PROTECTED_BRANCHES].items);
      Some((path, branches))
  }

  function EncodeVerification(p: RunPolicy): Json {
    Record(map[COMMANDS := Arr(EncodeCommands(p.commands)), MAX_CORRECTION_ROUNDS := Int(p.rounds)])
  }

  function DecodeVerification(v: Json): Option<(seq<Command>, int)> {
    var fields :- ExactObject(v, VERIFICATION_FIELDS);
    if !fields[COMMANDS].Arr? || fields[COMMANDS].items == [] then None
    else
      var commands :- DecodeCommands(fields[COMMANDS].items);
      var rounds :- DecodePositive(fields[MAX_CORRECTION_ROUNDS]);
      Some((commands, rounds))
  }

  function EncodeTasks(tasks: seq<TaskPolicy>): Json
    requires |tasks| == 3
  {
    Record(map[
      IMPLEMENTATION_POLICY := EncodeTask(tasks[0]),
      REVIEW_POLICY := EncodeTask(tasks[1]),
      CORRECTION_POLICY := EncodeTask(tasks[2])])
  }

  /** _parse_task_policies: the tasks in the order of their kinds, whatever the order of the object. */
  function DecodeTasks(v: Json): Option<seq<TaskPolicy>> {
    var fields :- ExactObject(v, TASKS_FIELDS);
    var implementation :- DecodeTask(fields[IMPLEMENTATION_POLICY], ImplementationTask);
    var review :- DecodeTask(fields[REVIEW_POLICY], ReviewTask);
    var correction :- DecodeTask(fields[CORRECTION_POLICY], CorrectionTask);
    Some([implementation, review, correction])
  }

  function EncodeProviders(providers: seq<ProviderPolicy>): map<Key, Json> {
    if providers == [] then map[]
    else
      var last := providers[|providers| - 1];
      EncodeProviders(providers[..|providers| - 1])[Free(last.id) := EncodeProvider(last)]
  }

  function EncodePackage(p: RunPolicy): Json {
    Record(map[
      PACKAGE := Str(PACKAGE_NAME),
      VERSION := Str(p.version),
      SOURCE := Record(map[
        KIND := Str(p.kind),
        REVISION := if p.revision.None? then Null else Str(p.revision.value)])])
  }

  function DecodeSource(v: Json): Option<(string, Option<string>)> {
    var fields :- ExactObject(v, SOURCE_FIELDS);
    var kind :- DecodeStripped(fields[KIND]);
    match fields[REVISION]
    case Null => if SourceIdentity(kind, None) then Some((kind, None)) else None
    case Str(revision) => if SourceIdentity(kind, Some(revision)) then Some((kind, Some(revision))) else None
    case _ => None
  }

  function DecodePackage(v: Json): Option<(string, string, Option<string>)> {
    var fields :- ExactObject(v, PACKAGE_FIELDS);
    var name :- DecodeStripped(fields[PACKAGE]);
    var version :- DecodeStripped(fields[VERSION]);
    var source :- DecodeSource(fields[SOURCE]);
    if name == PACKAGE_NAME then Some((version, source.0, source.1)) else None
  }

  function EncodeAssets(assets: seq<(string, string)>): map<Key, Json> {
    if assets == [] then map[]
    else
      var last := assets[|assets| - 1];
      EncodeAssets(assets[..|assets| - 1])[Free(last.0) := Str(last.1)]
  }

  predicate AssetsParse(members: map<Key, Json>) {
    && (forall k :: k in members ==> k.Free? && k.text in AssetNames() && members[k].Str? && IsSha(members[k].text))
    && forall name :: name in AssetNames() ==> Free(name) in members
  }

  function ReadAssets(names: seq<string>, members: map<Key, Json>): (r: seq<(string, string)>)
    requires forall n :: n in names ==> Free(n) in members && members[Free(n)].Str?
    ensures |r| == |names| && forall i :: 0 <= i < |r| ==> r[i] == (names[i], members[Free(names[i])].text)
  {
    if names == [] then []
    else
      assert names[0] in names && forall n :: n in names[1..] ==> n in names;
      [(names[0], members[Free(names[0])].text)] + ReadAssets(names[1..], members)
  }

  ghost function DecodeAssets(v: Json): Option<seq<(string, string)>> {
    if v.Obj? && AssetsParse(v.members) then Some(ReadAssets(MemberNames(v.members), v.members)) else None
  }

  const POLICY_FIELDS :=
    {SCHEMA_VERSION, TARGET_REPOSITORY, VERIFICATION, TASK_POLICIES, PROVIDERS, TICKET_AUTOMATION, POLICY_ASSETS}

  function PolicyFields(p: RunPolicy): map<FieldName, Json>
    requires |p.tasks| == 3
  {
    map[
      SCHEMA_VERSION := Int(RUN_POLICY_SCHEMA),
      TARGET_REPOSITORY := EncodeTarget(p),
      VERIFICATION := EncodeVerification(p),
      TASK_POLICIES := EncodeTasks(p.tasks),
      PROVIDERS := Obj(EncodeProviders(p.providers)),
      TICKET_AUTOMATION := EncodePackage(p),
      POLICY_ASSETS := Obj(EncodeAssets(p.assets))]
  }

  /** ResolvedRunPolicy.to_dict. */
  function EncodePolicy(p: RunPolicy): Json
    requires p.Valid()
  {
    Record(PolicyFields(p))
  }

  /** ResolvedRunPolicy.from_dict: the constructor checks the whole again. */
  ghost function DecodePolicy(v: Json): (r: Option<RunPolicy>)
    ensures r.Some? ==> r.value.Valid()
  {
    var fields :- ExactObject(v, POLICY_FIELDS);
    if fields[SCHEMA_VERSION] != Int(RUN_POLICY_SCHEMA) || !fields[PROVIDERS].Obj? then None
    else
      var target :- DecodeTarget(fields[TARGET_REPOSITORY]);
      var verification :- DecodeVerification(fields[VERIFICATION]);
      var tasks :- DecodeTasks(fields[TASK_POLICIES]);
      var providers :- DecodeProviders(fields[PROVIDERS].members);
      var package :- DecodePackage(fields[TICKET_AUTOMATION]);
      var assets :- DecodeAssets(fields[POLICY_ASSETS]);
      var p := RunPolicy(target.0, target.1, verification.0, verification.1, tasks, providers,
        package.0, package.1, package.2, assets);
      if p.Valid() then Some(p) else None
  }
}
