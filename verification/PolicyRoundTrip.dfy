/** What a run policy is after it was written and read again. */
module PolicyRoundTrip {
  import opened Wrappers
  import opened TaskResults
  import opened Trimming
  import opened AgentExecutions
  import opened JsonValues
  import opened Canonicalization
  import opened EvidenceCodec
  import opened PolicyCodec

  // ----- text and spellings -----

  lemma StrippedEnumRoundTrip<T>(table: seq<(T, string)>, x: T)
    requires Faithful(table) && Covers(table, x)
    requires forall i :: 0 <= i < |table| ==> Trimmed(table[i].1)
    ensures DecodeStrippedEnum(table, EncodeEnum(table, x)) == Some(x)
  {
    hide Strip, Blank, Trimmed;
    var i :| 0 <= i < |table| && table[i] == (x, Spell(table, x));
    StripIsNormal(table[i].1);
    FindAt(table, i);
  }

  lemma AccessText(i: nat)
    requires i < |AccessNames()|
    ensures !Blank(AccessNames()[i].1) && Trimmed(AccessNames()[i].1)
  {
    NotBlank(AccessNames()[i].1);
  }

  lemma AccessReads(x: RepositoryAccess)
    ensures Covers(AccessNames(), x) && DecodeStrippedEnum(AccessNames(), EncodeEnum(AccessNames(), x)) == Some(x)
  {
    hide Blank, Trimmed, Space;
    AccessRoundTrip(x);
    forall i | 0 <= i < |AccessNames()| ensures !Blank(AccessNames()[i].1) && Trimmed(AccessNames()[i].1) {
      AccessText(i);
    }
    StrippedEnumRoundTrip(AccessNames(), x);
  }

  lemma NetworkText(i: nat)
    requires i < |NetworkNames()|
    ensures !Blank(NetworkNames()[i].1) && Trimmed(NetworkNames()[i].1)
  {
    NotBlank(NetworkNames()[i].1);
  }

  lemma NetworkReads(x: NetworkAccess)
    ensures Covers(NetworkNames(), x) && DecodeStrippedEnum(NetworkNames(), EncodeEnum(NetworkNames(), x)) == Some(x)
  {
    hide Blank, Trimmed, Space;
    NetworkRoundTrip(x);
    forall i | 0 <= i < |NetworkNames()| ensures !Blank(NetworkNames()[i].1) && Trimmed(NetworkNames()[i].1) {
      NetworkText(i);
    }
    StrippedEnumRoundTrip(NetworkNames(), x);
  }

  lemma {:induction false} ListedSize(k: nat, s: set<Capability>)
    requires k <= |CapabilityNames()|
    ensures |EncodeCapabilities(CapabilityNames()[k..], s)| == |Listed(CapabilityNames()[k..], s)|
    decreases |CapabilityNames()| - k
  {
    if k < |CapabilityNames()| {
      ListedSize(k + 1, s);
      var table := CapabilityNames()[k..];
      assert table[1..] == CapabilityNames()[k + 1..];
      ListedIsMember(table[1..], s, table[0].0);
      assert forall i :: 0 <= i < |table[1..]| ==> table[1..][i] == CapabilityNames()[k + 1 + i];
    }
  }

  lemma CapabilityListRoundTrip(s: set<Capability>)
    requires s != {}
    ensures DecodeCapabilityList(EncodeCapabilityList(s)) == Some(s)
  {
    CapabilitiesRoundTrip(s);
    ListedSize(0, s);
    CapabilitiesFrom(0, s);
    assert CapabilityNames()[0..] == CapabilityNames();
  }

  // ----- tasks and providers -----

  lemma ExecutionPolicyRoundTrip(t: TaskPolicy)
    requires t.Valid()
    ensures DecodeExecutionPolicy(EncodeExecutionPolicy(t)) == Some((t.timeout, t.network))
  {
    hide ExactObject, Record, DecodeStrippedEnum, EncodeEnum, DecodeTimeout, EncodeTimeout;
    NetworkReads(t.network);
    TimeoutRoundTrip(t.timeout);
    var fields := map[TIMEOUT_SECONDS := EncodeTimeout(t.timeout), NETWORK_ACCESS := EncodeEnum(NetworkNames(), t.network)];
    assert fields.Keys == EXECUTION_POLICY_FIELDS;
    RecordIsExact(fields);
  }

  lemma TaskPolicyRoundTrip(t: TaskPolicy)
    requires t.Valid()
    ensures DecodeTask(EncodeTask(t), t.kind) == Some(t)
  {
    hide ExactObject, Record, DecodeStrippedEnum, EncodeEnum, DecodeCapabilityList, EncodeCapabilityList,
      DecodeExecutionPolicy, EncodeExecutionPolicy, Strip, Blank, Trimmed, ValidTimeout;
    AccessReads(t.access);
    assert STRUCTURED_RESULT in t.capabilities;
    CapabilityListRoundTrip(t.capabilities);
    ExecutionPolicyRoundTrip(t);
    StripIsNormal(t.provider);
    var fields := TaskFields(t);
    assert fields.Keys == TASK_FIELDS;
    RecordIsExact(fields);
  }

  function StripVersion(p: ProviderPolicy): ProviderPolicy {
    p.(version := Strip(p.version))
  }

  lemma ProviderRoundTrip(p: ProviderPolicy)
    requires p.Valid() && p.declared != {}
    ensures DecodeProvider(p.id, EncodeProvider(p)) == Some(StripVersion(p))
  {
    hide ExactObject, Record, DecodeCapabilityList, EncodeCapabilityList, Strip, Blank, Trimmed;
    CapabilityListRoundTrip(p.declared);
    StripIsNormal(p.id);
    var fields := ProviderFields(p);
    assert fields.Keys == PROVIDER_FIELDS;
    RecordIsExact(fields);
  }

  // ----- sorting the providers -----

  function InsertById(p: ProviderPolicy, ps: seq<ProviderPolicy>): seq<ProviderPolicy> {
    if ps == [] then [p]
    else if Below(ps[0].id, p.id) then [ps[0]] + InsertById(p, ps[1..])
    else [p] + ps
  }

  /** sorted(..., key=provider id). */
  function SortById(ps: seq<ProviderPolicy>): seq<ProviderPolicy> {
    if ps == [] then [] else InsertById(ps[0], SortById(ps[1..]))
  }

  function StripVersions(ps: seq<ProviderPolicy>): (r: seq<ProviderPolicy>)
    ensures |r| == |ps| && forall i :: 0 <= i < |r| ==> r[i] == StripVersion(ps[i])
  {
    if ps == [] then [] else [StripVersion(ps[0])] + StripVersions(ps[1..])
  }

  predicate DistinctIds(ps: seq<ProviderPolicy>) {
    forall i, j :: 0 <= i < j < |ps| ==> ps[i].id != ps[j].id
  }

  lemma {:induction false} InsertByIdIds(p: ProviderPolicy, ps: seq<ProviderPolicy>)
    requires p.id !in ProviderIds(ps)
    ensures ProviderIds(InsertById(p, ps)) == Insert(p.id, ProviderIds(ps))
    ensures SameElements(InsertById(p, ps), [p] + ps)
  {
    hide Below;
    if ps != [] {
      assert ProviderIds(ps)[0] == ps[0].id;
      BelowIsTotal(p.id, ps[0].id);
      BelowIsStrict(p.id, ps[0].id);
      if Below(ps[0].id, p.id) {
        InsertByIdIds(p, ps[1..]);
        assert ps == [ps[0]] + ps[1..];
        SameElementsAfter(ps[0], InsertById(p, ps[1..]), p, ps[1..]);
      }
    }
  }

  lemma SameElementsAfter(head: ProviderPolicy, inserted: seq<ProviderPolicy>, p: ProviderPolicy, rest: seq<ProviderPolicy>)
    requires SameElements(inserted, [p] + rest)
    ensures SameElements([head] + inserted, [p] + ([head] + rest))
  {
    forall x | x in [p] + ([head] + rest) ensures x in [head] + inserted {
      assert x == head || x in [p] + rest;
    }
    forall x | x in [head] + inserted ensures x in [p] + ([head] + rest) {
      assert x == head || x in [p] + rest;
    }
  }

  /** Sorting keeps the elements and orders the identities. */
  lemma {:induction false} SortByIdIsSorted(ps: seq<ProviderPolicy>)
    requires DistinctIds(ps)
    ensures ProviderIds(SortById(ps)) == SortedUnique(ProviderIds(ps))
    ensures SameElements(SortById(ps), ps)
  {
    if ps != [] {
      var rest := ps[1..];
      assert forall i :: 0 <= i < |rest| ==> rest[i] == ps[i + 1];
      SortByIdIsSorted(rest);
      SortedUniqueCorrect(ProviderIds(rest));
      assert forall x :: x in ProviderIds(rest) ==> x != ps[0].id;
      InsertByIdIds(ps[0], SortById(rest));
      SameElementsTrans(InsertById(ps[0], SortById(rest)), ps[0], SortById(rest), ps);
    }
  }

  lemma SameElementsTrans(r: seq<ProviderPolicy>, p: ProviderPolicy, sorted: seq<ProviderPolicy>, ps: seq<ProviderPolicy>)
    requires ps != [] && ps[0] == p && SameElements(r, [p] + sorted) && SameElements(sorted, ps[1..])
    ensures SameElements(r, ps)
  {
    assert ps == [p] + ps[1..];
    forall x | x in ps ensures x in r {
      assert x in [p] + sorted;
    }
    forall x | x in r ensures x in ps {
      assert x in [p] + sorted;
    }
  }

  /** A sequence is fixed by its identities and what each identity stands for. */
  lemma SameIdsSamePolicies(r: seq<ProviderPolicy>, s: seq<ProviderPolicy>)
    requires ProviderIds(r) == ProviderIds(s) && DistinctIds(s)
    requires forall x :: x in r ==> x in s
    ensures r == s
  {
    assert |r| == |ProviderIds(r)| == |s|;
    forall i | 0 <= i < |r| ensures r[i] == s[i] {
      assert r[i] in r && ProviderIds(r)[i] == r[i].id && ProviderIds(s)[i] == s[i].id;
      var j :| 0 <= j < |s| && s[j] == r[i];
    }
  }

  // ----- the providers of a policy -----

  lemma {:induction false} EncodedProvider(ps: seq<ProviderPolicy>, i: nat)
    requires DistinctIds(ps) && i < |ps|
    ensures Free(ps[i].id) in EncodeProviders(ps) && EncodeProviders(ps)[Free(ps[i].id)] == EncodeProvider(ps[i])
    decreases |ps|
  {
    hide EncodeProvider;
    if i < |ps| - 1 {
      var front := ps[..|ps| - 1];
      EncodedProvider(front, i);
      assert front[i].id != ps[|ps| - 1].id;
    }
  }

  lemma {:induction false} EncodedKey(ps: seq<ProviderPolicy>, k: Key) returns (i: nat)
    requires k in EncodeProviders(ps)
    ensures i < |ps| && k == Free(ps[i].id)
    decreases |ps|
  {
    hide EncodeProvider;
    i := |ps| - 1;
    if k != Free(ps[i].id) {
      i := EncodedKey(ps[..i], k);
    }
  }

  predicate Storable(ps: seq<ProviderPolicy>) {
    ps != [] && DistinctIds(ps) && forall p :: p in ps ==> p.Valid() && p.declared != {}
  }

  lemma EncodedMember(ps: seq<ProviderPolicy>, k: Key)
    requires Storable(ps) && k in EncodeProviders(ps)
    ensures k.Free? && k.text in ProviderIds(ps) && DecodeProvider(k.text, EncodeProviders(ps)[k]).Some?
  {
    hide EncodeProvider, DecodeProvider, EncodeProviders;
    var i := EncodedKey(ps, k);
    EncodedProvider(ps, i);
    ProviderRoundTrip(ps[i]);
    assert ProviderIds(ps)[i] == k.text;
  }

  lemma EncodedProvidersParse(ps: seq<ProviderPolicy>)
    requires Storable(ps)
    ensures ProvidersParse(EncodeProviders(ps))
    ensures SameElements(MemberNames(EncodeProviders(ps)), ProviderIds(ps))
  {
    hide EncodeProviders, DecodeProvider;
    var members := EncodeProviders(ps);
    EncodedProvider(ps, 0);
    forall k | k in members ensures k.Free? && k.text in ProviderIds(ps) && DecodeProvider(k.text, members[k]).Some? {
      EncodedMember(ps, k);
    }
    forall id | id in ProviderIds(ps) ensures id in MemberNames(members) {
      var i :| 0 <= i < |ps| && ProviderIds(ps)[i] == id;
      EncodedProvider(ps, i);
    }
  }

  lemma StrippedIds(ps: seq<ProviderPolicy>)
    ensures ProviderIds(StripVersions(ps)) == ProviderIds(ps)
    ensures DistinctIds(ps) ==> DistinctIds(StripVersions(ps))
  {
  }

  lemma DecodedIsStripped(ps: seq<ProviderPolicy>, id: string, x: ProviderPolicy)
    requires Storable(ps) && Free(id) in EncodeProviders(ps)
    requires DecodeProvider(id, EncodeProviders(ps)[Free(id)]) == Some(x)
    ensures x in StripVersions(ps)
  {
    hide EncodeProvider, DecodeProvider, StripVersion;
    var i := EncodedKey(ps, Free(id));
    EncodedProvider(ps, i);
    ProviderRoundTrip(ps[i]);
    assert StripVersions(ps)[i] == x;
  }

  /** Providers come back sorted, with their versions stripped. */
  lemma ProvidersRoundTrip(ps: seq<ProviderPolicy>)
    requires Storable(ps)
    ensures DecodeProviders(EncodeProviders(ps)) == Some(SortById(StripVersions(ps)))
  {
    hide EncodeProvider, DecodeProvider, EncodeProviders, ProvidersParse, StripVersion;
    EncodedProvidersParse(ps);
    StrippedIds(ps);
    var members, stripped := EncodeProviders(ps), StripVersions(ps);
    var ids := MemberNames(members);
    var r := DecodeNamed(ids, members);
    SortByIdIsSorted(stripped);
    SortedUniqueCorrect(ProviderIds(ps));
    AscendingIsUnique(ids, SortedUnique(ProviderIds(ps)));
    forall x | x in r ensures x in SortById(stripped) {
      var i :| 0 <= i < |r| && r[i] == x;
      assert ids[i] in ids;
      DecodedIsStripped(ps, ids[i], x);
    }
    AscendingIds(SortById(stripped));
    SameIdsSamePolicies(r, SortById(stripped));
  }

  lemma AscendingIds(ps: seq<ProviderPolicy>)
    requires Ascending(ProviderIds(ps))
    ensures DistinctIds(ps)
  {
    forall i, j | 0 <= i < j < |ps| ensures ps[i].id != ps[j].id {
      assert Below(ProviderIds(ps)[i], ProviderIds(ps)[j]);
      BelowIsStrict(ps[i].id, ps[j].id);
    }
  }

  // ----- the other sections -----

  function StripName(c: Command): Command {
    c.(name := Strip(c.name))
  }

  function StripNames(cs: seq<Command>): (r: seq<Command>)
    ensures |r| == |cs| && forall i :: 0 <= i < |r| ==> r[i] == StripName(cs[i])
  {
    if cs == [] then [] else [StripName(cs[0])] + StripNames(cs[1..])
  }

  lemma CommandRoundTrip(c: Command)
    requires c.Valid()
    ensures DecodeCommand(EncodeCommand(c)) == Some(StripName(c))
  {
    hide ExactObject, Record, Strip, Blank, Trimmed, TextsOf;
    TextsRoundTrip(c.argv);
    var fields := map[NAME := Str(c.name), ARGV := Arr(Texts(c.argv)), TIMEOUT_SECONDS := Int(c.timeout)];
    assert fields.Keys == COMMAND_FIELDS;
    RecordIsExact(fields);
  }

  lemma {:induction false} EncodeCommandsAppended(cs: seq<Command>)
    requires cs != []
    ensures EncodeCommands(cs) == EncodeCommands(cs[..|cs| - 1]) + [EncodeCommand(cs[|cs| - 1])]
  {
    hide EncodeCommand;
    if |cs| > 1 {
      EncodeCommandsAppended(cs[1..]);
      assert cs[1..][..|cs| - 2] == cs[..|cs| - 1][1..];
    }
  }

  lemma DecodedAppended(items: seq<Json>, last: Json, parsed: seq<Command>, c: Command)
    requires DecodeCommands(items) == Some(parsed) && DecodeCommand(last) == Some(c)
    ensures DecodeCommands(items + [last]) == Some(parsed + [c])
  {
    hide DecodeCommand, Command.Valid;
    assert (items + [last])[..|items|] == items;
  }

  lemma CommandsStep(cs: seq<Command>, front: seq<Command>, last: Command)
    requires cs == front + [last] && last.Valid()
    requires |EncodeCommands(front)| == |front| && DecodeCommands(EncodeCommands(front)) == Some(StripNames(front))
    ensures |EncodeCommands(cs)| == |cs| && DecodeCommands(EncodeCommands(cs)) == Some(StripNames(cs))
  {
    hide EncodeCommands, DecodeCommands, StripNames, EncodeCommand, DecodeCommand, StripName, Command.Valid;
    assert cs[..|cs| - 1] == front;
    EncodeCommandsAppended(cs);
    CommandRoundTrip(last);
    DecodedAppended(EncodeCommands(front), EncodeCommand(last), StripNames(front), StripName(last));
    assert StripNames(cs) == StripNames(front) + [StripName(last)];
  }

  lemma {:induction false} CommandsRoundTrip(cs: seq<Command>)
    requires forall c :: c in cs ==> c.Valid()
    ensures |EncodeCommands(cs)| == |cs| && DecodeCommands(EncodeCommands(cs)) == Some(StripNames(cs))
    decreases |cs|
  {
    hide EncodeCommand, DecodeCommand, StripName, Command.Valid;
    if cs != [] {
      var front, last := cs[..|cs| - 1], cs[|cs| - 1];
      CommandsRoundTrip(front);
      CommandsStep(cs, front, last);
    }
  }

  lemma {:induction false} StrippedTextsRoundTrip(values: seq<string>)
    requires AllText(values)
    ensures DecodeStrippedTexts(Texts(values)) == Some(StripAll(values))
  {
    hide Strip, Blank;
    if values != [] {
      assert values[0] in values;
      StrippedTextsRoundTrip(values[1..]);
      assert Texts(values)[1..] == Texts(values[1..]);
    }
  }

  lemma TargetRoundTrip(p: RunPolicy)
    requires p.Valid()
    ensures DecodeTarget(EncodeTarget(p)) == Some((Strip(p.path), StripAll(p.branches))) && Absolute(Strip(p.path))
  {
    hide ExactObject, Record, Strip, Blank, Texts, Related, ValidAssets, SourceIdentity;
    StrippedTextsRoundTrip(p.branches);
    StripIsNormal(p.path);
    var fields := map[PATH := Str(p.path), PROTECTED_BRANCHES := Arr(Texts(p.branches))];
    assert fields.Keys == TARGET_FIELDS;
    RecordIsExact(fields);
  }

  lemma VerificationRoundTrip(p: RunPolicy)
    requires p.Valid()
    ensures DecodeVerification(EncodeVerification(p)) == Some((StripNames(p.commands), p.rounds))
  {
    hide ExactObject, Record, Strip, Blank, EncodeCommands, DecodeCommands, Related, ValidAssets, SourceIdentity;
    CommandsRoundTrip(p.commands);
    var fields := map[COMMANDS := Arr(EncodeCommands(p.commands)), MAX_CORRECTION_ROUNDS := Int(p.rounds)];
    assert fields.Keys == VERIFICATION_FIELDS;
    RecordIsExact(fields);
  }

  lemma TasksRoundTrip(p: RunPolicy)
    requires p.Valid()
    ensures DecodeTasks(EncodeTasks(p.tasks)) == Some(p.tasks)
  {
    hide ExactObject, Record, EncodeTask, DecodeTask, TaskPolicy.Valid, ValidAssets, SourceIdentity;
    assert p.tasks[0] in p.tasks && p.tasks[1] in p.tasks && p.tasks[2] in p.tasks;
    assert p.tasks == [p.tasks[0], p.tasks[1], p.tasks[2]];
    TaskPolicyRoundTrip(p.tasks[0]);
    TaskPolicyRoundTrip(p.tasks[1]);
    TaskPolicyRoundTrip(p.tasks[2]);
    var fields := map[
      IMPLEMENTATION_POLICY := EncodeTask(p.tasks[0]),
      REVIEW_POLICY := EncodeTask(p.tasks[1]),
      CORRECTION_POLICY := EncodeTask(p.tasks[2])];
    assert fields.Keys == TASKS_FIELDS;
    RecordIsExact(fields);
  }

  lemma SourceRoundTrip(kind: string, revision: Option<string>)
    requires SourceIdentity(kind, revision)
    ensures DecodeSource(Record(map[KIND := Str(kind), REVISION := if revision.None? then Null else Str(revision.value)]))
      == Some((kind, revision))
  {
    hide ExactObject, Record, Strip, Blank, IsSha;
    NotBlank(kind);
    StripIsNormal(kind);
    var fields := map[KIND := Str(kind), REVISION := if revision.None? then Null else Str(revision.value)];
    assert fields.Keys == SOURCE_FIELDS;
    RecordIsExact(fields);
  }

  lemma PackageRoundTrip(p: RunPolicy)
    requires p.Valid()
    ensures DecodePackage(EncodePackage(p)) == Some((Strip(p.version), p.kind, p.revision))
  {
    hide ExactObject, Record, Strip, Blank, SourceIdentity, DecodeSource, Related, ValidAssets;
    NotBlank(PACKAGE_NAME);
    StripIsNormal(PACKAGE_NAME);
    SourceRoundTrip(p.kind, p.revision);
    var fields := map[
      PACKAGE := Str(PACKAGE_NAME),
      VERSION := Str(p.version),
      SOURCE := Record(map[
        KIND := Str(p.kind),
        REVISION := if p.revision.None? then Null else Str(p.revision.value)])];
    assert fields.Keys == PACKAGE_FIELDS;
    RecordIsExact(fields);
  }

  lemma {:induction false} EncodedAsset(assets: seq<(string, string)>, i: nat)
    requires Ascending(AssetKeys(assets)) && i < |assets|
    ensures Free(assets[i].0) in EncodeAssets(assets) && EncodeAssets(assets)[Free(assets[i].0)] == Str(assets[i].1)
    decreases |assets|
  {
    var n := |assets| - 1;
    if i < n {
      assert AssetKeys(assets[..n]) == AssetKeys(assets)[..n];
      EncodedAsset(assets[..n], i);
      assert Below(AssetKeys(assets)[i], AssetKeys(assets)[n]);
      BelowIsStrict(assets[i].0, assets[n].0);
      assert assets[..n][i] == assets[i];
    }
  }

  lemma {:induction false} EncodedAssetKey(assets: seq<(string, string)>, k: Key) returns (i: nat)
    requires k in EncodeAssets(assets)
    ensures i < |assets| && k == Free(assets[i].0)
    decreases |assets|
  {
    i := |assets| - 1;
    if k != Free(assets[i].0) {
      i := EncodedAssetKey(assets[..i], k);
    }
  }

  lemma AssetMember(assets: seq<(string, string)>, k: Key)
    requires ValidAssets(assets) && k in EncodeAssets(assets)
    ensures k.Free? && k.text in AssetKeys(assets)
    ensures EncodeAssets(assets)[k].Str? && IsSha(EncodeAssets(assets)[k].text)
  {
    hide EncodeAssets, IsSha, SameElements, Below;
    var i := EncodedAssetKey(assets, k);
    EncodedAsset(assets, i);
    assert AssetKeys(assets)[i] == k.text;
  }

  lemma AssetPresent(assets: seq<(string, string)>, name: string)
    requires ValidAssets(assets) && name in AssetKeys(assets)
    ensures Free(name) in EncodeAssets(assets)
  {
    hide EncodeAssets, IsSha, SameElements, Below;
    var i :| 0 <= i < |assets| && AssetKeys(assets)[i] == name;
    EncodedAsset(assets, i);
  }

  lemma EncodedAssetsParse(assets: seq<(string, string)>)
    requires ValidAssets(assets)
    ensures AssetsParse(EncodeAssets(assets))
    ensures MemberNames(EncodeAssets(assets)) == AssetKeys(assets)
  {
    hide EncodeAssets, IsSha, Below, AssetKeys, Ascending;
    var members, names := EncodeAssets(assets), AssetNames();
    assert SameElements(AssetKeys(assets), names);
    forall k | k in members
      ensures k.Free? && k.text in names && k.text in AssetKeys(assets) && members[k].Str? && IsSha(members[k].text)
    {
      AssetMember(assets, k);
    }
    forall name | name in AssetKeys(assets) ensures Free(name) in members {
      AssetPresent(assets, name);
    }
    AscendingIsUnique(MemberNames(members), AssetKeys(assets));
  }

  lemma AssetsRoundTrip(assets: seq<(string, string)>)
    requires ValidAssets(assets)
    ensures DecodeAssets(Obj(EncodeAssets(assets))) == Some(assets)
  {
    hide EncodeAssets;
    EncodedAssetsParse(assets);
    var members := EncodeAssets(assets);
    var r := ReadAssets(MemberNames(members), members);
    forall i | 0 <= i < |assets| ensures r[i] == assets[i] {
      EncodedAsset(assets, i);
    }
    assert r == assets;
  }

  // ----- the whole policy -----

  /** What a policy is after one trip: its free text stripped and its providers sorted. */
  function Normal(p: RunPolicy): RunPolicy {
    p.(path := Strip(p.path), branches := StripAll(p.branches), commands := StripNames(p.commands),
       version := Strip(p.version), providers := SortById(StripVersions(p.providers)))
  }

  lemma ValidIsStorable(p: RunPolicy)
    requires p.Valid()
    ensures Storable(p.providers)
  {
    hide ValidAssets, SourceIdentity, Blank, Absolute, ProviderPolicy.Valid, ProviderName, Command.Valid, ValidTimeout;
    var t := p.tasks[0];
    assert t in p.tasks;
    var served :| served in p.providers && served.id == t.provider && t.capabilities <= served.declared;
    forall q | q in p.providers ensures q.declared != {} {
      ProviderDeclares(p, q);
    }
  }

  /** Every provider serves a task, so it declares that task's capabilities. */
  lemma ProviderDeclares(p: RunPolicy, q: ProviderPolicy)
    requires p.Valid() && q in p.providers
    ensures q.declared != {}
  {
    hide ValidAssets, SourceIdentity, Blank, Absolute, ProviderPolicy.Valid, ProviderName, Command.Valid, ValidTimeout;
    var t :| t in p.tasks && t.provider == q.id;
    var served :| served in p.providers && served.id == t.provider && t.capabilities <= served.declared;
    assert served == q;
    assert STRUCTURED_RESULT in t.capabilities;
  }

  lemma StrippedTextIsValid(p: RunPolicy)
    requires p.Valid()
    ensures !Blank(Strip(p.path)) && Absolute(Strip(p.path)) && !Blank(Strip(p.version))
    ensures AllText(StripAll(p.branches)) && forall c :: c in StripNames(p.commands) ==> c.Valid()
  {
    hide ValidAssets, SourceIdentity, Blank, Strip, Trimmed, TaskPolicy.Valid, ProviderPolicy.Valid, Related;
    StripIsNormal(p.path);
    StripIsNormal(p.version);
    forall s | s in StripAll(p.branches) ensures !Blank(s) {
      var i :| 0 <= i < |p.branches| && StripAll(p.branches)[i] == s;
      StripIsNormal(p.branches[i]);
    }
    forall c | c in StripNames(p.commands) ensures c.Valid() {
      var i :| 0 <= i < |p.commands| && StripNames(p.commands)[i] == c;
      StripIsNormal(p.commands[i].name);
      assert p.commands[i] in p.commands;
    }
  }

  /** The normal providers are the old ones with stripped versions, sorted. */
  lemma NormalProviders(ps: seq<ProviderPolicy>)
    requires Storable(ps)
    ensures Ascending(ProviderIds(SortById(StripVersions(ps)))) && DistinctIds(SortById(StripVersions(ps)))
    ensures SameElements(SortById(StripVersions(ps)), StripVersions(ps))
  {
    hide StripVersion;
    StrippedIds(ps);
    SortByIdIsSorted(StripVersions(ps));
    SortedUniqueCorrect(ProviderIds(StripVersions(ps)));
    AscendingIds(SortById(StripVersions(ps)));
  }

  lemma NormalProviderOrigin(ps: seq<ProviderPolicy>, q: ProviderPolicy) returns (i: nat)
    requires Storable(ps) && q in SortById(StripVersions(ps))
    ensures i < |ps| && ps[i] in ps && q == StripVersion(ps[i]) && q.Valid()
  {
    hide SortById, Strip, Blank, Trimmed;
    NormalProviders(ps);
    assert q in StripVersions(ps);
    i :| 0 <= i < |ps| && StripVersions(ps)[i] == q;
    StripIsNormal(ps[i].version);
    assert ps[i] in ps;
  }

  lemma NormalProviderOf(ps: seq<ProviderPolicy>, p: ProviderPolicy)
    requires Storable(ps) && p in ps
    ensures StripVersion(p) in SortById(StripVersions(ps))
  {
    hide SortById, StripVersion;
    NormalProviders(ps);
    var i :| 0 <= i < |ps| && ps[i] == p;
    assert StripVersions(ps)[i] in StripVersions(ps);
  }

  lemma StillServed(t: TaskPolicy, ps: seq<ProviderPolicy>)
    requires Storable(ps) && Served(t, ps)
    ensures Served(t, SortById(StripVersions(ps)))
  {
    hide SortById, StripVersions, Storable, Strip;
    var q :| q in ps && q.id == t.provider && t.capabilities <= q.declared;
    NormalProviderOf(ps, q);
  }

  lemma StillReferenced(q: ProviderPolicy, tasks: seq<TaskPolicy>, ps: seq<ProviderPolicy>)
    requires Storable(ps) && q in SortById(StripVersions(ps))
    requires forall p :: p in ps ==> Referenced(p, tasks)
    ensures q.Valid() && Referenced(q, tasks)
  {
    hide SortById, StripVersions, Storable, Strip, ProviderPolicy.Valid;
    var i := NormalProviderOrigin(ps, q);
    assert Referenced(ps[i], tasks);
  }

  lemma NormalProvidersServe(tasks: seq<TaskPolicy>, ps: seq<ProviderPolicy>)
    requires Storable(ps) && Related(tasks, ps)
    ensures forall q :: q in SortById(StripVersions(ps)) ==> q.Valid()
    ensures Related(tasks, SortById(StripVersions(ps)))
  {
    hide SortById, StripVersions, Storable, ProviderPolicy.Valid, Referenced, Served;
    NormalProviders(ps);
    forall q | q in SortById(StripVersions(ps)) ensures q.Valid() && Referenced(q, tasks) {
      StillReferenced(q, tasks, ps);
    }
    forall t | t in tasks ensures Served(t, SortById(StripVersions(ps))) {
      StillServed(t, ps);
    }
  }

  lemma NormalIsValid(p: RunPolicy)
    requires p.Valid()
    ensures Normal(p).Valid()
  {
    hide ValidAssets, SourceIdentity, Blank, Strip, Related, Absolute, SortById, TaskPolicy.Valid, Command.Valid,
      ProviderPolicy.Valid, StripVersion, StripName;
    ValidIsStorable(p);
    StrippedTextIsValid(p);
    NormalProvidersServe(p.tasks, p.providers);
  }

  lemma SectionsRead(p: RunPolicy, fields: map<FieldName, Json>)
    requires p.Valid() && fields == PolicyFields(p) && fields.Keys == POLICY_FIELDS
    ensures fields[SCHEMA_VERSION] == Int(RUN_POLICY_SCHEMA) && fields[PROVIDERS].Obj?
    ensures DecodeTarget(fields[TARGET_REPOSITORY]) == Some((Strip(p.path), StripAll(p.branches)))
    ensures DecodeVerification(fields[VERIFICATION]) == Some((StripNames(p.commands), p.rounds))
    ensures DecodeTasks(fields[TASK_POLICIES]) == Some(p.tasks)
    ensures DecodeProviders(fields[PROVIDERS].members) == Some(SortById(StripVersions(p.providers)))
    ensures DecodePackage(fields[TICKET_AUTOMATION]) == Some((Strip(p.version), p.kind, p.revision))
    ensures DecodeAssets(fields[POLICY_ASSETS]) == Some(p.assets)
  {
    hide DecodeTarget, EncodeTarget, DecodeVerification, EncodeVerification, DecodeTasks, EncodeTasks, DecodeProviders,
      EncodeProviders, DecodePackage, EncodePackage, DecodeAssets, EncodeAssets, Strip, StripAll, StripNames,
      StripVersions, SortById, Storable, Blank, Absolute, SourceIdentity, ValidAssets, Related;
    ValidIsStorable(p);
    TargetRoundTrip(p);
    VerificationRoundTrip(p);
    TasksRoundTrip(p);
    ProvidersRoundTrip(p.providers);
    PackageRoundTrip(p);
    AssetsRoundTrip(p.assets);
  }

  lemma PolicyKeys(p: RunPolicy)
    requires |p.tasks| == 3
    ensures PolicyFields(p).Keys == POLICY_FIELDS
  {
  }

  /** Writing a policy and reading it again gives its normal form, which satisfies every construction check. */
  lemma RoundTrip(p: RunPolicy)
    requires p.Valid()
    ensures DecodePolicy(EncodePolicy(p)) == Some(Normal(p))
  {
    NormalIsValid(p);
    assert |p.tasks| == 3;
    hide RunPolicy.Valid, ExactObject, Record, DecodeTarget, DecodeVerification, DecodeTasks, DecodeProviders,
      DecodePackage, DecodeAssets, Strip, StripAll, StripNames, StripVersions, SortById, PolicyFields;
    var fields := PolicyFields(p);
    PolicyKeys(p);
    RecordIsExact(fields);
    SectionsRead(p, fields);
  }

  /** Free text carries no surrounding whitespace and the providers are sorted. */
  predicate Settled(p: RunPolicy) {
    && Trimmed(p.path) && Trimmed(p.version)
    && (forall s :: s in p.branches ==> Trimmed(s))
    && (forall c :: c in p.commands ==> Trimmed(c.name))
    && (forall q :: q in p.providers ==> Trimmed(q.version))
    && Ascending(ProviderIds(p.providers))
  }

  lemma SettledIsNormal(p: RunPolicy)
    requires p.Valid() && Settled(p)
    ensures Normal(p) == p
  {
    hide ValidAssets, SourceIdentity, Blank, Strip, Trimmed, Related, Absolute, Command.Valid, TaskPolicy.Valid,
      ProviderPolicy.Valid, SortById;
    StripIsNormal(p.path);
    StripIsNormal(p.version);
    forall i | 0 <= i < |p.branches| ensures StripAll(p.branches)[i] == p.branches[i] {
      StripIsNormal(p.branches[i]);
    }
    forall i | 0 <= i < |p.commands| ensures StripNames(p.commands)[i] == p.commands[i] {
      StripIsNormal(p.commands[i].name);
    }
    SortedIsFixed(p.providers);
    assert StripAll(p.branches) == p.branches && StripNames(p.commands) == p.commands;
  }

  lemma SortedIsFixed(ps: seq<ProviderPolicy>)
    requires Ascending(ProviderIds(ps)) && forall q :: q in ps ==> Trimmed(q.version)
    ensures SortById(StripVersions(ps)) == ps
  {
    hide Strip, Trimmed;
    forall i | 0 <= i < |ps| ensures StripVersions(ps)[i] == ps[i] {
      StripIsNormal(ps[i].version);
    }
    assert StripVersions(ps) == ps;
    AscendingIds(ps);
    SortByIdIsSorted(ps);
    SortedUniqueIsCanonical(ProviderIds(ps), ProviderIds(ps));
    SameIdsSamePolicies(SortById(ps), ps);
  }

  lemma NormalIsSettled(p: RunPolicy)
    requires p.Valid()
    ensures Settled(Normal(p))
  {
    hide ValidAssets, SourceIdentity, Blank, Strip, Trimmed, Related, Absolute, Command.Valid, TaskPolicy.Valid,
      ProviderPolicy.Valid, SortById;
    ValidIsStorable(p);
    NormalProviders(p.providers);
    StripIsNormal(p.path);
    StripIsNormal(p.version);
    forall s | s in StripAll(p.branches) ensures Trimmed(s) {
      var i :| 0 <= i < |p.branches| && StripAll(p.branches)[i] == s;
      StripIsNormal(p.branches[i]);
    }
    forall c | c in StripNames(p.commands) ensures Trimmed(c.name) {
      var i :| 0 <= i < |p.commands| && StripNames(p.commands)[i] == c;
      StripIsNormal(p.commands[i].name);
    }
    forall q | q in SortById(StripVersions(p.providers)) ensures Trimmed(q.version) {
      var i :| 0 <= i < |p.providers| && StripVersions(p.providers)[i] == q;
      StripIsNormal(p.providers[i].version);
    }
  }

  /** The policies that survive the trip unchanged are exactly the settled ones. */
  lemma UnchangedIffSettled(p: RunPolicy)
    requires p.Valid()
    ensures DecodePolicy(EncodePolicy(p)) == Some(p) <==> Settled(p)
  {
    hide DecodePolicy, EncodePolicy, Settled, Normal, RunPolicy.Valid;
    RoundTrip(p);
    NormalIsSettled(p);
    if Settled(p) {
      SettledIsNormal(p);
    }
  }

  /** Whatever could be read is settled, so writing and reading it once more changes nothing. */
  lemma DecodedIsStable(v: Json)
    requires DecodePolicy(v).Some?
    ensures Settled(DecodePolicy(v).value)
    ensures DecodePolicy(EncodePolicy(DecodePolicy(v).value)) == DecodePolicy(v)
  {
    DecodedIsSettled(v);
    UnchangedIffSettled(DecodePolicy(v).value);
  }

  lemma DecodedIsSettled(v: Json)
    requires DecodePolicy(v).Some?
    ensures Settled(DecodePolicy(v).value)
  {
    hide DecodeProviders, DecodeCommands, DecodeTasks, DecodeAssets, DecodeSource, DecodeStrippedTexts, DecodeStripped,
      Trimmed, RunPolicy.Valid, ExactObject, Blank, Absolute, DecodePositive, Ascending;
  }

  /**
   A policy that could be read cannot widen a task: the review reads only and stays off the network, the two others
   write the workspace, and each has one provider, which declares everything its access requires. No provider is idle.
   */
  lemma ReadPolicyRestrictsTasks(v: Json)
    requires DecodePolicy(v).Some?
    ensures var p := DecodePolicy(v).value;
      && |p.tasks| == 3
      && p.tasks[0].kind.ImplementationTask? && p.tasks[1].kind.ReviewTask? && p.tasks[2].kind.CorrectionTask?
      && (forall t :: t in p.tasks ==>
            && (t.access.ReadOnly? <==> t.kind.ReviewTask?) && (t.network.Denied? <==> t.kind.ReviewTask?)
            && (exists q :: q in p.providers && q.id == t.provider
                  && {STRUCTURED_RESULT, ISOLATED_INVOCATION, DIAGNOSTIC_ARTIFACT_CAPTURE, NETWORK_POLICY_CONTROL,
                      if t.kind.ReviewTask? then READ_ONLY_EXECUTION else WORKSPACE_WRITE_EXECUTION} <= q.declared))
      && (forall q :: q in p.providers ==> exists t :: t in p.tasks && t.provider == q.id)
      && (forall i, j :: 0 <= i < j < |p.providers| ==> p.providers[i].id != p.providers[j].id)
  {
    hide DecodePolicy, Blank, Absolute, ValidAssets, SourceIdentity, Referenced, ProviderName, ValidTimeout;
    var p := DecodePolicy(v).value;
    forall t | t in p.tasks ensures t.Valid() && Served(t, p.providers) {
    }
    forall q | q in p.providers ensures exists t :: t in p.tasks && t.provider == q.id {
      ReferencedByTask(q, p.tasks);
    }
  }

  lemma ReferencedByTask(q: ProviderPolicy, tasks: seq<TaskPolicy>)
    ensures Referenced(q, tasks) <==> exists t :: t in tasks && t.provider == q.id
  {
  }

  // ----- the loops of the parser -----

  predicate ParsedFrom(members: map<Key, Json>, order: seq<Key>, parsed: seq<ProviderPolicy>) {
    |parsed| == |order| && forall i :: 0 <= i < |order| ==>
      order[i].Free? && order[i] in members && DecodeProvider(order[i].text, members[order[i]]) == Some(parsed[i])
  }

  /** The members of an object, each once. */
  ghost predicate Enumerates(order: seq<Key>, members: map<Key, Json>) {
    && (forall k :: k in order <==> k in members)
    && forall i, j :: 0 <= i < j < |order| ==> order[i] != order[j]
  }

  lemma ParsedName(members: map<Key, Json>, order: seq<Key>, parsed: seq<ProviderPolicy>, id: string)
    requires Enumerates(order, members) && ParsedFrom(members, order, parsed)
    ensures id in ProviderIds(parsed) <==> Free(id) in members
  {
    hide DecodeProvider, ProviderIds;
    if Free(id) in members {
      var i :| 0 <= i < |order| && order[i] == Free(id);
      assert ProviderIds(parsed)[i] == id;
    }
    if id in ProviderIds(parsed) {
      var i :| 0 <= i < |parsed| && ProviderIds(parsed)[i] == id;
      assert order[i] == Free(id);
    }
  }

  lemma ParsedMember(members: map<Key, Json>, order: seq<Key>, parsed: seq<ProviderPolicy>, j: nat)
    requires Enumerates(order, members) && ParsedFrom(members, order, parsed) && j < |parsed|
    ensures Free(parsed[j].id) in members
    ensures DecodeProvider(parsed[j].id, members[Free(parsed[j].id)]) == Some(parsed[j])
  {
    var p := DecodeProvider(order[j].text, members[order[j]]);
    assert p.value.id == order[j].text;
  }

  /** Parsing in any order of the members and then sorting gives the same tuple. */
  lemma ParseOrderIsIrrelevant(members: map<Key, Json>, order: seq<Key>, parsed: seq<ProviderPolicy>)
    requires ProvidersParse(members) && Enumerates(order, members) && ParsedFrom(members, order, parsed)
    ensures SortById(parsed) == DecodeNamed(MemberNames(members), members)
  {
    ParsedIdsAreDistinct(members, order, parsed);
    hide DecodeProvider, ProvidersParse, ParsedFrom, Enumerates, SortById;
    var ids := MemberNames(members);
    SortByIdIsSorted(parsed);
    SortedUniqueCorrect(ProviderIds(parsed));
    forall id ensures id in ProviderIds(parsed) <==> id in ids {
      ParsedName(members, order, parsed, id);
    }
    AscendingIsUnique(ids, SortedUnique(ProviderIds(parsed)));
    var r := DecodeNamed(ids, members);
    forall x | x in SortById(parsed) ensures x in r {
      var j :| 0 <= j < |parsed| && parsed[j] == x;
      ParsedMember(members, order, parsed, j);
      DecodedIsIn(members, ids, x);
    }
    AscendingIds(r);
    SameIdsSamePolicies(SortById(parsed), r);
  }

  lemma DecodedIsIn(members: map<Key, Json>, ids: seq<string>, x: ProviderPolicy)
    requires ProvidersParse(members) && forall id :: id in ids ==> Free(id) in members
    requires x.id in ids && Free(x.id) in members && DecodeProvider(x.id, members[Free(x.id)]) == Some(x)
    ensures x in DecodeNamed(ids, members)
  {
    hide DecodeProvider, ProvidersParse;
    var i :| 0 <= i < |ids| && ids[i] == x.id;
    assert DecodeNamed(ids, members)[i] == x;
  }

  lemma ParsedIdsAreDistinct(members: map<Key, Json>, order: seq<Key>, parsed: seq<ProviderPolicy>)
    requires Enumerates(order, members) && ParsedFrom(members, order, parsed)
    ensures DistinctIds(parsed)
  {
    forall i, j | 0 <= i < j < |parsed| ensures parsed[i].id != parsed[j].id {
      assert order[i] != order[j];
      assert parsed[i].id == order[i].text && parsed[j].id == order[j].text;
    }
  }

  /** _parse_provider_policies: the loop follows the object's own order, which does not show in the result. */
  method ParseProviderPolicies(members: map<Key, Json>, order: seq<Key>) returns (r: Option<seq<ProviderPolicy>>)
    requires Enumerates(order, members)
    ensures r == DecodeProviders(members)
  {
    hide DecodeProvider;
    var parsed := [];
    for i := 0 to |order|
      invariant ParsedFrom(members, order[..i], parsed)
    {
      assert order[i] in order;
      assert forall j :: 0 <= j < i ==> order[..i + 1][j] == order[..i][j];
      if order[i].Named? {
        return None;
      }
      var p := DecodeProvider(order[i].text, members[order[i]]);
      if p.None? {
        return None;
      }
      parsed := parsed + [p.value];
    }
    assert order[..|order|] == order;
    if parsed == [] {
      assert forall k :: k in members ==> k in order;
      return None;
    }
    assert order[0] in order;
    ParseOrderIsIrrelevant(members, order, parsed);
    return Some(SortById(parsed));
  }

  const TASK_KINDS: seq<AgentTask> := [ImplementationTask, ReviewTask, CorrectionTask]

  function FieldOf(kind: AgentTask): FieldName {
    match kind
    case ImplementationTask => IMPLEMENTATION_POLICY
    case ReviewTask => REVIEW_POLICY
    case CorrectionTask => CORRECTION_POLICY
  }

  /** _parse_task_policies. */
  method ParseTaskPolicies(v: Json) returns (r: Option<seq<TaskPolicy>>)
    ensures r == DecodeTasks(v)
  {
    hide DecodeTask, ExactObject, TaskPolicy.Valid;
    var fields :- ExactObject(v, TASKS_FIELDS);
    var parsed := [];
    for i := 0 to |TASK_KINDS|
      invariant |parsed| == i
      invariant forall j :: 0 <= j < i ==> DecodeTask(fields[FieldOf(TASK_KINDS[j])], TASK_KINDS[j]) == Some(parsed[j])
    {
      var task := DecodeTask(fields[FieldOf(TASK_KINDS[i])], TASK_KINDS[i]);
      if task.None? {
        assert TASK_KINDS[0].ImplementationTask? && TASK_KINDS[1].ReviewTask? && TASK_KINDS[2].CorrectionTask?;
        assert i == 0 || i == 1 || i == 2;
        return None;
      }
      parsed := parsed + [task.value];
    }
    assert parsed == [parsed[0], parsed[1], parsed[2]];
    assert TASK_KINDS[0].ImplementationTask? && TASK_KINDS[1].ReviewTask? && TASK_KINDS[2].CorrectionTask?;
    return Some(parsed);
  }
}
