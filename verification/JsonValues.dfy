/** JSON values as in section 3 of RFC 8259, and the checks the codecs share. */
module JsonValues {
  import opened Wrappers
  import opened TaskResults

  /** The member names that records use; every other name is free text. */
  datatype FieldName =
    | STATUS | SUMMARY | TESTS_RUN | ASSUMPTIONS | KNOWN_ISSUES | COMMAND | RESULT
    | VERDICT | FINDINGS | ID | DISPOSITION | SCOPE_RELATION | TITLE | DESCRIPTION | EVIDENCE
    | REQUIRED_CHANGE | ACCEPTANCE_CRITERIA
    | EXECUTION_ID | ATTEMPT_ID | PROVIDER_ID | TASK_KIND | REPOSITORY_ACCESS | REQUIRED_CAPABILITIES
    | STARTED_AT | ENDED_AT | DURATION_SECONDS | INVOCATION_START | TYPED_RESULT | FAILURE | CATEGORY | MESSAGE
    | TYPED_RESULT_ARTIFACT | ARTIFACTS | PROVIDER_METADATA | ROLE | PATH | MEDIA_TYPE
    | SCHEMA_VERSION | TARGET_REPOSITORY | PROTECTED_BRANCHES | VERIFICATION | COMMANDS | MAX_CORRECTION_ROUNDS
    | TASK_POLICIES | PROVIDERS | TICKET_AUTOMATION | POLICY_ASSETS | NAME | ARGV | TIMEOUT_SECONDS
    | IMPLEMENTATION_POLICY | REVIEW_POLICY | CORRECTION_POLICY | EXECUTION_POLICY | NETWORK_ACCESS
    | ADAPTER_POLICY_VERSION | DECLARED_CAPABILITIES | PAYLOAD | PACKAGE | VERSION | SOURCE | KIND | REVISION

  datatype Key = Named(name: FieldName) | Free(text: string)

  datatype Json =
    | Null
    | Bool(bool)
    | Int(int)
    | Real(real)
    | Str(text: string)
    | Arr(items: seq<Json>)
    | Obj(members: map<Key, Json>)

  function Record(fields: map<FieldName, Json>): Json {
    Obj(map f | f in fields :: Named(f) := fields[f])
  }

  /** Exactly the given members: none missing, none more. */
  function ExactObject(v: Json, fields: set<FieldName>): (r: Option<map<FieldName, Json>>)
    ensures r.Some? ==> r.value.Keys == fields
  {
    if v.Obj? && (forall k :: k in v.members ==> k.Named? && k.name in fields)
      && (forall f :: f in fields ==> Named(f) in v.members)
    then Some(map f | f in fields :: v.members[Named(f)])
    else None
  }

  lemma RecordIsExact(fields: map<FieldName, Json>)
    ensures ExactObject(Record(fields), fields.Keys) == Some(fields)
  {
    assert Record(fields).Obj?;
    forall k | k in Record(fields).members ensures k.Named? && k.name in fields {
    }
    forall f | f in fields.Keys ensures Named(f) in Record(fields).members {
    }
    var r := map f | f in fields.Keys :: Record(fields).members[Named(f)];
    assert r == fields;
  }

  function DecodeText(v: Json): Option<string> {
    if v.Str? && !Blank(v.text) then Some(v.text) else None
  }

  function Texts(values: seq<string>): (r: seq<Json>)
    ensures |r| == |values| && forall i :: 0 <= i < |r| ==> r[i] == Str(values[i])
  {
    if values == [] then [] else [Str(values[0])] + Texts(values[1..])
  }

  /** The strings of an array of texts, if that is what it is. */
  function TextsOf(items: seq<Json>): (r: Option<seq<string>>)
    ensures r.Some? ==> |r.value| == |items| && AllText(r.value)
  {
    if items == [] then Some([])
    else
      var before :- TextsOf(items[..|items| - 1]);
      var last :- DecodeText(items[|items| - 1]);
      Some(before + [last])
  }

  function DecodeTexts(v: Json, minimum: nat): Option<seq<string>> {
    if !v.Arr? || |v.items| < minimum then None else TextsOf(v.items)
  }

  /** _require_string_tuple. */
  method RequireStringTuple(v: Json, minimum: nat) returns (r: Option<seq<string>>)
    ensures r == DecodeTexts(v, minimum)
  {
    if !v.Arr? || |v.items| < minimum {
      return None;
    }
    var strings := [];
    for i := 0 to |v.items|
      invariant TextsOf(v.items[..i]) == Some(strings)
    {
      assert v.items[..i + 1][..i] == v.items[..i];
      if !v.items[i].Str? || Blank(v.items[i].text) {
        PrefixFails(v.items, i + 1);
        return None;
      }
      strings := strings + [v.items[i].text];
    }
    assert v.items[..|v.items|] == v.items;
    return Some(strings);
  }

  lemma {:induction false} PrefixFails(items: seq<Json>, n: nat)
    requires n <= |items| && TextsOf(items[..n]).None?
    ensures TextsOf(items).None?
    decreases |items|
  {
    if n == |items| {
      assert items[..n] == items;
    } else {
      assert items[..|items| - 1][..n] == items[..n];
      PrefixFails(items[..|items| - 1], n);
    }
  }

  lemma TextsAppended(front: seq<string>, last: string)
    ensures Texts(front + [last]) == Texts(front) + [Str(last)]
  {
  }

  lemma {:induction false} TextsRoundTrip(values: seq<string>)
    requires AllText(values)
    ensures TextsOf(Texts(values)) == Some(values)
  {
    if values != [] {
      var front, last := values[..|values| - 1], values[|values| - 1];
      assert last in values;
      TextsRoundTrip(front);
      TextsAppended(front, last);
      assert values == front + [last];
    }
  }

  // ----- enumerations -----

  /** The value that a table spells as s. */
  function Find<T>(table: seq<(T, string)>, s: string): Option<T> {
    if table == [] then None
    else if table[0].1 == s then Some(table[0].0)
    else Find(table[1..], s)
  }

  /** How a table spells a value. */
  function Spell<T(==)>(table: seq<(T, string)>, x: T): (s: string)
    requires exists i :: 0 <= i < |table| && table[i].0 == x
    ensures exists i :: 0 <= i < |table| && table[i] == (x, s)
  {
    if table[0].0 == x then table[0].1
    else
      assert forall i :: 0 < i < |table| ==> table[i] == table[1..][i - 1];
      Spell(table[1..], x)
  }

  predicate Faithful<T>(table: seq<(T, string)>) {
    && (forall i :: 0 <= i < |table| ==> !Blank(table[i].1))
    && forall i, j :: 0 <= i < j < |table| ==> table[i].1 != table[j].1
  }

  lemma NotBlank(s: string)
    requires s != "" && !Space(s[0])
    ensures !Blank(s)
  {
    assert s[0] in s;
  }

  lemma {:induction false} FindAt<T>(table: seq<(T, string)>, i: nat)
    requires Faithful(table) && i < |table|
    ensures Find(table, table[i].1) == Some(table[i].0)
  {
    if i > 0 {
      assert table[1..][i - 1] == table[i];
      FindAt(table[1..], i - 1);
    }
  }

  function EncodeEnum<T(==)>(table: seq<(T, string)>, x: T): Json
    requires exists i :: 0 <= i < |table| && table[i].0 == x
  {
    Str(Spell(table, x))
  }

  function DecodeEnum<T>(table: seq<(T, string)>, v: Json): Option<T> {
    var s :- DecodeText(v);
    Find(table, s)
  }

  /** A spelled value is found again when the table's spellings differ. */
  lemma EnumRoundTrip<T>(table: seq<(T, string)>, x: T)
    requires Faithful(table) && exists i :: 0 <= i < |table| && table[i].0 == x
    ensures DecodeEnum(table, EncodeEnum(table, x)) == Some(x)
  {
    var i :| 0 <= i < |table| && table[i] == (x, Spell(table, x));
    FindAt(table, i);
  }
}
