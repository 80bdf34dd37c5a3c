/**
 Attempt allocation: directory names, the next sequence number, and loading
 the records back, over runs with crashes and leftover directories.
 */
module AttemptStore {
  import opened Wrappers
  import opened Models
  import opened Attempts
  import opened Decimals

  // ----- directory names -----

  function Slug(p: AttemptPhase): (s: string)
    ensures s != "" && '\n' !in s
  {
    match p
    case PreparingPhase => "preparation"
    case ImplementingPhase => "implementation"
    case VerifyingPhase => "verification"
    case ReviewingPhase => "review"
    case CorrectingPhase => "correction"
    case ReportingPhase => "reporting"
  }

  function DirectoryName(sequence: nat, phase: AttemptPhase): string {
    Padded(sequence, 3) + "-" + Slug(phase)
  }

  /** The number of leading digits. */
  function DigitRun(s: string): (k: nat)
    ensures k <= |s| && AllDigits(s[..k]) && (k < |s| ==> !IsDigit(s[k]))
  {
    if s == "" || !IsDigit(s[0]) then 0
    else
      var rest := DigitRun(s[1..]);
      assert forall i :: 0 < i < 1 + rest ==> s[i] == s[1..][i - 1];
      1 + rest
  }

  /** _ATTEMPT_DIRECTORY_PATTERN: a positive number, a hyphen, and anything but a line break after it. */
  function Parse(name: string): Option<nat> {
    var k := DigitRun(name);
    if k + 1 < |name| && name[k] == '-' && '\n' !in name[k + 1..] && Value(name[..k]) > 0 then Some(Value(name[..k]))
    else None
  }

  lemma DigitRunOf(digits: string, rest: string)
    requires AllDigits(digits) && rest != "" && !IsDigit(rest[0])
    ensures DigitRun(digits + rest) == |digits|
  {
    var name := digits + rest;
    var k := DigitRun(name);
    assert forall i :: 0 <= i < |digits| ==> name[i] == digits[i];
    assert name[|digits|] == rest[0];
    assert forall i :: 0 <= i < k ==> name[..k][i] == name[i];
  }

  /** A zero-padded directory name parses back to its sequence number, whatever its size. */
  lemma NameParsesBack(sequence: nat, phase: AttemptPhase)
    requires sequence >= 1
    ensures Parse(DirectoryName(sequence, phase)) == Some(sequence)
  {
    hide Padded, Value, Slug, DigitRun;
    PaddedValue(sequence, 3);
    var digits, rest := Padded(sequence, 3), "-" + Slug(phase);
    assert DirectoryName(sequence, phase) == digits + rest;
    DigitRunOf(digits, rest);
    assert (digits + rest)[..|digits|] == digits;
    assert (digits + rest)[|digits| + 1..] == Slug(phase);
  }

  // ----- the attempts directory -----

  /** What an entry of the attempts directory is; a directory without attempt.json is a crash diagnostic. */
  datatype Content = OtherFile | BareDirectory | Recorded(attempt: Attempt)

  type Root = map<string, Content>

  predicate Hidden(name: string) {
    name != "" && name[0] == '.'
  }

  /** The order in which the file system lists the entries is its own. */
  predicate Listing(root: Root, names: seq<string>) {
    && (forall name :: name in names ==> name in root) && (forall name :: name in root ==> name in names)
    && forall i, j :: 0 <= i < j < |names| ==> names[i] != names[j]
  }

  /** The sequence number an entry reserves. */
  function Reserved(root: Root, name: string): Option<nat>
    requires name in root
  {
    if Hidden(name) || root[name].OtherFile? then None else Parse(name)
  }

  /** _next_sequence. */
  method NextSequence(root: Root, names: seq<string>) returns (n: nat)
    requires Listing(root, names)
    ensures n >= 1
    ensures forall name :: name in root && Reserved(root, name).Some? ==> Reserved(root, name).value < n
    ensures n > 1 ==> exists name :: name in root && Reserved(root, name) == Some(n - 1)
  {
    var largest := 0;
    for i := 0 to |names|
      invariant forall k :: 0 <= k < i && Reserved(root, names[k]).Some? ==> Reserved(root, names[k]).value <= largest
      invariant largest > 0 ==> exists k :: 0 <= k < i && Reserved(root, names[k]) == Some(largest)
    {
      assert names[i] in root;
      var reserved := Reserved(root, names[i]);
      if reserved.Some? && reserved.value > largest {
        largest := reserved.value;
      }
    }
    n := largest + 1;
    if n > 1 {
      var k :| 0 <= k < |names| && Reserved(root, names[k]) == Some(largest);
      assert names[k] in root;
    }
  }

  // ----- loading -----

  datatype LoadError = WrongDirectory | DuplicateSequence

  /** The records in listing order; a record that claims another directory is refused. */
  function Collect(root: Root, names: seq<string>): Result<seq<Attempt>, LoadError>
    requires forall name :: name in names ==> name in root
  {
    if names == [] then Ok([])
    else
      var last := names[|names| - 1];
      var before := Collect(root, names[..|names| - 1]);
      if before.Err? || Hidden(last) || !root[last].Recorded? then before
      else if DirectoryName(root[last].attempt.sequence, root[last].attempt.phase) != last then Err(WrongDirectory)
      else Ok(before.value + [root[last].attempt])
  }

  /** Stable insertion behind every record with a sequence that is not larger. */
  function Insert(sorted: seq<Attempt>, a: Attempt): seq<Attempt> {
    if sorted == [] || sorted[|sorted| - 1].sequence <= a.sequence then sorted + [a]
    else Insert(sorted[..|sorted| - 1], a) + [sorted[|sorted| - 1]]
  }

  function SortBySequence(records: seq<Attempt>): seq<Attempt> {
    if records == [] then [] else Insert(SortBySequence(records[..|records| - 1]), records[|records| - 1])
  }

  predicate HasDuplicate(records: seq<Attempt>) {
    exists i, j :: 0 <= i < j < |records| && records[i].sequence == records[j].sequence
  }

  /** load_attempt_records. */
  function Load(root: Root, names: seq<string>): Result<seq<Attempt>, LoadError>
    requires forall name :: name in names ==> name in root
  {
    var records := Collect(root, names);
    if records.Err? then Err(records.error)
    else if HasDuplicate(SortBySequence(records.value)) then Err(DuplicateSequence)
    else Ok(SortBySequence(records.value))
  }

  ghost predicate SameAttempts(xs: seq<Attempt>, ys: seq<Attempt>) {
    forall a :: a in xs <==> a in ys
  }

  lemma {:induction false} InsertKeepsOrder(sorted: seq<Attempt>, a: Attempt)
    requires Ordered(sorted) && forall b :: b in sorted ==> b.sequence != a.sequence
    ensures Ordered(Insert(sorted, a)) && SameAttempts(Insert(sorted, a), sorted + [a])
  {
    if sorted != [] && sorted[|sorted| - 1].sequence > a.sequence {
      var front, last := sorted[..|sorted| - 1], sorted[|sorted| - 1];
      InsertKeepsOrder(front, a);
      assert sorted == front + [last];
      var r := Insert(front, a);
      forall i | 0 <= i < |r| ensures r[i].sequence < last.sequence {
        assert r[i] in front + [a];
      }
    }
  }

  predicate DistinctSequences(records: seq<Attempt>) {
    forall i, j :: 0 <= i < j < |records| ==> records[i].sequence != records[j].sequence
  }

  lemma {:induction false} SortKeepsRecords(records: seq<Attempt>)
    requires DistinctSequences(records)
    ensures Ordered(SortBySequence(records)) && SameAttempts(SortBySequence(records), records)
  {
    if records != [] {
      var front, last := records[..|records| - 1], records[|records| - 1];
      SortKeepsRecords(front);
      assert records == front + [last];
      InsertKeepsOrder(SortBySequence(front), last);
    }
  }

  lemma EmptyTogether(xs: seq<Attempt>, ys: seq<Attempt>)
    requires SameAttempts(xs, ys)
    ensures xs == [] <==> ys == []
  {
    assert xs != [] ==> xs[0] in ys;
    assert ys != [] ==> ys[0] in xs;
  }

  lemma {:induction false} OrderedIsUnique(xs: seq<Attempt>, ys: seq<Attempt>)
    requires Ordered(xs) && Ordered(ys) && SameAttempts(xs, ys)
    ensures xs == ys
  {
    EmptyTogether(xs, ys);
    if xs != [] {
      LastIsLargest(xs, ys);
      FrontsAgree(xs, ys);
      var xf, yf := xs[..|xs| - 1], ys[..|ys| - 1];
      OrderedIsUnique(xf, yf);
      assert xs == xf + [xs[|xs| - 1]] && ys == yf + [ys[|ys| - 1]];
    }
  }

  lemma LastIsLargest(xs: seq<Attempt>, ys: seq<Attempt>)
    requires Ordered(xs) && Ordered(ys) && SameAttempts(xs, ys) && xs != [] && ys != []
    ensures xs[|xs| - 1] == ys[|ys| - 1]
  {
    var x, y := xs[|xs| - 1], ys[|ys| - 1];
    assert x in ys && y in xs;
    var i :| 0 <= i < |ys| && ys[i] == x;
    var j :| 0 <= j < |xs| && xs[j] == y;
  }

  lemma FrontsAgree(xs: seq<Attempt>, ys: seq<Attempt>)
    requires Ordered(xs) && Ordered(ys) && SameAttempts(xs, ys) && xs != [] && ys != []
    requires xs[|xs| - 1] == ys[|ys| - 1]
    ensures SameAttempts(xs[..|xs| - 1], ys[..|ys| - 1])
  {
    var xf, yf := xs[..|xs| - 1], ys[..|ys| - 1];
    forall a | a in xf ensures a in yf {
      InFront(xs, a);
      InFront(ys, a);
    }
    forall a | a in yf ensures a in xf {
      InFront(xs, a);
      InFront(ys, a);
    }
  }

  lemma InFront(xs: seq<Attempt>, a: Attempt)
    requires Ordered(xs) && xs != []
    ensures a in xs[..|xs| - 1] <==> a in xs && a != xs[|xs| - 1]
  {
    if a in xs[..|xs| - 1] {
      var i :| 0 <= i < |xs| - 1 && xs[i] == a;
      assert xs[i].sequence < xs[|xs| - 1].sequence;
    }
    if a in xs && a != xs[|xs| - 1] {
      var i :| 0 <= i < |xs| && xs[i] == a;
      assert xs[..|xs| - 1][i] == a;
    }
  }

  // ----- runs -----

  /** The directory, and as a specification variable the attempts in the order of their creation. */
  datatype Store = Store(root: Root, created: seq<Attempt>)

  datatype StoreStep =
    | Create(sequence: nat, attempt: Attempt)
    | Rewrite(index: nat, updated: Attempt)
    | LeaveEntry(name: string, content: Content)

  /** Every reserved number is below n; NextSequence returns the least such n. */
  predicate LargestReserved(root: Root, n: nat) {
    forall name :: name in root && Reserved(root, name).Some? ==> Reserved(root, name).value < n
  }

  /**
   A controller creates the attempt that NextSequence numbers, or rewrites the record of one; a crash may
   leave a hidden temporary directory with anything in it, or a visible one without a record.
   */
  predicate Enabled(s: Store, step: StoreStep) {
    match step
    case Create(sequence, a) =>
      && sequence >= 1 && LargestReserved(s.root, sequence) && a.sequence == sequence
      && (DirectoryName(sequence, a.phase) in s.root ==> !s.root[DirectoryName(sequence, a.phase)].OtherFile?)
    case Rewrite(index, a) =>
      index < |s.created| && a.sequence == s.created[index].sequence && a.phase == s.created[index].phase
    case LeaveEntry(name, content) => name !in s.root && (Hidden(name) || !content.Recorded?)
  }

  function Next(s: Store, step: StoreStep): Store
    requires Enabled(s, step)
  {
    match step
    case Create(sequence, a) =>
      Store(s.root[DirectoryName(sequence, a.phase) := Recorded(a)], s.created + [a])
    case Rewrite(index, a) =>
      Store(s.root[DirectoryName(a.sequence, a.phase) := Recorded(a)], s.created[index := a])
    case LeaveEntry(name, content) => s.(root := s.root[name := content])
  }

  predicate Executable(s: Store, steps: seq<StoreStep>)
    decreases |steps|
  {
    steps == [] || (Enabled(s, steps[0]) && Executable(Next(s, steps[0]), steps[1..]))
  }

  function After(s: Store, steps: seq<StoreStep>): Store
    requires Executable(s, steps)
    decreases |steps|
  {
    if steps == [] then s else After(Next(s, steps[0]), steps[1..])
  }

  predicate Stored(s: Store, a: Attempt) {
    var name := DirectoryName(a.sequence, a.phase);
    a.sequence >= 1 && name in s.root && s.root[name] == Recorded(a)
  }

  /** The visible records are exactly the created attempts, each in its own directory. */
  predicate Inv(s: Store) {
    && Ordered(s.created)
    && (forall i :: 0 <= i < |s.created| ==> Stored(s, s.created[i]))
    && forall name :: (name in s.root && !Hidden(name) && s.root[name].Recorded?) ==>
         s.root[name].attempt in s.created
         && name == DirectoryName(s.root[name].attempt.sequence, s.root[name].attempt.phase)
  }

  lemma NameIsVisible(sequence: nat, phase: AttemptPhase)
    ensures !Hidden(DirectoryName(sequence, phase))
  {
    PaddedValue(sequence, 3);
    assert DirectoryName(sequence, phase)[0] == Padded(sequence, 3)[0];
  }

  lemma NamesDiffer(n: nat, p: AttemptPhase, m: nat, q: AttemptPhase)
    requires n >= 1 && m >= 1 && DirectoryName(n, p) == DirectoryName(m, q)
    ensures n == m
  {
    NameParsesBack(n, p);
    NameParsesBack(m, q);
  }

  lemma NameReserves(root: Root, n: nat, phase: AttemptPhase)
    requires n >= 1 && DirectoryName(n, phase) in root
    ensures Reserved(root, DirectoryName(n, phase)) == if root[DirectoryName(n, phase)].OtherFile? then None else Some(n)
  {
    NameParsesBack(n, phase);
    NameIsVisible(n, phase);
  }

  /** A stored attempt reserves its number, so the next one is larger. */
  lemma NextIsLarger(s: Store, n: nat, i: nat)
    requires Inv(s) && LargestReserved(s.root, n) && i < |s.created|
    ensures s.created[i].sequence < n
  {
    var a := s.created[i];
    assert Stored(s, a);
    NameReserves(s.root, a.sequence, a.phase);
  }

  lemma CreateKeepsInv(s: Store, n: nat, a: Attempt)
    requires Inv(s) && Enabled(s, Create(n, a))
    ensures Inv(Next(s, Create(n, a)))
  {
    var s' := Next(s, Create(n, a));
    forall i | 0 <= i < |s.created| ensures s.created[i].sequence < n && Stored(s', s.created[i]) {
      NextIsLarger(s, n, i);
      assert Stored(s, s.created[i]);
      if DirectoryName(s.created[i].sequence, s.created[i].phase) == DirectoryName(n, a.phase) {
        NamesDiffer(s.created[i].sequence, s.created[i].phase, n, a.phase);
      }
    }
    forall i | 0 <= i < |s'.created| ensures Stored(s', s'.created[i]) {
      assert i < |s.created| ==> s'.created[i] == s.created[i];
    }
    forall name | name in s'.root && !Hidden(name) && s'.root[name].Recorded?
      ensures s'.root[name].attempt in s'.created
      ensures name == DirectoryName(s'.root[name].attempt.sequence, s'.root[name].attempt.phase)
    {
      assert a == s'.created[|s.created|];
    }
  }

  lemma RewriteKeepsInv(s: Store, index: nat, a: Attempt)
    requires Inv(s) && Enabled(s, Rewrite(index, a))
    ensures Inv(Next(s, Rewrite(index, a)))
  {
    var s' := Next(s, Rewrite(index, a));
    var target := DirectoryName(a.sequence, a.phase);
    assert Stored(s, s.created[index]);
    forall i | 0 <= i < |s'.created| ensures Stored(s', s'.created[i]) {
      if i != index {
        assert Stored(s, s.created[i]) && s'.created[i] == s.created[i];
        if DirectoryName(s.created[i].sequence, s.created[i].phase) == target {
          NamesDiffer(s.created[i].sequence, s.created[i].phase, a.sequence, a.phase);
        }
      }
    }
    forall name | name in s'.root && !Hidden(name) && s'.root[name].Recorded?
      ensures s'.root[name].attempt in s'.created
      ensures name == DirectoryName(s'.root[name].attempt.sequence, s'.root[name].attempt.phase)
    {
      if name == target {
        assert a == s'.created[index];
      } else {
        RewriteKeepsOthers(s, index, a, name);
      }
    }
  }

  lemma RewriteKeepsOthers(s: Store, index: nat, a: Attempt, name: string)
    requires Inv(s) && Enabled(s, Rewrite(index, a)) && name in s.root && !Hidden(name) && s.root[name].Recorded?
    requires name != DirectoryName(a.sequence, a.phase)
    ensures s.root[name].attempt in s.created[index := a]
  {
    var b := s.root[name].attempt;
    var k :| 0 <= k < |s.created| && s.created[k] == b;
    assert k != index;
    assert s.created[index := a][k] == b;
  }

  lemma LeaveKeepsInv(s: Store, name: string, content: Content)
    requires Inv(s) && Enabled(s, LeaveEntry(name, content))
    ensures Inv(Next(s, LeaveEntry(name, content)))
  {
    var s' := Next(s, LeaveEntry(name, content));
    forall i | 0 <= i < |s'.created| ensures Stored(s', s'.created[i]) {
      assert Stored(s, s.created[i]);
    }
  }

  lemma {:induction false} InvOverRuns(s: Store, steps: seq<StoreStep>)
    requires Inv(s) && Executable(s, steps)
    ensures Inv(After(s, steps))
    decreases |steps|
  {
    if steps != [] {
      match steps[0] {
        case Create(n, a) => CreateKeepsInv(s, n, a);
        case Rewrite(index, a) => RewriteKeepsInv(s, index, a);
        case LeaveEntry(name, content) => LeaveKeepsInv(s, name, content);
      }
      InvOverRuns(Next(s, steps[0]), steps[1..]);
    }
  }

  // ----- what allocation guarantees -----

  lemma {:induction false} CollectFacts(s: Store, names: seq<string>)
    requires Inv(s) && (forall name :: name in names ==> name in s.root)
    requires forall i, j :: 0 <= i < j < |names| ==> names[i] != names[j]
    ensures Collect(s.root, names).Ok?
    ensures forall a :: a in Collect(s.root, names).value ==>
      a in s.created && DirectoryName(a.sequence, a.phase) in names
    ensures forall a :: a in s.created && DirectoryName(a.sequence, a.phase) in names ==>
      a in Collect(s.root, names).value
    ensures DistinctSequences(Collect(s.root, names).value)
  {
    if names != [] {
      var front, last := names[..|names| - 1], names[|names| - 1];
      assert names == front + [last];
      CollectFacts(s, front);
      CollectLast(s, front, last);
    }
  }

  lemma CollectLast(s: Store, front: seq<string>, last: string)
    requires Inv(s) && (forall name :: name in front + [last] ==> name in s.root) && last !in front
    requires Collect(s.root, front).Ok? && DistinctSequences(Collect(s.root, front).value)
    requires forall a :: a in Collect(s.root, front).value ==> a in s.created && DirectoryName(a.sequence, a.phase) in front
    requires forall a :: a in s.created && DirectoryName(a.sequence, a.phase) in front ==> a in Collect(s.root, front).value
    ensures var c := Collect(s.root, front + [last]);
      && c.Ok? && DistinctSequences(c.value)
      && (forall a :: a in c.value ==> a in s.created && DirectoryName(a.sequence, a.phase) in front + [last])
      && (forall a :: a in s.created && DirectoryName(a.sequence, a.phase) in front + [last] ==> a in c.value)
  {
    var names := front + [last];
    assert names[..|names| - 1] == front;
    var before := Collect(s.root, front).value;
    if !Hidden(last) && s.root[last].Recorded? {
      var a := s.root[last].attempt;
      forall b | b in before ensures b.sequence != a.sequence {
        SequencesAreKeys(s, a, b);
      }
    }
    forall a | a in s.created && DirectoryName(a.sequence, a.phase) == last
      ensures !Hidden(last) && s.root[last] == Recorded(a)
    {
      var i :| 0 <= i < |s.created| && s.created[i] == a;
      assert Stored(s, s.created[i]);
      NameIsVisible(a.sequence, a.phase);
    }
  }

  lemma SequencesAreKeys(s: Store, a: Attempt, b: Attempt)
    requires Ordered(s.created) && a in s.created && b in s.created
    ensures a.sequence == b.sequence ==> a == b
  {
    var i :| 0 <= i < |s.created| && s.created[i] == a;
    var j :| 0 <= j < |s.created| && s.created[j] == b;
  }

  /**
   After any run, whatever crashes left behind and however the file system lists it, loading returns exactly
   the created attempts in creation order and never reports a duplicate.
   */
  lemma LoadsInCreationOrder(steps: seq<StoreStep>, names: seq<string>)
    requires Executable(Store(map[], []), steps) && Listing(After(Store(map[], []), steps).root, names)
    ensures var s := After(Store(map[], []), steps); Load(s.root, names) == Ok(s.created) && Ordered(s.created)
  {
    InvOverRuns(Store(map[], []), steps);
    var s := After(Store(map[], []), steps);
    CollectFacts(s, names);
    var c := Collect(s.root, names).value;
    forall a | a in s.created ensures a in c {
      var i :| 0 <= i < |s.created| && s.created[i] == a;
      assert Stored(s, s.created[i]);
    }
    SortKeepsRecords(c);
    OrderedIsUnique(SortBySequence(c), s.created);
  }

  /** After any run the next number exceeds that of every attempt ever created, and its directory is new. */
  lemma NextIsFresh(steps: seq<StoreStep>, n: nat, phase: AttemptPhase)
    requires Executable(Store(map[], []), steps) && n >= 1 && LargestReserved(After(Store(map[], []), steps).root, n)
    ensures var s := After(Store(map[], []), steps);
      && (forall a :: a in s.created ==> a.sequence < n)
      && (DirectoryName(n, phase) in s.root ==> s.root[DirectoryName(n, phase)].OtherFile?)
  {
    InvOverRuns(Store(map[], []), steps);
    var s := After(Store(map[], []), steps);
    forall a | a in s.created ensures a.sequence < n {
      var i :| 0 <= i < |s.created| && s.created[i] == a;
      NextIsLarger(s, n, i);
    }
    if DirectoryName(n, phase) in s.root {
      NameReserves(s.root, n, phase);
    }
  }
}
