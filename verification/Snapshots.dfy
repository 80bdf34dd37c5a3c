/**
 The canonical workspace snapshot: what its constructor normalizes, when two
 snapshots match, and what its fingerprint identifies.
 */
module Snapshots {
  import opened Wrappers
  import opened Canonicalization

  datatype HashFunction = SHA256
  {
    /** The digest of an empty diff. */
    function OfNothing(): string {
      "e3b0c44298fc1c149afbf4c8996fb92427ae41e4649b934ca495991b7852b855"
    }
  }

  datatype Snapshot = Snapshot(
    repositoryPath: string,
    branch: Option<string>,
    headSha: Option<string>,
    stagedPaths: seq<string>,
    stagedDiff: Option<string>,
    trackedDiff: Option<string>,
    untrackedPaths: seq<string>,
    untrackedHashes: seq<(string, string)>,
    environmentRoots: seq<string>,
    inspectionComplete: bool,
    errors: seq<string>)

  predicate LowerHex(s: string) {
    forall i :: 0 <= i < |s| ==> '0' <= s[i] <= '9' || 'a' <= s[i] <= 'f'
  }

  predicate IsSha256(s: string) {
    |s| == 64 && LowerHex(s)
  }

  predicate IsGitObject(s: string) {
    40 <= |s| <= 64 && forall i :: 0 <= i < |s| ==>
      '0' <= s[i] <= '9' || 'a' <= s[i] <= 'f' || 'A' <= s[i] <= 'F'
  }

  // ----- the untracked-content dictionary -----

  /** What the constructor reports about a field or a path. */
  datatype Defect = InvalidHead | InvalidStagedDiff | InvalidTrackedDiff | OtherFiles | Conflict(path: string) | InvalidDigest(path: string)
  {
    function Text(): string {
      match this
      case InvalidHead => "HEAD: unavailable or invalid Git object ID"
      case InvalidStagedDiff => "staged-diff: unavailable or invalid SHA-256 digest"
      case InvalidTrackedDiff => "tracked-worktree: unavailable or invalid SHA-256 digest"
      case OtherFiles => "untracked-content: paths and content hashes do not describe the same files"
      case Conflict(path) => "untracked-content: conflicting hashes for " + path
      case InvalidDigest(path) => "untracked-content:" + path + ": invalid SHA-256 digest"
    }
  }

  /** The dictionary the constructor fills: keys are canonical paths, the last hash of a path wins. */
  function HashesOf(entries: seq<(string, string)>): map<string, string> {
    if entries == [] then map[]
    else
      var last := entries[|entries| - 1];
      HashesOf(entries[..|entries| - 1])[CanonicalPath(last.0) := last.1]
  }

  function DigestError(path: string): string {
    InvalidDigest(path).Text()
  }

  function HashErrors(entries: seq<(string, string)>): seq<string> {
    if entries == [] then []
    else
      var last := entries[|entries| - 1];
      var before := HashesOf(entries[..|entries| - 1]);
      var path := CanonicalPath(last.0);
      HashErrors(entries[..|entries| - 1])
      + (if path in before && before[path] != last.1
         then [Conflict(path).Text()] else [])
      + (if IsSha256(last.1) then []
         else [DigestError(path)])
  }

  /** The loop over untracked_file_hashes. */
  method CollectHashes(entries: seq<(string, string)>) returns (hashes: map<string, string>, errors: seq<string>)
    ensures hashes == HashesOf(entries) && errors == HashErrors(entries)
  {
    hashes, errors := map[], [];
    for i := 0 to |entries|
      invariant hashes == HashesOf(entries[..i]) && errors == HashErrors(entries[..i])
    {
      assert entries[..i + 1][..i] == entries[..i];
      var path, contentHash := CanonicalPath(entries[i].0), entries[i].1;
      if path in hashes && hashes[path] != contentHash {
        errors := errors + [Conflict(path).Text()];
      }
      hashes := hashes[path := contentHash];
      if !IsSha256(contentHash) {
        errors := errors + [DigestError(path)];
      }
    }
    assert entries[..|entries|] == entries;
  }

  function EntryPaths(entries: seq<(string, string)>): (r: seq<string>)
    ensures |r| == |entries| && forall i :: 0 <= i < |entries| ==> r[i] == entries[i].0
  {
    if entries == [] then [] else [entries[0].0] + EntryPaths(entries[1..])
  }

  function Lookup(keys: seq<string>, m: map<string, string>): (r: seq<(string, string)>)
    requires forall k :: k in keys ==> k in m
    ensures |r| == |keys| && forall i :: 0 <= i < |keys| ==> r[i] == (keys[i], m[keys[i]])
  {
    if keys == [] then [] else [(keys[0], m[keys[0]])] + Lookup(keys[1..], m)
  }

  predicate HasPath(entries: seq<(string, string)>, key: string) {
    exists i :: 0 <= i < |entries| && CanonicalPath(entries[i].0) == key
  }

  lemma {:induction false} KeyIsPath(entries: seq<(string, string)>, key: string)
    ensures key in HashesOf(entries) <==> HasPath(entries, key)
  {
    if entries != [] {
      var n := |entries| - 1;
      KeyIsPath(entries[..n], key);
      if HasPath(entries, key) && key != CanonicalPath(entries[n].0) {
        var i :| 0 <= i < |entries| && CanonicalPath(entries[i].0) == key;
        assert entries[..n][i] == entries[i];
      }
    }
  }

  lemma ListedIsPath(entries: seq<(string, string)>, key: string)
    ensures key in PathSet(EntryPaths(entries)) <==> HasPath(entries, key)
  {
    var paths := EntryPaths(entries);
    PathSetIsCanonical(paths, []);
    if key in PathSet(paths) {
      var i :| 0 <= i < |paths| && key == CanonicalPath(paths[i]);
      assert CanonicalPath(entries[i].0) == key;
    }
    if HasPath(entries, key) {
      var i :| 0 <= i < |entries| && CanonicalPath(entries[i].0) == key;
      assert key == CanonicalPath(paths[i]);
    }
  }

  /** The dictionary's keys are exactly the canonical paths of the entries. */
  lemma HashKeys(entries: seq<(string, string)>)
    ensures forall k :: k in HashesOf(entries) <==> k in PathSet(EntryPaths(entries))
  {
    forall k ensures k in HashesOf(entries) <==> k in PathSet(EntryPaths(entries)) {
      KeyIsPath(entries, k);
      ListedIsPath(entries, k);
    }
  }

  /** tuple(sorted(hashes.items())). */
  function SortedHashes(entries: seq<(string, string)>): seq<(string, string)> {
    HashKeys(entries);
    Lookup(PathSet(EntryPaths(entries)), HashesOf(entries))
  }

  // ----- the constructor -----

  function FieldErrors(s: Snapshot): seq<string> {
    (if s.headSha.Some? && IsGitObject(s.headSha.value) then []
     else [InvalidHead.Text()])
    + (if s.stagedDiff.Some? && IsSha256(s.stagedDiff.value) then []
       else [InvalidStagedDiff.Text()])
    + (if s.trackedDiff.Some? && IsSha256(s.trackedDiff.value) then []
       else [InvalidTrackedDiff.Text()])
  }

  function PathErrors(s: Snapshot): seq<string> {
    if PathSet(s.untrackedPaths) == PathSet(EntryPaths(s.untrackedHashes)) then []
    else [OtherFiles.Text()]
  }

  function AllErrors(s: Snapshot): seq<string> {
    s.errors + HashErrors(s.untrackedHashes) + FieldErrors(s) + PathErrors(s)
  }

  /** WorkspaceSnapshot.__post_init__. */
  function Normalize(s: Snapshot): Snapshot {
    var errors := SortedUnique(AllErrors(s));
    s.(stagedPaths := PathSet(s.stagedPaths),
       untrackedPaths := PathSet(s.untrackedPaths),
       untrackedHashes := SortedHashes(s.untrackedHashes),
       environmentRoots := PathSet(s.environmentRoots),
       errors := errors,
       inspectionComplete := s.inspectionComplete && errors == [])
  }

  /** The snapshots the constructor can produce. */
  predicate Canonical(s: Snapshot) {
    Normalize(s) == s
  }

  // ----- canonical data and fingerprints -----

  datatype CanonicalData = CanonicalData(
    branch: Option<string>,
    environmentRoots: seq<string>,
    format: string,
    headSha: Option<string>,
    inspectionComplete: bool,
    inspectionErrors: seq<string>,
    repositoryPath: string,
    schemaVersion: int,
    stagedDiff: Option<string>,
    stagedPaths: seq<string>,
    trackedDiff: Option<string>,
    untrackedHashes: seq<(string, string)>,
    untrackedPaths: seq<string>)

  function CanonicalDataOf(s: Snapshot): CanonicalData {
    CanonicalData(s.branch, s.environmentRoots, "ticket_automation.workspace_snapshot", s.headSha,
      s.inspectionComplete, s.errors, s.repositoryPath, 1, s.stagedDiff, s.stagedPaths, s.trackedDiff,
      s.untrackedHashes, s.untrackedPaths)
  }

  /** A collision-free digest of the canonical data. */
  datatype Fingerprint = Digest(data: CanonicalData)

  function FingerprintOf(s: Snapshot): Fingerprint {
    Digest(CanonicalDataOf(s))
  }

  predicate MatchesFingerprint(s: Snapshot, f: Fingerprint) {
    s.inspectionComplete && FingerprintOf(s) == f
  }

  // ----- comparison -----

  datatype WorkspaceChange =
    | InspectionIncomplete
    | RepositoryPathChanged
    | BranchChanged
    | HeadChanged
    | StagingChanged
    | TrackedDiffChanged
    | UntrackedFilesChanged
    | UntrackedContentChanged
    | EnvironmentRootsChanged

  function When(condition: bool, change: WorkspaceChange): seq<WorkspaceChange> {
    if condition then [change] else []
  }

  /** Whether a path that both snapshots hash has different hashes. */
  predicate SharedContentDiffers(a: seq<(string, string)>, b: seq<(string, string)>) {
    exists i, j :: 0 <= i < |a| && 0 <= j < |b| && a[i].0 == b[j].0 && a[i].1 != b[j].1
  }

  function Compare(expected: Snapshot, current: Snapshot): seq<WorkspaceChange> {
    When(!expected.inspectionComplete || !current.inspectionComplete, InspectionIncomplete)
    + When(expected.repositoryPath != current.repositoryPath, RepositoryPathChanged)
    + When(expected.branch != current.branch, BranchChanged)
    + When(expected.headSha != current.headSha, HeadChanged)
    + When(expected.stagedPaths != current.stagedPaths || expected.stagedDiff != current.stagedDiff, StagingChanged)
    + When(expected.trackedDiff != current.trackedDiff, TrackedDiffChanged)
    + When(expected.untrackedPaths != current.untrackedPaths, UntrackedFilesChanged)
    + When(SharedContentDiffers(expected.untrackedHashes, current.untrackedHashes), UntrackedContentChanged)
    + When(expected.environmentRoots != current.environmentRoots, EnvironmentRootsChanged)
  }

  predicate Matches(expected: Snapshot, current: Snapshot) {
    Compare(expected, current) == []
  }

  /** workspace_safety_changes. */
  function SafetyChanges(s: Snapshot, path: string, branch: Option<string>, headSha: string,
      requireEmptyStaging: bool, requireCleanWorktree: bool): seq<WorkspaceChange>
  {
    When(!s.inspectionComplete, InspectionIncomplete)
    + When(s.repositoryPath != path, RepositoryPathChanged)
    + When(s.branch != branch, BranchChanged)
    + When(s.headSha != Some(headSha), HeadChanged)
    + When(requireEmptyStaging && s.stagedPaths != [], StagingChanged)
    + When(requireCleanWorktree && s.trackedDiff.Some? && s.trackedDiff != Some(SHA256.OfNothing()), TrackedDiffChanged)
    + When(requireCleanWorktree && s.untrackedPaths != [], UntrackedFilesChanged)
  }

  function ChangeName(c: WorkspaceChange): string {
    match c
    case InspectionIncomplete => "inspection-incomplete"
    case RepositoryPathChanged => "repository-path"
    case BranchChanged => "branch"
    case HeadChanged => "HEAD"
    case StagingChanged => "staging"
    case TrackedDiffChanged => "tracked-diff"
    case UntrackedFilesChanged => "untracked-files"
    case UntrackedContentChanged => "untracked-content"
    case EnvironmentRootsChanged => "environment-roots"
  }

  /** The names under which changes are reported as violations. */
  function ChangeNames(changes: seq<WorkspaceChange>): (r: seq<string>)
    ensures |r| == |changes|
  {
    if changes == [] then [] else [ChangeName(changes[0])] + ChangeNames(changes[1..])
  }

  /** What the empty list of safety changes establishes. */
  lemma SafetyIsExact(s: Snapshot, path: string, branch: Option<string>, headSha: string,
      requireEmptyStaging: bool, requireCleanWorktree: bool)
    ensures SafetyChanges(s, path, branch, headSha, requireEmptyStaging, requireCleanWorktree) == [] <==>
      && s.inspectionComplete && s.repositoryPath == path && s.branch == branch && s.headSha == Some(headSha)
      && (requireEmptyStaging ==> s.stagedPaths == [])
      && (requireCleanWorktree ==> s.untrackedPaths == [] && (s.trackedDiff.Some? ==> s.trackedDiff == Some(SHA256.OfNothing())))
  {
    var r := SafetyChanges(s, path, branch, headSha, requireEmptyStaging, requireCleanWorktree);
    assert |r| == 0 <==> r == [];
  }

  // ----- properties of the constructor -----

  /** No two entries give one canonical path different hashes. */
  predicate Consistent(entries: seq<(string, string)>) {
    forall i, j :: (0 <= i < |entries| && 0 <= j < |entries|
      && CanonicalPath(entries[i].0) == CanonicalPath(entries[j].0)) ==> entries[i].1 == entries[j].1
  }

  /** Every dictionary value is some entry's hash; of the last entry for its path. */
  lemma {:induction false} HashOrigin(entries: seq<(string, string)>, key: string)
    requires key in HashesOf(entries)
    ensures exists i :: 0 <= i < |entries| && CanonicalPath(entries[i].0) == key && entries[i].1 == HashesOf(entries)[key]
  {
    var n := |entries| - 1;
    if CanonicalPath(entries[n].0) != key {
      HashOrigin(entries[..n], key);
      var i :| 0 <= i < n && CanonicalPath(entries[..n][i].0) == key && entries[..n][i].1 == HashesOf(entries)[key];
      assert entries[i].1 == HashesOf(entries)[key];
    }
  }

  lemma {:induction false} HashPresent(entries: seq<(string, string)>, i: nat)
    requires i < |entries|
    ensures CanonicalPath(entries[i].0) in HashesOf(entries)
  {
    var n := |entries| - 1;
    if i < n {
      HashPresent(entries[..n], i);
    }
  }

  lemma ConsistentHash(entries: seq<(string, string)>, i: nat)
    requires i < |entries| && Consistent(entries)
    ensures var key := CanonicalPath(entries[i].0); key in HashesOf(entries) && HashesOf(entries)[key] == entries[i].1
  {
    var key := CanonicalPath(entries[i].0);
    HashPresent(entries, i);
    HashOrigin(entries, key);
  }

  lemma SameEntriesSameHashes(xs: seq<(string, string)>, ys: seq<(string, string)>)
    requires Consistent(xs) && SameElements(xs, ys)
    ensures Consistent(ys) && HashesOf(xs) == HashesOf(ys) && SortedHashes(xs) == SortedHashes(ys)
  {
    forall i, j | 0 <= i < |ys| && 0 <= j < |ys| && CanonicalPath(ys[i].0) == CanonicalPath(ys[j].0)
      ensures ys[i].1 == ys[j].1
    {
      assert ys[i] in xs && ys[j] in xs;
    }
    HashesContained(xs, ys);
    HashesContained(ys, xs);
    HashKeys(xs);
    HashKeys(ys);
    PathSetIsCanonical(EntryPaths(xs), []);
    PathSetIsCanonical(EntryPaths(ys), []);
    AscendingIsUnique(PathSet(EntryPaths(xs)), PathSet(EntryPaths(ys)));
  }

  lemma HashesContained(xs: seq<(string, string)>, ys: seq<(string, string)>)
    requires Consistent(ys) && forall x :: x in xs ==> x in ys
    ensures forall k :: k in HashesOf(xs) ==> k in HashesOf(ys) && HashesOf(xs)[k] == HashesOf(ys)[k]
  {
    forall k | k in HashesOf(xs) ensures k in HashesOf(ys) && HashesOf(xs)[k] == HashesOf(ys)[k] {
      HashOrigin(xs, k);
      var i :| 0 <= i < |xs| && CanonicalPath(xs[i].0) == k && xs[i].1 == HashesOf(xs)[k];
      assert xs[i] in ys;
      var j :| 0 <= j < |ys| && ys[j] == xs[i];
      ConsistentHash(ys, j);
    }
  }

  predicate DigestErrorAt(entries: seq<(string, string)>, e: string) {
    exists i :: 0 <= i < |entries| && !IsSha256(entries[i].1) && e == DigestError(CanonicalPath(entries[i].0))
  }

  lemma ConsistentFront(entries: seq<(string, string)>)
    requires Consistent(entries) && entries != []
    ensures var n := |entries| - 1; var path := CanonicalPath(entries[n].0);
      Consistent(entries[..n])
      && (path in HashesOf(entries[..n]) ==> HashesOf(entries[..n])[path] == entries[n].1)
  {
    var n := |entries| - 1;
    var path := CanonicalPath(entries[n].0);
    if path in HashesOf(entries[..n]) {
      HashOrigin(entries[..n], path);
    }
  }

  lemma DigestErrorStep(entries: seq<(string, string)>, e: string)
    requires entries != []
    ensures var n := |entries| - 1;
      DigestErrorAt(entries, e) <==>
        DigestErrorAt(entries[..n], e)
        || (!IsSha256(entries[n].1) && e == DigestError(CanonicalPath(entries[n].0)))
  {
    hide CanonicalPath, DigestError, IsSha256;
    var n := |entries| - 1;
    var front := entries[..n];
    if DigestErrorAt(front, e) {
      var i :| 0 <= i < n && !IsSha256(front[i].1) && e == DigestError(CanonicalPath(front[i].0));
      assert entries[i] == front[i];
    }
    if DigestErrorAt(entries, e) {
      var i :| 0 <= i < |entries| && !IsSha256(entries[i].1) && e == DigestError(CanonicalPath(entries[i].0));
      if i < n { assert front[i] == entries[i]; }
    }
  }

  /** Without conflicting hashes, the errors are exactly the invalid digests. */
  lemma {:induction false} ConsistentErrors(entries: seq<(string, string)>, e: string)
    requires Consistent(entries)
    ensures e in HashErrors(entries) <==> DigestErrorAt(entries, e)
  {
    if entries != [] {
      ConsistentFront(entries);
      DigestErrorStep(entries, e);
      ConsistentErrors(entries[..|entries| - 1], e);
    }
  }

  /** Same fields up to the order and repetition of the listed paths, hashes and errors. */
  predicate SameInspection(a: Snapshot, b: Snapshot) {
    && a.repositoryPath == b.repositoryPath && a.branch == b.branch && a.headSha == b.headSha
    && a.stagedDiff == b.stagedDiff && a.trackedDiff == b.trackedDiff
    && a.inspectionComplete == b.inspectionComplete
    && SameElements(a.stagedPaths, b.stagedPaths)
    && SameElements(a.untrackedPaths, b.untrackedPaths)
    && SameElements(a.untrackedHashes, b.untrackedHashes)
    && SameElements(a.environmentRoots, b.environmentRoots)
    && SameElements(a.errors, b.errors)
  }

  lemma SameError(a: Snapshot, b: Snapshot, e: string)
    requires SameInspection(a, b) && Consistent(a.untrackedHashes) && e in AllErrors(a)
    ensures e in AllErrors(b)
  {
    hide Defect.Text, HashErrors, HashesOf, SortedUnique, PathSet, CanonicalPath, IsGitObject, IsSha256;
    SameEntriesSameHashes(a.untrackedHashes, b.untrackedHashes);
    PathSetIsCanonical(a.untrackedPaths, b.untrackedPaths);
    SameKeys(a.untrackedHashes, b.untrackedHashes);
    assert FieldErrors(a) == FieldErrors(b) && PathErrors(a) == PathErrors(b);
    DigestErrorsContained(a.untrackedHashes, b.untrackedHashes, e);
    assert e in a.errors || e in HashErrors(a.untrackedHashes) || e in FieldErrors(a) || e in PathErrors(a);
  }

  lemma SameErrors(a: Snapshot, b: Snapshot)
    requires SameInspection(a, b) && Consistent(a.untrackedHashes)
    ensures SortedUnique(AllErrors(a)) == SortedUnique(AllErrors(b))
  {
    hide AllErrors, SortedUnique, HashesOf, Defect.Text;
    SameEntriesSameHashes(a.untrackedHashes, b.untrackedHashes);
    forall e | e in AllErrors(a) ensures e in AllErrors(b) {
      SameError(a, b, e);
    }
    forall e | e in AllErrors(b) ensures e in AllErrors(a) {
      SameError(b, a, e);
    }
    SortedUniqueIsCanonical(AllErrors(a), AllErrors(b));
  }

  lemma ConsistentIsInsensitive(a: Snapshot, b: Snapshot)
    requires SameInspection(a, b) && Consistent(a.untrackedHashes)
    ensures Normalize(a) == Normalize(b)
  {
    hide AllErrors, SortedUnique, HashesOf, PathSet;
    PathSetIsCanonical(a.stagedPaths, b.stagedPaths);
    PathSetIsCanonical(a.untrackedPaths, b.untrackedPaths);
    PathSetIsCanonical(a.environmentRoots, b.environmentRoots);
    SameEntriesSameHashes(a.untrackedHashes, b.untrackedHashes);
    SameErrors(a, b);
  }

  lemma SameKeys(xs: seq<(string, string)>, ys: seq<(string, string)>)
    requires Consistent(xs) && SameElements(xs, ys)
    ensures PathSet(EntryPaths(xs)) == PathSet(EntryPaths(ys))
  {
    SameEntriesSameHashes(xs, ys);
    HashKeys(xs);
    HashKeys(ys);
    PathSetIsCanonical(EntryPaths(xs), []);
    PathSetIsCanonical(EntryPaths(ys), []);
    AscendingIsUnique(PathSet(EntryPaths(xs)), PathSet(EntryPaths(ys)));
  }

  lemma DigestErrorsContained(xs: seq<(string, string)>, ys: seq<(string, string)>, e: string)
    requires Consistent(xs) && Consistent(ys) && forall x :: x in xs ==> x in ys
    ensures e in HashErrors(xs) ==> e in HashErrors(ys)
  {
    ConsistentErrors(xs, e);
    ConsistentErrors(ys, e);
    if DigestErrorAt(xs, e) {
      var i :| 0 <= i < |xs| && !IsSha256(xs[i].1) && e == DigestError(CanonicalPath(xs[i].0));
      assert xs[i] in ys;
      var j :| 0 <= j < |ys| && ys[j] == xs[i];
      assert DigestErrorAt(ys, e);
    }
  }

  /**
   Normalization forgets the order and repetition of everything it lists exactly when no path is
   given two different hashes: the dictionary keeps the last one, so a conflict shows through.
   */
  lemma NormalizeIsInsensitiveIffConsistent(s: Snapshot)
    ensures Consistent(s.untrackedHashes) <==> (forall t :: SameInspection(s, t) ==> Normalize(t) == Normalize(s))
  {
    if Consistent(s.untrackedHashes) {
      forall t | SameInspection(s, t) ensures Normalize(t) == Normalize(s) {
        ConsistentIsInsensitive(s, t);
      }
    } else {
      ConflictShowsThrough(s);
    }
  }

  lemma ConflictShowsThrough(s: Snapshot)
    requires !Consistent(s.untrackedHashes)
    ensures exists t :: SameInspection(s, t) && Normalize(t) != Normalize(s)
  {
    var h := s.untrackedHashes;
    var i, j :| 0 <= i < |h| && 0 <= j < |h| && CanonicalPath(h[i].0) == CanonicalPath(h[j].0) && h[i].1 != h[j].1;
    RepeatedEntry(s, h[i]);
    RepeatedEntry(s, h[j]);
    AppendedHashWins(h, h[i]);
    AppendedHashWins(h, h[j]);
    assert (CanonicalPath(h[i].0), h[i].1) !in SortedHashes(h + [h[j]]);
    DifferentHashes(WithEntry(s, h[i]), WithEntry(s, h[j]));
  }

  function WithEntry(s: Snapshot, e: (string, string)): Snapshot {
    s.(untrackedHashes := s.untrackedHashes + [e])
  }

  lemma RepeatedEntry(s: Snapshot, e: (string, string))
    requires e in s.untrackedHashes
    ensures SameInspection(s, WithEntry(s, e))
  {
  }

  lemma DifferentHashes(s: Snapshot, t: Snapshot)
    requires SortedHashes(s.untrackedHashes) != SortedHashes(t.untrackedHashes)
    ensures Normalize(s) != Normalize(t)
  {
  }

  lemma AppendedHashWins(entries: seq<(string, string)>, e: (string, string))
    ensures (CanonicalPath(e.0), e.1) in SortedHashes(entries + [e])
    ensures forall r :: r in SortedHashes(entries + [e]) && r.0 == CanonicalPath(e.0) ==> r.1 == e.1
  {
    var all := entries + [e];
    HashKeys(all);
    var keys := PathSet(EntryPaths(all));
    assert all[..|all| - 1] == entries;
    assert HashesOf(all)[CanonicalPath(e.0)] == e.1;
    assert CanonicalPath(e.0) in keys;
    var k :| 0 <= k < |keys| && keys[k] == CanonicalPath(e.0);
    assert SortedHashes(all)[k] == (keys[k], HashesOf(all)[keys[k]]);
  }

  // ----- fixpoints of the constructor -----

  lemma SortedHashesNormal(entries: seq<(string, string)>)
    ensures var r := SortedHashes(entries);
      && EntryPaths(r) == PathSet(EntryPaths(entries))
      && (forall i :: 0 <= i < |r| ==> CanonicalPath(r[i].0) == r[i].0)
      && Ascending(EntryPaths(r))
  {
    var r := SortedHashes(entries);
    var keys := PathSet(EntryPaths(entries));
    HashKeys(entries);
    assert EntryPaths(r) == keys;
    PathSetIsCanonical(EntryPaths(entries), []);
    forall i | 0 <= i < |r| ensures CanonicalPath(r[i].0) == r[i].0 {
      assert keys[i] in keys;
      var p :| 0 <= p < |entries| && keys[i] == CanonicalPath(EntryPaths(entries)[p]);
      CanonicalPathIsNormal(EntryPaths(entries)[p]);
    }
  }

  lemma SortedHashesConsistent(entries: seq<(string, string)>)
    ensures var r := SortedHashes(entries); Consistent(r) && HashesOf(r) == HashesOf(entries)
  {
    var r := SortedHashes(entries);
    forall i | 0 <= i < |r|
      ensures CanonicalPath(r[i].0) in HashesOf(entries) && r[i].1 == HashesOf(entries)[CanonicalPath(r[i].0)]
    {
      SortedHashAt(entries, i);
    }
    ReadFromMap(r, HashesOf(entries));
    SameKeySet(entries);
  }

  lemma SortedHashAt(entries: seq<(string, string)>, i: nat)
    requires i < |SortedHashes(entries)|
    ensures var r := SortedHashes(entries)[i];
      CanonicalPath(r.0) in HashesOf(entries) && r.1 == HashesOf(entries)[CanonicalPath(r.0)]
  {
    HashKeys(entries);
    SortedHashesNormal(entries);
    var keys := PathSet(EntryPaths(entries));
    assert keys[i] in keys;
  }

  lemma SameKeySet(entries: seq<(string, string)>)
    ensures forall k :: k in HashesOf(SortedHashes(entries)) <==> k in HashesOf(entries)
  {
    var r := SortedHashes(entries);
    HashKeys(entries);
    HashKeys(r);
    SortedHashesNormal(entries);
    PathSetIsCanonical(EntryPaths(entries), []);
  }

  lemma ReadFromMap(r: seq<(string, string)>, m: map<string, string>)
    requires forall i :: 0 <= i < |r| ==> CanonicalPath(r[i].0) in m && r[i].1 == m[CanonicalPath(r[i].0)]
    ensures Consistent(r) && forall k :: k in HashesOf(r) ==> k in m && HashesOf(r)[k] == m[k]
  {
    forall k | k in HashesOf(r) ensures k in m && HashesOf(r)[k] == m[k] {
      HashOrigin(r, k);
    }
  }

  lemma SortedHashesFixed(entries: seq<(string, string)>)
    ensures SortedHashes(SortedHashes(entries)) == SortedHashes(entries)
  {
    SortedHashesNormal(entries);
    SortedHashesConsistent(entries);
    PathSetIsCanonical(EntryPaths(entries), []);
  }

  /** Sorting the dictionary keeps only invalid digests that were reported before. */
  lemma NoNewHashErrors(entries: seq<(string, string)>, e: string)
    requires e in HashErrors(SortedHashes(entries))
    ensures e in HashErrors(entries)
  {
    var r := SortedHashes(entries);
    SortedHashesConsistent(entries);
    SortedHashesNormal(entries);
    ConsistentErrors(r, e);
    var i :| 0 <= i < |r| && !IsSha256(r[i].1) && e == DigestError(CanonicalPath(r[i].0));
    ConsistentHash(r, i);
    HashOrigin(entries, r[i].0);
    var j :| 0 <= j < |entries| && CanonicalPath(entries[j].0) == r[i].0 && entries[j].1 == r[i].1;
    InvalidDigestIsReported(entries, j);
  }

  lemma SamePathErrors(s: Snapshot)
    ensures PathErrors(Normalize(s)) == PathErrors(s)
  {
    SortedHashesNormal(s.untrackedHashes);
    PathSetIsCanonical(s.untrackedPaths, []);
    PathSetIsCanonical(EntryPaths(s.untrackedHashes), []);
  }

  lemma NoNewErrors(s: Snapshot, e: string)
    requires e in AllErrors(Normalize(s))
    ensures e in Normalize(s).errors
  {
    hide Defect.Text, HashErrors, SortedUnique, PathErrors, PathSet, SortedHashes;
    SortedUniqueCorrect(AllErrors(s));
    SamePathErrors(s);
    if e in HashErrors(SortedHashes(s.untrackedHashes)) {
      NoNewHashErrors(s.untrackedHashes, e);
    }
    assert e in AllErrors(s) || e in Normalize(s).errors;
  }

  /** Normalizing again reports exactly the errors already listed. */
  lemma ErrorsAreStable(s: Snapshot)
    ensures SortedUnique(AllErrors(Normalize(s))) == Normalize(s).errors
  {
    hide Defect.Text, HashErrors, SortedUnique, FieldErrors, PathErrors, PathSet, SortedHashes;
    var all, listed := AllErrors(Normalize(s)), Normalize(s).errors;
    forall e | e in all ensures e in listed {
      NoNewErrors(s, e);
    }
    assert forall e :: e in listed ==> e in all;
    SortedUniqueCorrect(AllErrors(s));
    SortedUniqueIsCanonical(listed, all);
  }

  /** Normalizing twice is normalizing once. */
  lemma NormalizeIsIdempotent(s: Snapshot)
    ensures Canonical(Normalize(s))
  {
    var n := Normalize(s);
    PathSetIsCanonical(s.stagedPaths, []);
    PathSetIsCanonical(s.untrackedPaths, []);
    PathSetIsCanonical(s.environmentRoots, []);
    SortedHashesFixed(s.untrackedHashes);
    ErrorsAreStable(s);
    assert Normalize(n).errors == n.errors;
    assert Normalize(n).untrackedHashes == n.untrackedHashes;
  }

  lemma {:induction false} InvalidDigestIsReported(entries: seq<(string, string)>, j: nat)
    requires j < |entries| && !IsSha256(entries[j].1)
    ensures DigestError(CanonicalPath(entries[j].0)) in HashErrors(entries)
  {
    if j < |entries| - 1 {
      InvalidDigestIsReported(entries[..|entries| - 1], j);
    }
  }

  lemma NothingSorted(xs: seq<string>)
    requires SortedUnique(xs) == []
    ensures xs == []
  {
  }

  /** A complete canonical snapshot reports no error and hashes exactly its untracked paths. */
  lemma CompleteIsClean(s: Snapshot)
    requires Canonical(s) && s.inspectionComplete
    ensures s.errors == [] && EntryPaths(s.untrackedHashes) == s.untrackedPaths && Consistent(s.untrackedHashes)
  {
    NothingSorted(AllErrors(s));
    SortedHashesNormal(s.untrackedHashes);
    SortedHashesConsistent(s.untrackedHashes);
    assert |PathErrors(s)| <= |AllErrors(s)|;
  }

  lemma MatchingHashesAgree(a: Snapshot, b: Snapshot)
    requires Canonical(a) && Canonical(b) && a.inspectionComplete && b.inspectionComplete
    requires a.untrackedPaths == b.untrackedPaths && !SharedContentDiffers(a.untrackedHashes, b.untrackedHashes)
    ensures a.untrackedHashes == b.untrackedHashes
  {
    CompleteIsClean(a);
    CompleteIsClean(b);
    var ha, hb := a.untrackedHashes, b.untrackedHashes;
    assert |ha| == |EntryPaths(ha)| == |EntryPaths(hb)| == |hb|;
    forall i | 0 <= i < |ha| ensures ha[i] == hb[i] {
      assert EntryPaths(ha)[i] == EntryPaths(hb)[i];
      assert ha[i].0 == hb[i].0;
    }
  }

  lemma NoChanges(a: Snapshot, b: Snapshot)
    ensures Matches(a, b) <==>
      && a.inspectionComplete && b.inspectionComplete && a.repositoryPath == b.repositoryPath && a.branch == b.branch
      && a.headSha == b.headSha && a.stagedPaths == b.stagedPaths && a.stagedDiff == b.stagedDiff
      && a.trackedDiff == b.trackedDiff && a.untrackedPaths == b.untrackedPaths
      && !SharedContentDiffers(a.untrackedHashes, b.untrackedHashes) && a.environmentRoots == b.environmentRoots
  {
    assert |Compare(a, b)| == 0 <==> Compare(a, b) == [];
  }

  /** Two canonical snapshots match exactly when both are complete and their fingerprints agree. */
  lemma MatchesIffSameFingerprint(a: Snapshot, b: Snapshot)
    requires Canonical(a) && Canonical(b)
    ensures Matches(a, b) <==> a.inspectionComplete && b.inspectionComplete && FingerprintOf(a) == FingerprintOf(b)
  {
    NoChanges(a, b);
    if Matches(a, b) {
      CompleteIsClean(a);
      CompleteIsClean(b);
      MatchingHashesAgree(a, b);
    }
    if a.inspectionComplete && b.inspectionComplete && FingerprintOf(a) == FingerprintOf(b) {
      SelfContentAgrees(a);
    }
  }

  lemma SelfContentAgrees(a: Snapshot)
    requires Canonical(a) && a.inspectionComplete
    ensures !SharedContentDiffers(a.untrackedHashes, a.untrackedHashes)
  {
    CompleteIsClean(a);
  }

  /** matches is symmetric and transitive, and reflexive exactly on the complete snapshots. */
  lemma MatchesIsPartialEquivalence(a: Snapshot, b: Snapshot, c: Snapshot)
    requires Canonical(a) && Canonical(b) && Canonical(c)
    ensures Matches(a, b) ==> Matches(b, a)
    ensures Matches(a, b) && Matches(b, c) ==> Matches(a, c)
    ensures Matches(a, a) <==> a.inspectionComplete
  {
    MatchesIffSameFingerprint(a, b);
    MatchesIffSameFingerprint(b, a);
    MatchesIffSameFingerprint(b, c);
    MatchesIffSameFingerprint(a, c);
    MatchesIffSameFingerprint(a, a);
  }

  /** A snapshot matches a recorded fingerprint exactly when it matches every snapshot that was recorded. */
  lemma FingerprintStandsForSnapshot(recorded: Snapshot, current: Snapshot)
    requires Canonical(recorded) && Canonical(current) && recorded.inspectionComplete
    ensures MatchesFingerprint(current, FingerprintOf(recorded)) <==> Matches(recorded, current)
  {
    MatchesIffSameFingerprint(recorded, current);
  }
}
