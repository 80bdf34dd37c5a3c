/** What a normalized snapshot says, and which names a comparison reports, field by field. */
module SnapshotNormalForm {
  import opened Wrappers
  import opened Canonicalization
  import opened Snapshots

  // ----- listed paths -----

  /** The listed paths are the canonical forms of the given ones, each once, in order. */
  ghost predicate Lists(listed: seq<string>, given: seq<string>) {
    && Ascending(listed)
    && (forall p :: p in listed ==> exists i :: 0 <= i < |given| && p == CanonicalPath(given[i]))
    && (forall i :: 0 <= i < |given| ==> CanonicalPath(given[i]) in listed)
  }

  lemma PathSetLists(paths: seq<string>)
    ensures Lists(PathSet(paths), paths)
  {
    PathSetIsCanonical(paths, paths);
  }

  // ----- hashes -----

  /** The entry with this index is the last one for its path. */
  predicate LastFor(entries: seq<(string, string)>, i: nat, path: string) {
    && i < |entries| && CanonicalPath(entries[i].0) == path
    && forall j :: i < j < |entries| ==> CanonicalPath(entries[j].0) != path
  }

  /** The last entry for the path has this hash. */
  ghost predicate LastHash(entries: seq<(string, string)>, path: string, hash: string) {
    exists i: nat :: LastFor(entries, i, path) && hash == entries[i].1
  }

  lemma {:induction false} LastHashWins(entries: seq<(string, string)>, path: string)
    requires path in HashesOf(entries)
    ensures LastHash(entries, path, HashesOf(entries)[path])
  {
    var n := |entries| - 1;
    if CanonicalPath(entries[n].0) == path {
      assert LastFor(entries, n, path);
    } else {
      LastHashWins(entries[..n], path);
      var i: nat :| LastFor(entries[..n], i, path) && HashesOf(entries[..n])[path] == entries[..n][i].1;
      assert forall j :: i < j < n ==> entries[..n][j] == entries[j];
      assert LastFor(entries, i, path);
    }
  }

  /** The listed hashes give each canonical path, once and in order, the hash of its last entry. */
  ghost predicate ListsHashes(listed: seq<(string, string)>, entries: seq<(string, string)>) {
    && Ascending(EntryPaths(listed))
    && (forall k :: 0 <= k < |listed| ==> LastHash(entries, listed[k].0, listed[k].1))
    && (forall i :: 0 <= i < |entries| ==> CanonicalPath(entries[i].0) in EntryPaths(listed))
  }

  lemma SortedHashesList(entries: seq<(string, string)>)
    ensures ListsHashes(SortedHashes(entries), entries)
  {
    hide CanonicalPath, LastHash, HashesOf, PathSet, SortedHashes;
    var listed := SortedHashes(entries);
    SortedHashesNormal(entries);
    PathSetLists(EntryPaths(entries));
    forall k | 0 <= k < |listed| ensures LastHash(entries, listed[k].0, listed[k].1) {
      ListedHashIsLast(entries, k);
    }
    forall i | 0 <= i < |entries| ensures CanonicalPath(entries[i].0) in EntryPaths(listed) {
      assert EntryPaths(entries)[i] == entries[i].0;
    }
  }

  lemma ListedHashIsLast(entries: seq<(string, string)>, k: nat)
    requires k < |SortedHashes(entries)|
    ensures LastHash(entries, SortedHashes(entries)[k].0, SortedHashes(entries)[k].1)
  {
    hide CanonicalPath, LastHash, HashesOf, PathSet;
    var keys := PathSet(EntryPaths(entries));
    HashKeys(entries);
    assert keys[k] in keys;
    LastHashWins(entries, keys[k]);
  }

  predicate AllDigests(entries: seq<(string, string)>) {
    forall i :: 0 <= i < |entries| ==> IsSha256(entries[i].1)
  }

  lemma {:induction false} HashErrorsAreExact(entries: seq<(string, string)>)
    ensures HashErrors(entries) == [] <==> Consistent(entries) && AllDigests(entries)
  {
    if entries != [] {
      hide HashErrors, Consistent, AllDigests, HashesOf;
      HashErrorsAreExact(entries[..|entries| - 1]);
      HashErrorsStep(entries);
      FrontIsSound(entries);
      if Consistent(entries[..|entries| - 1]) {
        ConsistencyStep(entries);
      }
    } else {
      assert HashErrors(entries) == [];
    }
  }

  lemma HashErrorsStep(entries: seq<(string, string)>)
    requires entries != []
    ensures var n := |entries| - 1; var path := CanonicalPath(entries[n].0);
      HashErrors(entries) == [] <==>
        && HashErrors(entries[..n]) == []
        && (path in HashesOf(entries[..n]) ==> HashesOf(entries[..n])[path] == entries[n].1) && IsSha256(entries[n].1)
  {
    hide CanonicalPath, IsSha256, Defect.Text, HashesOf;
    assert |HashErrors(entries)| == 0 <==> HashErrors(entries) == [];
    assert |HashErrors(entries[..|entries| - 1])| == 0 <==> HashErrors(entries[..|entries| - 1]) == [];
  }

  lemma FrontIsSound(entries: seq<(string, string)>)
    requires entries != []
    ensures Consistent(entries) ==> Consistent(entries[..|entries| - 1])
    ensures AllDigests(entries) <==> AllDigests(entries[..|entries| - 1]) && IsSha256(entries[|entries| - 1].1)
  {
    hide CanonicalPath, IsSha256;
    var front := entries[..|entries| - 1];
    assert forall i :: 0 <= i < |front| ==> front[i] == entries[i];
    assert AllDigests(entries) ==> AllDigests(front);
  }

  /** A last entry keeps the entries consistent exactly when it agrees with what they say of its path. */
  lemma ConsistencyStep(entries: seq<(string, string)>)
    requires entries != [] && Consistent(entries[..|entries| - 1])
    ensures var n := |entries| - 1; var path := CanonicalPath(entries[n].0);
      Consistent(entries) <==> (path in HashesOf(entries[..n]) ==> HashesOf(entries[..n])[path] == entries[n].1)
  {
    hide CanonicalPath;
    var n := |entries| - 1;
    var front, path := entries[..n], CanonicalPath(entries[n].0);
    if Consistent(entries) {
      ConsistentFront(entries);
    } else {
      var i, j :| 0 <= i < |entries| && 0 <= j < |entries|
        && CanonicalPath(entries[i].0) == CanonicalPath(entries[j].0) && entries[i].1 != entries[j].1;
      var k := if i < n then i else j;
      assert front[k] == entries[k];
      ConsistentHash(front, k);
    }
  }

  // ----- the constructor -----

  /** The inspection left nothing out: every identity and digest is there and well formed, about the same files. */
  ghost predicate WholeInspection(s: Snapshot) {
    && s.inspectionComplete && s.errors == []
    && s.headSha.Some? && IsGitObject(s.headSha.value)
    && s.stagedDiff.Some? && IsSha256(s.stagedDiff.value)
    && s.trackedDiff.Some? && IsSha256(s.trackedDiff.value)
    && Consistent(s.untrackedHashes) && AllDigests(s.untrackedHashes)
    && forall p :: (exists i :: 0 <= i < |s.untrackedPaths| && p == CanonicalPath(s.untrackedPaths[i])) <==>
                   HasPath(s.untrackedHashes, p)
  }

  lemma SameFilesIsExact(s: Snapshot)
    ensures PathErrors(s) == [] <==>
      forall p :: (exists i :: 0 <= i < |s.untrackedPaths| && p == CanonicalPath(s.untrackedPaths[i])) <==>
                  HasPath(s.untrackedHashes, p)
  {
    hide CanonicalPath, Defect.Text, PathSet;
    var listed, hashed := PathSet(s.untrackedPaths), PathSet(EntryPaths(s.untrackedHashes));
    NotEmpty();
    PathSetIsCanonical(s.untrackedPaths, s.untrackedPaths);
    PathSetIsCanonical(EntryPaths(s.untrackedHashes), []);
    forall p ensures p in hashed <==> HasPath(s.untrackedHashes, p) {
      ListedIsPath(s.untrackedHashes, p);
    }
    if SameElements(listed, hashed) {
      AscendingIsUnique(listed, hashed);
    }
  }

  lemma NotEmpty()
    ensures |[OtherFiles.Text()]| == 1
  {
  }

  /**
   The constructor lists canonical paths once and in order, keeps the last hash of each file and every given error,
   changes no other field, and calls the inspection complete exactly when nothing was missing or contradictory.
   */
  lemma NormalizeIsExact(s: Snapshot)
    ensures var n := Normalize(s);
      && Lists(n.stagedPaths, s.stagedPaths) && Lists(n.untrackedPaths, s.untrackedPaths)
      && Lists(n.environmentRoots, s.environmentRoots) && ListsHashes(n.untrackedHashes, s.untrackedHashes)
      && n.repositoryPath == s.repositoryPath && n.branch == s.branch && n.headSha == s.headSha
      && n.stagedDiff == s.stagedDiff && n.trackedDiff == s.trackedDiff
      && Ascending(n.errors) && (forall e :: e in s.errors ==> e in n.errors)
      && (n.inspectionComplete <==> WholeInspection(s))
      && (n.errors == [] <==> WholeInspection(s.(inspectionComplete := true)))
  {
    hide Lists, ListsHashes, Defect.Text, HashErrors, PathErrors, CanonicalPath, PathSet, SortedHashes, SortedUnique;
    PathSetLists(s.stagedPaths);
    PathSetLists(s.untrackedPaths);
    PathSetLists(s.environmentRoots);
    SortedHashesList(s.untrackedHashes);
    SortedUniqueCorrect(AllErrors(s));
    HashErrorsAreExact(s.untrackedHashes);
    SameFilesIsExact(s);
    NoErrors(s);
    assert forall e :: e in s.errors ==> e in AllErrors(s);
  }

  lemma NoErrors(s: Snapshot)
    ensures SortedUnique(AllErrors(s)) == [] <==> AllErrors(s) == []
    ensures FieldErrors(s) == [] <==>
      && s.headSha.Some? && IsGitObject(s.headSha.value)
      && s.stagedDiff.Some? && IsSha256(s.stagedDiff.value)
      && s.trackedDiff.Some? && IsSha256(s.trackedDiff.value)
    ensures AllErrors(s) == [] <==>
      s.errors == [] && HashErrors(s.untrackedHashes) == [] && FieldErrors(s) == [] && PathErrors(s) == []
  {
    hide Defect.Text, HashErrors, PathErrors, IsSha256, IsGitObject;
    assert |FieldErrors(s)| == 0 <==> FieldErrors(s) == [];
  }

  // ----- reported names -----

  lemma ChangeNamesAreDistinct(c: WorkspaceChange, d: WorkspaceChange)
    ensures ChangeName(c) == ChangeName(d) <==> c == d
  {
    match c { case _ => match d { case _ => } }
  }

  lemma {:induction false} NamedExactly(changes: seq<WorkspaceChange>, c: WorkspaceChange)
    ensures ChangeName(c) in ChangeNames(changes) <==> c in changes
  {
    if changes != [] {
      hide ChangeName;
      NamedExactly(changes[1..], c);
      ChangeNamesAreDistinct(c, changes[0]);
    }
  }

  /** Each unsafe part of a workspace is reported under its own name, and nothing else is. */
  lemma SafetyNamesAreExact(s: Snapshot, path: string, branch: Option<string>, headSha: string,
      requireEmptyStaging: bool, requireCleanWorktree: bool)
    ensures var names :=
        ChangeNames(SafetyChanges(s, path, branch, headSha, requireEmptyStaging, requireCleanWorktree));
      && ("inspection-incomplete" in names <==> !s.inspectionComplete)
      && ("repository-path" in names <==> s.repositoryPath != path)
      && ("branch" in names <==> s.branch != branch)
      && ("HEAD" in names <==> s.headSha != Some(headSha))
      && ("staging" in names <==> requireEmptyStaging && s.stagedPaths != [])
      && ("tracked-diff" in names <==>
            requireCleanWorktree && s.trackedDiff.Some? && s.trackedDiff != Some(SHA256.OfNothing()))
      && ("untracked-files" in names <==> requireCleanWorktree && s.untrackedPaths != [])
      && "untracked-content" !in names && "environment-roots" !in names
  {
    hide SafetyChanges;
    var changes := SafetyChanges(s, path, branch, headSha, requireEmptyStaging, requireCleanWorktree);
    SafetyMembers(s, path, branch, headSha, requireEmptyStaging, requireCleanWorktree);
    NamesOf(changes);
  }

  function Added(changes: seq<WorkspaceChange>, condition: bool, c: WorkspaceChange): (r: seq<WorkspaceChange>)
    ensures forall d :: d in r <==> d in changes || (condition && d == c)
  {
    changes + When(condition, c)
  }

  function SafetyInSteps(s: Snapshot, path: string, branch: Option<string>, headSha: string,
      requireEmptyStaging: bool, requireCleanWorktree: bool): seq<WorkspaceChange>
  {
    var n1 := Added([], !s.inspectionComplete, InspectionIncomplete);
    var n2 := Added(n1, s.repositoryPath != path, RepositoryPathChanged);
    var n3 := Added(n2, s.branch != branch, BranchChanged);
    var n4 := Added(n3, s.headSha != Some(headSha), HeadChanged);
    var n5 := Added(n4, requireEmptyStaging && s.stagedPaths != [], StagingChanged);
    var n6 := Added(n5, requireCleanWorktree && s.trackedDiff.Some? && s.trackedDiff != Some(SHA256.OfNothing()),
      TrackedDiffChanged);
    Added(n6, requireCleanWorktree && s.untrackedPaths != [], UntrackedFilesChanged)
  }

  lemma SafetySteps(s: Snapshot, path: string, branch: Option<string>, headSha: string,
      requireEmptyStaging: bool, requireCleanWorktree: bool)
    ensures SafetyChanges(s, path, branch, headSha, requireEmptyStaging, requireCleanWorktree)
      == SafetyInSteps(s, path, branch, headSha, requireEmptyStaging, requireCleanWorktree)
  {
    hide When, HashFunction.OfNothing;
    assert forall w: seq<WorkspaceChange> :: [] + w == w;
  }

  function ComparedInSteps(a: Snapshot, b: Snapshot): seq<WorkspaceChange> {
    var n1 := Added([], !a.inspectionComplete || !b.inspectionComplete, InspectionIncomplete);
    var n2 := Added(n1, a.repositoryPath != b.repositoryPath, RepositoryPathChanged);
    var n3 := Added(n2, a.branch != b.branch, BranchChanged);
    var n4 := Added(n3, a.headSha != b.headSha, HeadChanged);
    var n5 := Added(n4, a.stagedPaths != b.stagedPaths || a.stagedDiff != b.stagedDiff, StagingChanged);
    var n6 := Added(n5, a.trackedDiff != b.trackedDiff, TrackedDiffChanged);
    var n7 := Added(n6, a.untrackedPaths != b.untrackedPaths, UntrackedFilesChanged);
    var n8 := Added(n7, SharedContentDiffers(a.untrackedHashes, b.untrackedHashes), UntrackedContentChanged);
    Added(n8, a.environmentRoots != b.environmentRoots, EnvironmentRootsChanged)
  }

  lemma ComparedSteps(a: Snapshot, b: Snapshot)
    ensures Compare(a, b) == ComparedInSteps(a, b)
  {
    hide When, SharedContentDiffers;
    assert forall w: seq<WorkspaceChange> :: [] + w == w;
  }

  lemma SafetyMembers(s: Snapshot, path: string, branch: Option<string>, headSha: string,
      requireEmptyStaging: bool, requireCleanWorktree: bool)
    ensures var changes := SafetyChanges(s, path, branch, headSha, requireEmptyStaging, requireCleanWorktree);
      && (InspectionIncomplete in changes <==> !s.inspectionComplete)
      && (RepositoryPathChanged in changes <==> s.repositoryPath != path)
      && (BranchChanged in changes <==> s.branch != branch)
      && (HeadChanged in changes <==> s.headSha != Some(headSha))
      && (StagingChanged in changes <==> requireEmptyStaging && s.stagedPaths != [])
      && (TrackedDiffChanged in changes <==>
            requireCleanWorktree && s.trackedDiff.Some? && s.trackedDiff != Some(SHA256.OfNothing()))
      && (UntrackedFilesChanged in changes <==> requireCleanWorktree && s.untrackedPaths != [])
      && UntrackedContentChanged !in changes && EnvironmentRootsChanged !in changes
  {
    hide SafetyChanges, Added, HashFunction.OfNothing;
    SafetySteps(s, path, branch, headSha, requireEmptyStaging, requireCleanWorktree);
  }

  lemma NamesOf(changes: seq<WorkspaceChange>)
    ensures var names := ChangeNames(changes);
      && ("inspection-incomplete" in names <==> InspectionIncomplete in changes)
      && ("repository-path" in names <==> RepositoryPathChanged in changes)
      && ("branch" in names <==> BranchChanged in changes)
      && ("HEAD" in names <==> HeadChanged in changes)
      && ("staging" in names <==> StagingChanged in changes)
      && ("tracked-diff" in names <==> TrackedDiffChanged in changes)
      && ("untracked-files" in names <==> UntrackedFilesChanged in changes)
      && ("untracked-content" in names <==> UntrackedContentChanged in changes)
      && ("environment-roots" in names <==> EnvironmentRootsChanged in changes)
  {
    forall c ensures ChangeName(c) in ChangeNames(changes) <==> c in changes {
      NamedExactly(changes, c);
    }
    hide ChangeNames;
    assert ChangeName(InspectionIncomplete) == "inspection-incomplete";
    assert ChangeName(RepositoryPathChanged) == "repository-path";
    assert ChangeName(BranchChanged) == "branch" && ChangeName(HeadChanged) == "HEAD";
    assert ChangeName(StagingChanged) == "staging" && ChangeName(TrackedDiffChanged) == "tracked-diff";
    assert ChangeName(UntrackedFilesChanged) == "untracked-files";
    assert ChangeName(UntrackedContentChanged) == "untracked-content";
    assert ChangeName(EnvironmentRootsChanged) == "environment-roots";
  }

  /** Each difference between two inspections is reported under its own name, and nothing else is. */
  lemma ComparisonNamesAreExact(a: Snapshot, b: Snapshot)
    ensures var names := ChangeNames(Compare(a, b));
      && ("inspection-incomplete" in names <==> !a.inspectionComplete || !b.inspectionComplete)
      && ("repository-path" in names <==> a.repositoryPath != b.repositoryPath)
      && ("branch" in names <==> a.branch != b.branch)
      && ("HEAD" in names <==> a.headSha != b.headSha)
      && ("staging" in names <==> a.stagedPaths != b.stagedPaths || a.stagedDiff != b.stagedDiff)
      && ("tracked-diff" in names <==> a.trackedDiff != b.trackedDiff)
      && ("untracked-files" in names <==> a.untrackedPaths != b.untrackedPaths)
      && ("untracked-content" in names <==>
            exists x, y :: x in a.untrackedHashes && y in b.untrackedHashes && x.0 == y.0 && x.1 != y.1)
      && ("environment-roots" in names <==> a.environmentRoots != b.environmentRoots)
  {
    hide Compare;
    ComparisonMembers(a, b);
    NamesOf(Compare(a, b));
  }

  lemma ComparisonMembers(a: Snapshot, b: Snapshot)
    ensures var changes := Compare(a, b);
      && (InspectionIncomplete in changes <==> !a.inspectionComplete || !b.inspectionComplete)
      && (RepositoryPathChanged in changes <==> a.repositoryPath != b.repositoryPath)
      && (BranchChanged in changes <==> a.branch != b.branch)
      && (HeadChanged in changes <==> a.headSha != b.headSha)
      && (StagingChanged in changes <==> a.stagedPaths != b.stagedPaths || a.stagedDiff != b.stagedDiff)
      && (TrackedDiffChanged in changes <==> a.trackedDiff != b.trackedDiff)
      && (UntrackedFilesChanged in changes <==> a.untrackedPaths != b.untrackedPaths)
      && (UntrackedContentChanged in changes <==>
            exists x, y :: x in a.untrackedHashes && y in b.untrackedHashes && x.0 == y.0 && x.1 != y.1)
      && (EnvironmentRootsChanged in changes <==> a.environmentRoots != b.environmentRoots)
  {
    hide Compare, Added, SharedContentDiffers;
    SharedContentIsExact(a.untrackedHashes, b.untrackedHashes);
    ComparedSteps(a, b);
  }

  lemma SharedContentIsExact(a: seq<(string, string)>, b: seq<(string, string)>)
    ensures SharedContentDiffers(a, b) <==> exists x, y :: x in a && y in b && x.0 == y.0 && x.1 != y.1
  {
    if SharedContentDiffers(a, b) {
      var i, j :| 0 <= i < |a| && 0 <= j < |b| && a[i].0 == b[j].0 && a[i].1 != b[j].1;
      assert a[i] in a && b[j] in b;
    }
  }
}
