/** The environment walk of the workspace guard, over a finite directory tree. */
module EnvironmentWalk {

  type Path = seq<string>

  /** What one directory entry turns out to be; links count as no directory, junctions are skipped. */
  datatype Entry =
    | NoDirectory(name: string)
    | Unreadable(name: string)
    | Junction(name: string)
    | Subdirectory(name: string, directory: Directory)

  /** A directory: whether it is an environment root, whether it can be listed, and its entries. */
  datatype Directory = Directory(detected: bool, listable: bool, entries: seq<Entry>)

  const SKIPPED: set<string> :=
    {".git", ".hg", ".svn", "__pycache__", ".mypy_cache", ".pytest_cache", ".ruff_cache"}

  /** A file system never lists one name twice. */
  predicate DistinctNames(d: Directory) {
    && (forall i, j :: 0 <= i < j < |d.entries| ==> d.entries[i].name != d.entries[j].name)
    && forall i :: 0 <= i < |d.entries| && d.entries[i].Subdirectory? ==> DistinctNames(d.entries[i].directory)
  }

  // ----- the walk as a function -----

  datatype Findings = Findings(environments: seq<Path>, errors: seq<Path>)

  function Joined(a: Findings, b: Findings): Findings {
    Findings(a.environments + b.environments, a.errors + b.errors)
  }

  const NOTHING := Findings([], [])

  function Walked(path: Path, d: Directory): Findings
    decreases d, 1, 0
  {
    if d.detected then Findings([path], [])
    else if !d.listable then Findings([], [path])
    else WalkedEntries(path, d, |d.entries|)
  }

  /** What the first n entries of a directory contribute. */
  function WalkedEntries(path: Path, d: Directory, n: nat): Findings
    requires n <= |d.entries|
    decreases d, 0, n
  {
    if n == 0 then NOTHING
    else Joined(WalkedEntries(path, d, n - 1), WalkedEntry(path, d, n - 1))
  }

  function WalkedEntry(path: Path, d: Directory, i: nat): Findings
    requires i < |d.entries|
    decreases d, 0, i
  {
    var e := d.entries[i];
    if e.name in SKIPPED then NOTHING
    else
      match e
      case NoDirectory(_) => NOTHING
      case Unreadable(name) => Findings([], [path + [name]])
      case Junction(_) => NOTHING
      case Subdirectory(name, child) => Walked(path + [name], child)
  }

  // ----- the walk as it is written -----

  /** The two lists that every recursive call appends to. */
  class Walker {
    var environments: seq<Path>
    var errors: seq<Path>

    function Found(): Findings
      reads this
    {
      Findings(environments, errors)
    }

    constructor ()
      ensures Found() == NOTHING
    {
      environments, errors := [], [];
    }

    /** _walk_repository. */
    method Walk(path: Path, d: Directory)
      modifies this
      ensures Found() == Joined(old(Found()), Walked(path, d))
      decreases d
    {
      hide WalkedEntries, WalkedEntry;
      NoEntries(path, d);
      if d.detected {
        environments := environments + [path];
        return;
      }
      if !d.listable {
        errors := errors + [path];
        return;
      }
      for i := 0 to |d.entries|
        invariant Found() == Joined(old(Found()), WalkedEntries(path, d, i))
      {
        var entry := d.entries[i];
        WalkedStep(path, d, i);
        if entry.name !in SKIPPED {
          match entry {
            case Unreadable(name) => errors := errors + [path + [name]];
            case Subdirectory(name, child) => Walk(path + [name], child);
            case _ =>
          }
        }
        JoinedIsAssociative(old(Found()), WalkedEntries(path, d, i), WalkedEntry(path, d, i));
      }
    }
  }

  lemma NoEntries(path: Path, d: Directory)
    ensures WalkedEntries(path, d, 0) == NOTHING
  {
  }

  lemma WalkedStep(path: Path, d: Directory, i: nat)
    requires i < |d.entries|
    ensures WalkedEntries(path, d, i + 1) == Joined(WalkedEntries(path, d, i), WalkedEntry(path, d, i))
    ensures WalkedEntry(path, d, i) == (
      if d.entries[i].name in SKIPPED then NOTHING
      else if d.entries[i].Unreadable? then Findings([], [path + [d.entries[i].name]])
      else if d.entries[i].Subdirectory? then Walked(path + [d.entries[i].name], d.entries[i].directory)
      else NOTHING)
  {
  }

  lemma JoinedIsAssociative(a: Findings, b: Findings, c: Findings)
    ensures Joined(Joined(a, b), c) == Joined(a, Joined(b, c))
  {
  }

  // ----- what it reports -----

  /** The names that a walk passes over. */
  predicate Skipped(name: string) {
    || name == ".git" || name == ".hg" || name == ".svn" || name == "__pycache__"
    || name == ".mypy_cache" || name == ".pytest_cache" || name == ".ruff_cache"
  }

  lemma SkippedIsExact(name: string)
    ensures Skipped(name) <==> name in SKIPPED
  {
  }

  /** The directory at a relative path is an environment root, reached without crossing a root, a skipped name or a link. */
  predicate Reachable(d: Directory, p: Path)
    decreases d, 1
  {
    if p == [] then d.detected
    else !d.detected && exists i :: 0 <= i < |d.entries| && ReachableThrough(d, i, p)
  }

  predicate ReachableThrough(d: Directory, i: nat, p: Path)
    requires i < |d.entries| && p != []
    decreases d, 0
  {
    var e := d.entries[i];
    e.Subdirectory? && e.name == p[0] && !Skipped(e.name) && Reachable(e.directory, p[1..])
  }

  /**
   What the walk meets at a relative path when it crosses only listed directories: with problem, a directory that
   cannot be listed or an entry that cannot be read, otherwise an environment root.
   */
  predicate Met(d: Directory, p: Path, problem: bool)
    decreases d, 1
  {
    if p == [] then (if problem then !d.detected && !d.listable else d.detected)
    else !d.detected && d.listable && exists i :: 0 <= i < |d.entries| && MetThrough(d, i, p, problem)
  }

  predicate MetThrough(d: Directory, i: nat, p: Path, problem: bool)
    requires i < |d.entries| && p != []
    decreases d, 0
  {
    var e := d.entries[i];
    && e.name == p[0] && !Skipped(e.name)
    && match e
       case NoDirectory(_) => false
       case Unreadable(_) => problem && |p| == 1
       case Junction(_) => false
       case Subdirectory(_, child) => Met(child, p[1..], problem)
  }

  function Of(f: Findings, problem: bool): seq<Path> {
    if problem then f.errors else f.environments
  }

  lemma {:induction false} ReportedWasMet(path: Path, d: Directory, q: Path, problem: bool)
    requires q in Of(Walked(path, d), problem)
    ensures |path| <= |q| && q[..|path|] == path && Met(d, q[|path|..], problem)
    decreases d, 1
  {
    if d.detected || !d.listable {
      assert q[|path|..] == [];
    } else {
      var i := ReportedByEntry(path, d, |d.entries|, q, problem);
      assert MetThrough(d, i, q[|path|..], problem);
    }
  }

  lemma {:induction false} ReportedByEntry(path: Path, d: Directory, n: nat, q: Path, problem: bool) returns (i: nat)
    requires n <= |d.entries| && q in Of(WalkedEntries(path, d, n), problem)
    ensures i < |d.entries| && |path| < |q| && q[..|path|] == path && MetThrough(d, i, q[|path|..], problem)
    decreases d, 0, n
  {
    if q in Of(WalkedEntry(path, d, n - 1), problem) {
      i := n - 1;
      var e := d.entries[i];
      if e.Subdirectory? {
        ReportedWasMet(path + [e.name], e.directory, q, problem);
        assert q[|path|..][1..] == q[|path| + 1..];
      }
      assert q[..|path| + 1] == path + [e.name];
      assert q[..|path|] == q[..|path| + 1][..|path|] == path;
      assert q[|path|] == q[..|path| + 1][|path|] == e.name;
    } else {
      i := ReportedByEntry(path, d, n - 1, q, problem);
    }
  }

  lemma {:induction false} EntryIsReported(path: Path, d: Directory, n: nat, i: nat, q: Path, problem: bool)
    requires i < n <= |d.entries| && q in Of(WalkedEntry(path, d, i), problem)
    ensures q in Of(WalkedEntries(path, d, n), problem)
    decreases n
  {
    if i < n - 1 {
      EntryIsReported(path, d, n - 1, i, q, problem);
    }
  }

  lemma {:induction false} MetIsReported(path: Path, d: Directory, p: Path, problem: bool)
    requires Met(d, p, problem)
    ensures path + p in Of(Walked(path, d), problem)
    decreases d
  {
    if p == [] {
      assert path + p == path;
    } else {
      var i :| 0 <= i < |d.entries| && MetThrough(d, i, p, problem);
      assert p == [p[0]] + p[1..];
      assert path + [p[0]] + p[1..] == path + p;
      if d.entries[i].Subdirectory? {
        MetIsReported(path + [p[0]], d.entries[i].directory, p[1..], problem);
      }
      assert d.entries[i].Unreadable? ==> path + p == path + [p[0]];
      SkippedIsExact(p[0]);
      EntryIsReported(path, d, |d.entries|, i, path + p, problem);
    }
  }

  /**
   A walk reports exactly the environment roots, and records as errors exactly the directories that it cannot list and
   the entries that it cannot read, that it meets without crossing a root, an error, a skipped name or a link.
   */
  lemma ReportsAreExact(d: Directory, p: Path)
    ensures p in Walked([], d).environments <==> Met(d, p, false)
    ensures p in Walked([], d).errors <==> Met(d, p, true)
  {
    forall problem: bool ensures p in Of(Walked([], d), problem) <==> Met(d, p, problem) {
      if p in Of(Walked([], d), problem) {
        ReportedWasMet([], d, p, problem);
        assert p[0..] == p;
      }
      if Met(d, p, problem) {
        MetIsReported([], d, p, problem);
        assert [] + p == p;
      }
    }
    assert Of(Walked([], d), false) == Walked([], d).environments && Of(Walked([], d), true) == Walked([], d).errors;
  }

  lemma {:induction false} MetIsReachable(d: Directory, p: Path)
    requires Met(d, p, false)
    ensures Reachable(d, p)
    decreases d
  {
    if p != [] {
      var i :| 0 <= i < |d.entries| && MetThrough(d, i, p, false);
      MetIsReachable(d.entries[i].directory, p[1..]);
      assert ReachableThrough(d, i, p);
    }
  }

  lemma {:induction false} ReachableIsMet(d: Directory, p: Path) returns (n: nat)
    requires Reachable(d, p)
    ensures n <= |p| && (Met(d, p, false) || (n < |p| && Met(d, p[..n], true)))
    decreases d
  {
    n := 0;
    if p != [] && d.listable {
      var i :| 0 <= i < |d.entries| && ReachableThrough(d, i, p);
      var m := ReachableIsMet(d.entries[i].directory, p[1..]);
      n := m + 1;
      assert p[..n][1..] == p[1..][..m];
      assert MetThrough(d, i, p, false) || (m < |p[1..]| && MetThrough(d, i, p[..n], true));
    }
  }

  /** A reachable root that is not reported lies below a recorded error; nothing unreachable is ever reported. */
  lemma MissedMeansError(d: Directory, p: Path)
    ensures p in Walked([], d).environments ==> Reachable(d, p)
    ensures Reachable(d, p) && p !in Walked([], d).environments ==>
      exists n: nat :: n < |p| && p[..n] in Walked([], d).errors
  {
    ReportsAreExact(d, p);
    if Met(d, p, false) {
      MetIsReachable(d, p);
    } else if Reachable(d, p) {
      var n := ReachableIsMet(d, p);
      ReportsAreExact(d, p[..n]);
    }
  }

  /** A walk that records no error reports exactly the reachable environment roots. */
  lemma WalkIsExact(d: Directory, p: Path)
    requires Walked([], d).errors == []
    ensures p in Walked([], d).environments <==> Reachable(d, p)
  {
    MissedMeansError(d, p);
  }

  lemma {:induction false} RootsStop(d: Directory, p: Path, q: Path)
    requires DistinctNames(d) && Reachable(d, p) && Reachable(d, q) && p <= q
    ensures p == q
    decreases d
  {
    if p != [] {
      var i :| 0 <= i < |d.entries| && ReachableThrough(d, i, p);
      var j :| 0 <= j < |d.entries| && ReachableThrough(d, j, q);
      assert p[0] == q[0];
      assert i == j;
      assert p[1..] <= q[1..];
      RootsStop(d.entries[i].directory, p[1..], q[1..]);
      assert p == [p[0]] + p[1..] && q == [q[0]] + q[1..];
    }
  }

  /** No reported root lies inside another: the walk never enters an environment. */
  lemma RootsAreAntichain(d: Directory, p: Path, q: Path)
    requires DistinctNames(d) && p in Walked([], d).environments && q in Walked([], d).environments
    ensures p <= q ==> p == q
  {
    MissedMeansError(d, p);
    MissedMeansError(d, q);
    if p <= q {
      RootsStop(d, p, q);
    }
  }

  // ----- new environments -----

  /** new_environments: the roots after the call that were not there before, in their order. */
  function NewEnvironments(before: seq<Path>, after: seq<Path>): (r: seq<Path>)
    ensures forall p :: p in r <==> p in after && p !in before
  {
    if after == [] then []
    else
      var last := after[|after| - 1];
      var rest := NewEnvironments(before, after[..|after| - 1]);
      assert after == after[..|after| - 1] + [last];
      if last in before then rest else rest + [last]
  }

  /** After clean walks, exactly the environments that appeared between them are new. */
  lemma NewIsExact(before: Directory, after: Directory, p: Path)
    requires Walked([], before).errors == [] && Walked([], after).errors == []
    ensures p in NewEnvironments(Walked([], before).environments, Walked([], after).environments) <==>
      Reachable(after, p) && !Reachable(before, p)
  {
    WalkIsExact(before, p);
    WalkIsExact(after, p);
  }
}
