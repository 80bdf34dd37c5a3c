/**
 Canonical text and path collections: the order on strings, sorting without
 duplicates, and the repository-relative path normal form.
 */
module Canonicalization {

  /** Code-point order on strings, as Python compares them. */
  predicate Below(a: string, b: string) {
    b != "" && (a == "" || a[0] < b[0] || (a[0] == b[0] && Below(a[1..], b[1..])))
  }

  lemma {:induction false} BelowIsStrict(a: string, b: string)
    ensures !(Below(a, b) && Below(b, a)) && !Below(a, a)
  {
    if a != "" {
      BelowIsStrict(a[1..], if b == "" then b else b[1..]);
    }
  }

  lemma {:induction false} BelowIsTotal(a: string, b: string)
    ensures a == b || Below(a, b) || Below(b, a)
  {
    if a != "" && b != "" {
      BelowIsTotal(a[1..], b[1..]);
      assert a == [a[0]] + a[1..] && b == [b[0]] + b[1..];
    }
  }

  lemma {:induction false} BelowIsTransitive(a: string, b: string, c: string)
    requires Below(a, b) && Below(b, c)
    ensures Below(a, c)
  {
    if a != "" && a[0] == b[0] && b[0] == c[0] {
      BelowIsTransitive(a[1..], b[1..], c[1..]);
    }
  }

  predicate Ascending(xs: seq<string>) {
    forall i, j :: 0 <= i < j < |xs| ==> Below(xs[i], xs[j])
  }

  predicate SameElements<T(==)>(xs: seq<T>, ys: seq<T>) {
    (forall x :: x in xs ==> x in ys) && (forall y :: y in ys ==> y in xs)
  }

  function Insert(x: string, xs: seq<string>): (r: seq<string>)
    ensures r != []
  {
    if xs == [] then [x]
    else if x == xs[0] then xs
    else if Below(x, xs[0]) then [x] + xs
    else [xs[0]] + Insert(x, xs[1..])
  }

  lemma {:induction false} InsertCorrect(x: string, xs: seq<string>)
    requires Ascending(xs)
    ensures Ascending(Insert(x, xs)) && SameElements(Insert(x, xs), [x] + xs)
  {
    if xs == [] || x == xs[0] {
    } else if Below(x, xs[0]) {
      forall j | 0 < j < |xs| ensures Below(x, xs[j]) {
        BelowIsTransitive(x, xs[0], xs[j]);
      }
    } else {
      BelowIsTotal(x, xs[0]);
      InsertCorrect(x, xs[1..]);
      var rest := Insert(x, xs[1..]);
      forall j | 0 <= j < |rest| ensures Below(xs[0], rest[j]) {
        assert rest[j] in [x] + xs[1..];
        if rest[j] != x {
          var k :| 0 <= k < |xs| - 1 && xs[1..][k] == rest[j];
          assert xs[1..][k] == xs[k + 1];
        }
      }
      assert SameElements(Insert(x, xs), [x] + xs) by {
        forall y | y in [x] + xs ensures y in Insert(x, xs) {
          if y != xs[0] { assert y in [x] + xs[1..]; }
        }
        forall y | y in Insert(x, xs) ensures y in [x] + xs {
          if y != xs[0] { assert y in [x] + xs[1..]; }
        }
      }
    }
  }

  /** sorted(set(xs)). */
  function SortedUnique(xs: seq<string>): seq<string> {
    if xs == [] then [] else Insert(xs[0], SortedUnique(xs[1..]))
  }

  lemma {:induction false} SortedUniqueCorrect(xs: seq<string>)
    ensures Ascending(SortedUnique(xs)) && SameElements(SortedUnique(xs), xs)
  {
    if xs != [] {
      SortedUniqueCorrect(xs[1..]);
      InsertCorrect(xs[0], SortedUnique(xs[1..]));
      assert xs == [xs[0]] + xs[1..];
    }
  }

  /** An ascending sequence is determined by its elements. */
  lemma {:induction false} AscendingIsUnique(xs: seq<string>, ys: seq<string>)
    requires Ascending(xs) && Ascending(ys) && SameElements(xs, ys)
    ensures xs == ys
  {
    assert xs != [] ==> xs[0] in ys;
    assert ys != [] ==> ys[0] in xs;
    if xs != [] {
      var i :| 0 <= i < |ys| && ys[i] == xs[0];
      var j :| 0 <= j < |xs| && xs[j] == ys[0];
      BelowIsStrict(xs[0], ys[0]);
      assert xs[0] == ys[0];
      TailsAgree(xs, ys);
      AscendingIsUnique(xs[1..], ys[1..]);
    }
  }

  lemma TailsAgree(xs: seq<string>, ys: seq<string>)
    requires Ascending(xs) && Ascending(ys) && SameElements(xs, ys)
    requires xs != [] && ys != [] && xs[0] == ys[0]
    ensures Ascending(xs[1..]) && Ascending(ys[1..]) && SameElements(xs[1..], ys[1..])
  {
    TailIsContained(xs, ys);
    TailIsContained(ys, xs);
  }

  lemma TailIsContained(xs: seq<string>, ys: seq<string>)
    requires Ascending(xs) && xs != [] && ys != [] && xs[0] == ys[0]
    requires forall x :: x in xs ==> x in ys
    ensures forall x :: x in xs[1..] ==> x in ys[1..]
  {
    forall x | x in xs[1..] ensures x in ys[1..] {
      var i :| 0 <= i < |xs| - 1 && xs[1..][i] == x;
      assert Below(xs[0], xs[i + 1]);
      assert xs[i + 1] == x && x in xs;
      BelowIsStrict(xs[0], x);
      assert ys == [ys[0]] + ys[1..];
    }
  }

  /** Sorting ignores order and repetition, and is the identity on its own results. */
  lemma SortedUniqueIsCanonical(xs: seq<string>, ys: seq<string>)
    ensures SortedUnique(xs) == SortedUnique(ys) <==> SameElements(xs, ys)
    ensures Ascending(xs) ==> SortedUnique(xs) == xs
  {
    SortedUniqueCorrect(xs);
    SortedUniqueCorrect(ys);
    if SameElements(xs, ys) {
      AscendingIsUnique(SortedUnique(xs), SortedUnique(ys));
    }
    if Ascending(xs) {
      AscendingIsUnique(SortedUnique(xs), xs);
    }
  }

  function ForwardSlashes(s: string): (r: string)
    ensures |r| == |s| && (forall i :: 0 <= i < |s| ==> r[i] == if s[i] == '\\' then '/' else s[i])
  {
    if s == "" then "" else [if s[0] == '\\' then '/' else s[0]] + ForwardSlashes(s[1..])
  }

  predicate StartsHere(s: string) {
    |s| >= 2 && s[0] == '.' && s[1] == '/'
  }

  function StripHere(s: string): string {
    if StartsHere(s) then StripHere(s[2..]) else s
  }

  function CanonicalPath(path: string): string {
    var stripped := StripHere(ForwardSlashes(path));
    if stripped == "" then "." else stripped
  }

  lemma {:induction false} StripHereStops(s: string)
    ensures !StartsHere(StripHere(s)) && (forall c :: c in StripHere(s) ==> c in s)
  {
    if StartsHere(s) {
      StripHereStops(s[2..]);
    }
  }

  lemma {:induction false} NoBackslashIsFixed(s: string)
    requires '\\' !in s
    ensures ForwardSlashes(s) == s
  {
  }

  /** The normal form has no backslash, no leading "./", is never empty and normalizes to itself. */
  lemma CanonicalPathIsNormal(path: string)
    ensures var c := CanonicalPath(path);
      c != "" && '\\' !in c && !StartsHere(c) && CanonicalPath(c) == c
  {
    var c := CanonicalPath(path);
    StripHereStops(ForwardSlashes(path));
    NoBackslashIsFixed(c);
  }

  /**
   The normal form changes only spellings: it is the path itself exactly when that is normal already, and neither
   the kind of slash nor a leading "./" makes a difference.
   */
  lemma CanonicalPathKeepsMeaning(path: string)
    ensures CanonicalPath(path) == path <==> path != "" && '\\' !in path && !StartsHere(path)
    ensures CanonicalPath(ForwardSlashes(path)) == CanonicalPath(path)
    ensures CanonicalPath("./" + path) == CanonicalPath(path) == CanonicalPath(".\\" + path)
    ensures CanonicalPath("") == "."
  {
    CanonicalPathIsNormal(path);
    if '\\' !in path {
      NoBackslashIsFixed(path);
    }
    NoBackslashIsFixed(ForwardSlashes(path));
    HereIsDropped("./" + path, path);
    HereIsDropped(".\\" + path, path);
  }

  lemma HereIsDropped(s: string, path: string)
    requires |s| == |path| + 2 && s[0] == '.' && s[1] in {'/', '\\'} && s[2..] == path
    ensures CanonicalPath(s) == CanonicalPath(path)
  {
    assert ForwardSlashes(s)[2..] == ForwardSlashes(path);
  }

  /** The loop of _canonical_path. */
  method CanonicalPathLoop(value: string) returns (canonical: string)
    ensures canonical == CanonicalPath(value)
  {
    canonical := ForwardSlashes(value);
    while StartsHere(canonical)
      invariant StripHere(canonical) == StripHere(ForwardSlashes(value))
      decreases |canonical|
    {
      canonical := canonical[2..];
    }
    if canonical == "" {
      canonical := ".";
    }
  }

  function CanonicalPaths(paths: seq<string>): (r: seq<string>)
    ensures |r| == |paths| && forall i :: 0 <= i < |paths| ==> r[i] == CanonicalPath(paths[i])
  {
    if paths == [] then [] else [CanonicalPath(paths[0])] + CanonicalPaths(paths[1..])
  }

  /** tuple(sorted({_canonical_path(p) for p in paths})). */
  function PathSet(paths: seq<string>): seq<string> {
    SortedUnique(CanonicalPaths(paths))
  }

  lemma PathSetIsCanonical(xs: seq<string>, ys: seq<string>)
    ensures SameElements(xs, ys) ==> PathSet(xs) == PathSet(ys)
    ensures PathSet(PathSet(xs)) == PathSet(xs)
    ensures Ascending(PathSet(xs))
    ensures forall p :: p in PathSet(xs) <==> exists i :: 0 <= i < |xs| && p == CanonicalPath(xs[i])
  {
    var cx, cy := CanonicalPaths(xs), CanonicalPaths(ys);
    if SameElements(xs, ys) {
      CanonicalPathsContained(xs, ys);
      CanonicalPathsContained(ys, xs);
    }
    SortedUniqueIsCanonical(cx, cy);
    SortedUniqueCorrect(cx);
    forall p | p in PathSet(xs) ensures exists i :: 0 <= i < |xs| && p == CanonicalPath(xs[i]) {
      assert p in cx;
      var i :| 0 <= i < |cx| && cx[i] == p;
      assert p == CanonicalPath(xs[i]);
    }
    forall p | exists i :: 0 <= i < |xs| && p == CanonicalPath(xs[i]) ensures p in PathSet(xs) {
      var i :| 0 <= i < |xs| && p == CanonicalPath(xs[i]);
      assert cx[i] in cx;
    }
    AscendingNormalIsFixed(PathSet(xs));
  }

  lemma CanonicalPathsContained(xs: seq<string>, ys: seq<string>)
    requires forall x :: x in xs ==> x in ys
    ensures forall c :: c in CanonicalPaths(xs) ==> c in CanonicalPaths(ys)
  {
    forall c | c in CanonicalPaths(xs) ensures c in CanonicalPaths(ys) {
      var i :| 0 <= i < |xs| && CanonicalPaths(xs)[i] == c;
      assert xs[i] in ys;
      var j :| 0 <= j < |ys| && ys[j] == xs[i];
      assert CanonicalPaths(ys)[j] == c;
    }
  }

  lemma AscendingNormalIsFixed(xs: seq<string>)
    requires Ascending(xs) && forall x :: x in xs ==> exists p :: x == CanonicalPath(p)
    ensures CanonicalPaths(xs) == xs && PathSet(xs) == xs
  {
    forall i | 0 <= i < |xs| ensures CanonicalPath(xs[i]) == xs[i] {
      assert xs[i] in xs;
      var p :| xs[i] == CanonicalPath(p);
      CanonicalPathIsNormal(p);
    }
    SortedUniqueIsCanonical(xs, xs);
  }
}
