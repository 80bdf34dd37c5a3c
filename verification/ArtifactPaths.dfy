/** Artifact paths: PurePosixPath's normal form, and which texts the reference's constructor accepts. */
module ArtifactPaths {

  // ----- the components of a path -----

  /** The text in front of the first slash. */
  function Component(s: string): (c: string)
    ensures c <= s && '/' !in c && (|c| < |s| ==> s[|c|] == '/')
  {
    if s == "" || s[0] == '/' then "" else [s[0]] + Component(s[1..])
  }

  function Behind(s: string): (r: string)
    ensures s != "" ==> |r| < |s|
  {
    var c := Component(s);
    if |c| < |s| then s[|c| + 1..] else ""
  }

  /** PurePosixPath.parts of a relative path: empty components and single dots are dropped. */
  function Parts(s: string): (ps: seq<string>)
    ensures forall p :: p in ps ==> Plain(p)
    decreases |s|
  {
    if s == "" then []
    else
      var c := Component(s);
      (if c in {"", "."} then [] else [c]) + Parts(Behind(s))
  }

  /** A component that the parser keeps. */
  predicate Plain(p: string) {
    p != "" && p != "." && '/' !in p
  }

  function Joined(ps: seq<string>): string {
    if ps == [] then "" else if |ps| == 1 then ps[0] else ps[0] + "/" + Joined(ps[1..])
  }

  /** as_posix() of a relative path. */
  function PosixForm(s: string): string {
    if Parts(s) == [] then "." else Joined(Parts(s))
  }

  lemma {:induction false} ComponentOf(c: string, rest: string)
    requires '/' !in c
    ensures Component(c + "/" + rest) == c && Component(c) == c
    ensures Behind(c + "/" + rest) == rest && Behind(c) == ""
  {
    if c != "" {
      ComponentOf(c[1..], rest);
      assert (c + "/" + rest)[1..] == c[1..] + "/" + rest;
      assert c == [c[0]] + c[1..];
    }
    assert (c + "/" + rest)[|c| + 1..] == rest;
  }

  /** Joining plain components and parsing again gives the same components. */
  lemma {:induction false} PartsOfJoined(ps: seq<string>)
    requires forall p :: p in ps ==> Plain(p)
    ensures Parts(Joined(ps)) == ps
  {
    if ps != [] {
      assert ps[0] in ps && Plain(ps[0]);
      assert ps == [ps[0]] + ps[1..];
      if |ps| == 1 {
        ComponentOf(ps[0], "");
        assert Parts(Behind(ps[0])) == [];
      } else {
        ComponentOf(ps[0], Joined(ps[1..]));
        PartsOfJoined(ps[1..]);
      }
    }
  }

  /** The normal form has the same components and is a fixed point. */
  lemma PosixFormIsNormal(s: string)
    ensures Parts(PosixForm(s)) == Parts(s) && PosixForm(PosixForm(s)) == PosixForm(s)
  {
    if Parts(s) == [] {
      assert Component(".") == "." by { ComponentOf(".", ""); }
      ComponentOf(".", "");
      assert Parts(".") == Parts("");
    } else {
      PartsOfJoined(Parts(s));
    }
  }

  // ----- what the constructor accepts -----

  /** PureWindowsPath(s).is_absolute() of a text that does not start with a slash: a drive and a root. */
  predicate DriveAbsolute(s: string) {
    |s| >= 3 && s[1] == ':' && s[2] == '/'
  }

  /** _validated_artifact_path. */
  predicate PathAccepted(s: string) {
    && s != "" && '\\' !in s && s[0] != '/' && !DriveAbsolute(s)
    && ".." !in Parts(s)
  }

  /** What a reference can store: the normal form of some accepted text. */
  predicate Stored(path: string) {
    && path != "" && '\\' !in path && path[0] != '/'
    && PosixForm(path) == path && ".." !in Parts(path)
  }

  lemma {:induction false} JoinedCharacters(ps: seq<string>, c: char)
    requires c != '/' && c in Joined(ps)
    ensures exists p :: p in ps && c in p
  {
    if |ps| == 1 {
      assert ps[0] in ps;
    } else if c in ps[0] {
      assert ps[0] in ps;
    } else {
      JoinedCharacters(ps[1..], c);
      var p :| p in ps[1..] && c in p;
      assert p in ps;
    }
  }

  lemma BehindCharacters(s: string, c: char)
    requires c in Behind(s)
    ensures c in s
  {
    var i :| 0 <= i < |Behind(s)| && Behind(s)[i] == c;
    assert s[|Component(s)| + 1 + i] == c;
  }

  lemma {:induction false} PartCharacters(s: string, p: string, c: char)
    requires p in Parts(s) && c in p
    ensures c in s
    decreases |s|
  {
    var front := Component(s);
    if p in Parts(Behind(s)) {
      PartCharacters(Behind(s), p, c);
      BehindCharacters(s, c);
    } else {
      assert p == front;
      var i :| 0 <= i < |p| && p[i] == c;
      assert s[i] == c;
    }
  }

  lemma PosixFormKeepsBackslashesOut(s: string)
    requires '\\' !in s
    ensures '\\' !in PosixForm(s)
  {
    if '\\' in PosixForm(s) {
      JoinedCharacters(Parts(s), '\\');
      var p :| p in Parts(s) && '\\' in p;
      PartCharacters(s, p, '\\');
    }
  }

  lemma PosixFormIsRelative(s: string)
    ensures PosixForm(s) != "" && PosixForm(s)[0] != '/'
  {
    if Parts(s) != [] {
      assert Parts(s)[0] in Parts(s);
      assert Plain(Parts(s)[0]);
    }
  }

  lemma AcceptedIsStored(s: string)
    requires PathAccepted(s)
    ensures Stored(PosixForm(s))
  {
    PosixFormIsNormal(s);
    PosixFormKeepsBackslashesOut(s);
    PosixFormIsRelative(s);
  }

  lemma DotSlashIsAccepted(path: string)
    requires Stored(path)
    ensures PathAccepted("./" + path) && PosixForm("./" + path) == path
  {
    ComponentOf(".", path);
    assert "." + "/" + path == "./" + path;
    assert Parts("./" + path) == Parts(path);
  }

  /** The stored forms are exactly the normal forms of accepted texts. */
  lemma StoredIsExact(path: string)
    ensures Stored(path) <==> exists s :: PathAccepted(s) && PosixForm(s) == path
  {
    if exists s :: PathAccepted(s) && PosixForm(s) == path {
      var s :| PathAccepted(s) && PosixForm(s) == path;
      AcceptedIsStored(s);
    }
    if Stored(path) {
      DotSlashIsAccepted(path);
    }
  }

  /** A stored path is accepted again exactly when it does not look like a drive with a root. */
  lemma StoredIsAcceptedIff(path: string)
    requires Stored(path)
    ensures PathAccepted(path) <==> !DriveAbsolute(path)
  {
  }

  lemma SinglePart(p: string)
    requires Plain(p)
    ensures Parts(p) == [p] && PosixForm(p) == p
  {
    PartsOfJoined([p]);
  }

  lemma PairOfParts(p: string, q: string)
    requires Plain(p) && Plain(q)
    ensures Parts(p + "/" + q) == [p, q] && PosixForm(p + "/" + q) == p + "/" + q
  {
    PartsOfJoined([p, q]);
    assert Joined([q]) == q;
    assert Joined([p, q]) == p + "/" + q;
  }

  /** A blank text is a path. */
  lemma BlankPath()
    ensures PathAccepted(" ") && PosixForm(" ") == " "
  {
    SinglePart(" ");
  }

  /** A leading dot hides a drive from the check, and the normal form uncovers it. */
  lemma HiddenDrive()
    ensures PathAccepted("./C:/x") && PosixForm("./C:/x") == "C:/x"
  {
    PairOfParts("C:", "x");
    assert "C:" + "/" + "x" == "C:/x";
    assert "./" + "C:/x" == "./C:/x";
    DotSlashIsAccepted("C:/x");
  }
}
