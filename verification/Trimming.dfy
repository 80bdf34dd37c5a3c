/** str.strip(). */
module Trimming {
  import opened TaskResults

  function TrimLeft(s: string): string {
    if s != "" && Space(s[0]) then TrimLeft(s[1..]) else s
  }

  function TrimRight(s: string): string {
    if s != "" && Space(s[|s| - 1]) then TrimRight(s[..|s| - 1]) else s
  }

  function Strip(s: string): string {
    TrimRight(TrimLeft(s))
  }

  /** No surrounding whitespace. */
  predicate Trimmed(s: string) {
    s != "" ==> !Space(s[0]) && !Space(s[|s| - 1])
  }

  lemma {:induction false} TrimLeftEnds(s: string)
    ensures TrimLeft(s) != "" ==> !Space(TrimLeft(s)[0])
    ensures Blank(TrimLeft(s)) <==> Blank(s)
  {
    if s != "" && Space(s[0]) {
      TrimLeftEnds(s[1..]);
      assert s == [s[0]] + s[1..];
    }
  }

  lemma {:induction false} TrimRightEnds(s: string)
    ensures TrimRight(s) <= s
    ensures TrimRight(s) != "" ==> !Space(TrimRight(s)[|TrimRight(s)| - 1])
    ensures Blank(TrimRight(s)) <==> Blank(s)
  {
    if s != "" && Space(s[|s| - 1]) {
      TrimRightEnds(s[..|s| - 1]);
      assert s == s[..|s| - 1] + [s[|s| - 1]];
    }
  }

  /** Stripping trims, changes nothing exactly on trimmed text, and keeps a text from being blank. */
  lemma StripIsNormal(s: string)
    ensures Trimmed(Strip(s))
    ensures Strip(s) == s <==> Trimmed(s)
    ensures Blank(Strip(s)) <==> Blank(s)
    ensures s != "" && !Space(s[0]) ==> Strip(s) != "" && Strip(s)[0] == s[0]
  {
    TrimLeftEnds(s);
    TrimRightEnds(TrimLeft(s));
  }
}
