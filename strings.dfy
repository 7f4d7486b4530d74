/** The three helpers of Go's `strings` package that `Client.Path` uses,
    each specialised to the single cut character the client passes ("/"). */
module Strings {

  /** strings.HasPrefix: `s` is long enough and its first |prefix| characters are `prefix`. */
  predicate HasPrefix(s: string, prefix: string)
    ensures HasPrefix(s, prefix) <==> prefix <= s
  {
    |prefix| <= |s| && s[..|prefix|] == prefix
  }

  /** strings.TrimLeft(s, cut) with a one-character cut set: every leading `cut`
      is removed, and nothing else. */
  function TrimLeft(s: string, cut: char): (r: string)
    ensures |r| <= |s| && r == s[|s| - |r|..]
    ensures forall i :: 0 <= i < |s| - |r| ==> s[i] == cut
    ensures r == [] || r[0] != cut
  {
    if s != [] && s[0] == cut then TrimLeft(s[1..], cut) else s
  }

  /** strings.TrimRight(s, cut) with a one-character cut set: every trailing `cut`
      is removed, and nothing else. */
  function TrimRight(s: string, cut: char): (r: string)
    ensures r <= s
    ensures forall i :: |r| <= i < |s| ==> s[i] == cut
    ensures r == [] || r[|r| - 1] != cut
  {
    if s != [] && s[|s| - 1] == cut then TrimRight(s[..|s| - 1], cut) else s
  }

  /** Extra cut characters on the trimmed side make no difference. */
  lemma TrimAbsorbsCut(s: string, cut: char)
    ensures TrimLeft([cut] + s, cut) == TrimLeft(s, cut)
    ensures TrimRight(s + [cut], cut) == TrimRight(s, cut)
  {
    assert ([cut] + s)[1..] == s;
    assert (s + [cut])[..|s|] == s;
  }
}
