/** The three JavaScript string operations the listing handler uses. */
module Strings {
  import opened Wrappers

  /** `s.startsWith(p)` */
  predicate StartsWith(s: string, p: string) {
    |p| <= |s| && s[..|p|] == p
  }

  /** `pat` occurs in `s` starting at index `i`. */
  predicate OccursAt(s: string, pat: string, i: nat) {
    i + |pat| <= |s| && s[i..i + |pat|] == pat
  }

  /** `s.indexOf(pat, from)`: the first index at or after `from` where `pat` occurs,
      with None for JavaScript's -1. */
  function IndexOf(s: string, pat: string, from: nat): (r: Option<nat>)
    requires from <= |s|
    decreases |s| - from
    ensures r.Some? ==> from <= r.value && OccursAt(s, pat, r.value)
    ensures r.Some? ==> forall i :: from <= i < r.value ==> !OccursAt(s, pat, i)
    ensures r.None? ==> forall i :: from <= i ==> !OccursAt(s, pat, i)
  {
    if |s| < from + |pat| then None
    else if s[from..from + |pat|] == pat then Some(from)
    else IndexOf(s, pat, from + 1)
  }

  /** `s.replace(pat, rep)` with a string pattern: only the first occurrence is replaced,
      and `s` comes back unchanged when `pat` does not occur. */
  function ReplaceFirst(s: string, pat: string, rep: string): string {
    match IndexOf(s, pat, 0)
    case None => s
    case Some(i) => s[..i] + rep + s[i + |pat|..]
  }

  /** The occurrence `replace` removes from a string that starts with the pattern is the
      leading one, so removing it leaves exactly the rest of the string. */
  lemma ReplaceLeadingOccurrence(s: string, pat: string)
    requires StartsWith(s, pat)
    ensures ReplaceFirst(s, pat, "") == s[|pat|..]
  {
    assert OccursAt(s, pat, 0);
  }
}
