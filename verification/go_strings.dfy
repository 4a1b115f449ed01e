/** The two functions of Go's `strings` package the pipeline relies on.
    Comparison is character by character: case-sensitive, no normalisation. */
module GoStrings {

  /** `strings.HasSuffix`: `suffix` is the final segment of `s`. */
  predicate HasSuffix(s: string, suffix: string)
  {
    |suffix| <= |s| && s[|s| - |suffix|..] == suffix
  }

  /** `s` ends with `suffix` exactly when it is some string followed by `suffix`. */
  lemma HasSuffixMeaning(s: string, suffix: string)
    ensures HasSuffix(s, suffix) <==> exists t :: t + suffix == s
  {
    if HasSuffix(s, suffix) {
      assert s[..|s| - |suffix|] + suffix == s;
    }
    if t :| t + suffix == s {
      assert s[|t|..] == suffix;
    }
  }

  /** `strings.TrimSuffix`: `s` without its trailing `suffix`; `s` itself when it does not end with it. */
  function TrimSuffix(s: string, suffix: string): (r: string)
    ensures HasSuffix(s, suffix) ==> r + suffix == s
    ensures !HasSuffix(s, suffix) ==> r == s
  {
    if HasSuffix(s, suffix) then s[..|s| - |suffix|] else s
  }

  /** Appending a suffix and trimming it again gives back the original string. */
  lemma SuffixOfAppend(t: string, suffix: string)
    ensures HasSuffix(t + suffix, suffix)
    ensures TrimSuffix(t + suffix, suffix) == t
  {
  }

  /** A common suffix can be cancelled: the prefix in front of it is unique. */
  lemma AppendCancel(a: string, b: string, suffix: string)
    requires a + suffix == b + suffix
    ensures a == b
  {
    assert |a| == |b|;
    assert a == (a + suffix)[..|a|];
    assert b == (b + suffix)[..|b|];
  }
}
