/** Ordinal suffix matching on strings, as used to recognise the marker
    attribute by the display name of its type. */
module Strings {

  /** True when `s` ends with `suffix`, comparing characters one by one. */
  predicate EndsWith(s: string, suffix: string)
  {
    |suffix| <= |s| && s[|s| - |suffix|..] == suffix
  }

  /** A string ends with `suffix` exactly when it is some prefix followed by
      `suffix`; this is the independent reading of the slice-based test. */
  lemma EndsWithIffConcat(s: string, suffix: string)
    ensures EndsWith(s, suffix) <==> exists prefix :: s == prefix + suffix
  {
    if EndsWith(s, suffix) {
      var prefix := s[..|s| - |suffix|];
      assert s == prefix + suffix;
    }
    if exists prefix :: s == prefix + suffix {
      var prefix :| s == prefix + suffix;
      assert s[|s| - |suffix|..] == suffix;
    }
  }

  /** Appending the same suffix is injective: equal results have equal stems. */
  lemma ConcatSuffixInjective(a: string, b: string, suffix: string)
    ensures a + suffix == b + suffix <==> a == b
  {
    if a + suffix == b + suffix {
      assert |a| == |b|;
      assert a == (a + suffix)[..|a|];
      assert b == (b + suffix)[..|b|];
    }
  }
}
