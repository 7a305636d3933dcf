/** Substring search on strings, as `str::contains` does it. */
module Text {

  /** `p` is a prefix of `s`. */
  predicate IsPrefix(p: string, s: string)
  {
    |p| <= |s| && s[..|p|] == p
  }

  /**
   * `haystack.contains(needle)`: `needle` occurs in `haystack` as a
   * contiguous piece. Every string contains the empty string.
   */
  predicate Contains(haystack: string, needle: string)
    decreases |haystack|
  {
    IsPrefix(needle, haystack) || (|haystack| > 0 && Contains(haystack[1..], needle))
  }

  /** `needle` starts at position `k` of `haystack`. */
  predicate OccursAt(haystack: string, needle: string, k: int)
  {
    0 <= k <= |haystack| - |needle| && haystack[k..k + |needle|] == needle
  }

  /** `Contains` holds exactly when `needle` starts at some position of `haystack`. */
  lemma {:induction false} ContainsIffOccurs(haystack: string, needle: string)
    ensures Contains(haystack, needle) <==> exists k :: OccursAt(haystack, needle, k)
    decreases |haystack|
  {
    if IsPrefix(needle, haystack) {
      assert OccursAt(haystack, needle, 0);
    }
    if |haystack| > 0 {
      ContainsIffOccurs(haystack[1..], needle);
      if Contains(haystack[1..], needle) {
        var k :| OccursAt(haystack[1..], needle, k);
        assert OccursAt(haystack, needle, k + 1);
      }
      if exists k :: OccursAt(haystack, needle, k) {
        var k :| OccursAt(haystack, needle, k);
        if k > 0 {
          assert OccursAt(haystack[1..], needle, k - 1);
        }
      }
    } else {
      if exists k :: OccursAt(haystack, needle, k) {
        var k :| OccursAt(haystack, needle, k);
        assert k == 0;
      }
    }
  }

  /** A string contains each of its suffixes; in particular `base + "/" + suffix` contains `suffix`. */
  lemma {:induction false} ContainsSuffix(prefix: string, suffix: string)
    ensures Contains(prefix + suffix, suffix)
    decreases |prefix|
  {
    if prefix == [] {
      assert prefix + suffix == suffix;
    } else {
      ContainsSuffix(prefix[1..], suffix);
      assert (prefix + suffix)[1..] == prefix[1..] + suffix;
    }
  }
}
