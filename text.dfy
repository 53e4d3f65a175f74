/**
 * The two string operations the column matcher relies on: Python's
 * `str.lower()` and the substring test `needle in haystack`.
 */
module Text {

  /** `str.lower()` on one character; only the ASCII letters A-Z change. */
  function LowerChar(c: char): char {
    if 'A' <= c <= 'Z' then (c as int - 'A' as int + 'a' as int) as char else c
  }

  /**
   * `s.lower()`: the same length, no upper-case letter left, each
   * upper-case letter replaced by its lower-case partner and every other
   * character kept.
   */
  function Lower(s: string): (r: string)
    ensures |r| == |s|
    ensures forall i :: 0 <= i < |r| ==> !('A' <= r[i] <= 'Z')
    ensures forall i :: 0 <= i < |s| && !('A' <= s[i] <= 'Z') ==> r[i] == s[i]
    ensures forall i :: 0 <= i < |s| && 'A' <= s[i] <= 'Z' ==> r[i] as int == s[i] as int + ('a' as int - 'A' as int)
  {
    seq(|s|, i requires 0 <= i < |s| => LowerChar(s[i]))
  }

  /** Lower-casing twice is lower-casing once: a lowered label is its own lower case. */
  lemma LowerIdempotent(s: string)
    ensures Lower(Lower(s)) == Lower(s)
  {
  }

  /** `a` and `b` are the same character or the two cases of one ASCII letter. */
  predicate SameUpToCase(a: char, b: char) {
    || a == b
    || ('A' <= a <= 'Z' && b as int == a as int + ('a' as int - 'A' as int))
    || ('A' <= b <= 'Z' && a as int == b as int + ('a' as int - 'A' as int))
  }

  /** Two labels that differ only in letter case lower to the same string. */
  lemma LowerIgnoresCase(s: string, t: string)
    requires |s| == |t|
    requires forall i :: 0 <= i < |s| ==> SameUpToCase(s[i], t[i])
    ensures Lower(s) == Lower(t)
  {
  }

  /** The list comprehension `[c.lower() for c in names]`. */
  function LowerAll(names: seq<string>): (r: seq<string>)
    ensures |r| == |names|
    ensures forall i :: 0 <= i < |names| ==> r[i] == Lower(names[i])
  {
    seq(|names|, i requires 0 <= i < |names| => Lower(names[i]))
  }

  /** `needle` occurs in `s` starting at position `k`. */
  ghost predicate OccursAt(s: string, needle: string, k: int) {
    0 <= k && k + |needle| <= |s| && s[k..k + |needle|] == needle
  }

  lemma OccursShift(s: string, needle: string, k: int)
    requires |s| > 0 && 0 <= k
    ensures OccursAt(s[1..], needle, k) <==> OccursAt(s, needle, k + 1)
  {
    if k + |needle| <= |s| - 1 {
      var shifted, window := s[1..][k..k + |needle|], s[k + 1..k + 1 + |needle|];
      assert shifted == window by {
        forall j | 0 <= j < |needle|
          ensures shifted[j] == window[j]
        {
        }
      }
    }
  }

  /**
   * Python's `needle in s`: true exactly when `needle` occurs somewhere in
   * `s` (the empty string occurs everywhere).
   */
  function Contains(s: string, needle: string): (r: bool)
    ensures r <==> exists k :: OccursAt(s, needle, k)
    decreases |s|
  {
    if |needle| > |s| then false
    else if s[..|needle|] == needle then assert OccursAt(s, needle, 0); true
    else
      assert !OccursAt(s, needle, 0);
      assert forall k :: OccursAt(s[1..], needle, k) ==> OccursAt(s, needle, k + 1) by {
        forall k | OccursAt(s[1..], needle, k) { OccursShift(s, needle, k); }
      }
      assert forall k :: OccursAt(s, needle, k) ==> OccursAt(s[1..], needle, k - 1) by {
        forall k | OccursAt(s, needle, k) { OccursShift(s, needle, k - 1); }
      }
      Contains(s[1..], needle)
  }

  /** One differing character rules out an occurrence. */
  lemma Mismatch(s: string, needle: string, k: int, j: nat)
    requires j < |needle| && 0 <= k && k + j < |s| && s[k + j] != needle[j]
    ensures !OccursAt(s, needle, k)
  {
    if k + |needle| <= |s| {
      assert s[k..k + |needle|][j] == s[k + j];
    }
  }

  /** Containment is transitive: a needle of a needle is a needle. */
  lemma {:induction false} ContainsTransitive(s: string, mid: string, needle: string)
    requires Contains(s, mid) && Contains(mid, needle)
    ensures Contains(s, needle)
  {
    var k1 :| OccursAt(s, mid, k1);
    var k2 :| OccursAt(mid, needle, k2);
    var window := s[k1 + k2..k1 + k2 + |needle|];
    assert window == needle by {
      forall j | 0 <= j < |needle|
        ensures window[j] == needle[j]
      {
        assert s[k1..k1 + |mid|][k2 + j] == mid[k2 + j];
        assert mid[k2..k2 + |needle|][j] == mid[k2 + j];
      }
    }
    assert OccursAt(s, needle, k1 + k2);
  }
}
