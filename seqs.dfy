/** Sequence helpers shared by the page objects and the tests. */
module Seqs {
  import opened Wrappers

  /** `Array.prototype.find`: the first element of `s` that satisfies `p`, if any. */
  function Find<T(==)>(s: seq<T>, p: T -> bool): (r: Option<T>)
    ensures r.None? <==> forall i :: 0 <= i < |s| ==> !p(s[i])
    ensures r.Some? ==> exists i :: 0 <= i < |s| && s[i] == r.value && p(s[i]) && IsFirst(s, p, i)
  {
    if |s| == 0 then None
    else if p(s[0]) then
      assert IsFirst(s, p, 0);
      Some(s[0])
    else
      var r := Find(s[1..], p);
      if r.Some? then
        var i :| 0 <= i < |s[1..]| && s[1..][i] == r.value && p(s[1..][i]) && IsFirst(s[1..], p, i);
        assert s[i + 1] == r.value && IsFirst(s, p, i + 1);
        r
      else
        assert forall i :: 1 <= i < |s| ==> s[i] == s[1..][i - 1];
        r
  }

  /** No element before index `i` satisfies `p`. */
  predicate IsFirst<T>(s: seq<T>, p: T -> bool, i: int)
    requires 0 <= i <= |s|
  {
    forall j :: 0 <= j < i ==> !p(s[j])
  }

  /** Finding in a concatenation searches the first part completely before the second. */
  lemma {:induction false} FindAppend<T>(a: seq<T>, b: seq<T>, p: T -> bool)
    ensures Find(a + b, p) == if Find(a, p).Some? then Find(a, p) else Find(b, p)
  {
    if |a| == 0 {
      assert a + b == b;
    } else {
      assert (a + b)[0] == a[0];
      if !p(a[0]) {
        assert (a + b)[1..] == a[1..] + b;
        FindAppend(a[1..], b, p);
      }
    }
  }

  /** All elements of `s` differ from each other. */
  predicate Distinct<T(==)>(s: seq<T>) {
    forall i, j :: 0 <= i < j < |s| ==> s[i] != s[j]
  }

  /** Every element of `s` occurs in it exactly once exactly when no two positions hold the same element. */
  lemma OnceEachIffDistinct<T>(s: seq<T>)
    ensures (forall k :: 0 <= k < |s| ==> multiset(s)[s[k]] == 1) <==> Distinct(s)
  {
    DistinctOccursOnce(s);
    forall i, j | 0 <= i < j < |s| ensures s[i] == s[j] ==> multiset(s)[s[i]] >= 2 {
      RepeatOccursTwice(s, i, j);
    }
  }

  lemma {:induction false} DistinctOccursOnce<T>(s: seq<T>)
    ensures Distinct(s) ==> forall k :: 0 <= k < |s| ==> multiset(s)[s[k]] == 1
  {
    if |s| > 0 && Distinct(s) {
      var t := s[1..];
      assert s == [s[0]] + t;
      forall i, j | 0 <= i < j < |t| ensures t[i] != t[j] {
        assert t[i] == s[i + 1] && t[j] == s[j + 1];
      }
      DistinctOccursOnce(t);
      forall m | 0 <= m < |t| ensures t[m] != s[0] {
        assert t[m] == s[m + 1];
      }
      assert s[0] !in t;
      forall k | 0 <= k < |s| ensures multiset(s)[s[k]] == 1 {
        if k > 0 {
          assert s[k] == t[k - 1];
        }
      }
    }
  }

  /** An element at two positions occurs at least twice. */
  lemma RepeatOccursTwice<T>(s: seq<T>, i: nat, j: nat)
    requires i < j < |s|
    ensures s[i] == s[j] ==> multiset(s)[s[i]] >= 2
  {
    var a, b := s[..j], s[j..];
    assert s == a + b;
    assert a[i] == s[i] && b[0] == s[j];
    assert s[i] in a && s[j] in b;
  }

  /** `needle` occurs as a contiguous part of `hay` (JavaScript's `includes`, Playwright's `toContain`). */
  predicate IsSubstring(needle: string, hay: string) {
    exists k | 0 <= k <= |hay| :: OccursAt(needle, hay, k)
  }

  /** `needle` occurs in `hay` starting at index `k`. */
  predicate OccursAt(needle: string, hay: string, k: int) {
    0 <= k && k + |needle| <= |hay| && hay[k..k + |needle|] == needle
  }

  /** Every string contains itself, and whatever surrounds a string still contains it. */
  lemma SubstringOfConcat(pre: string, needle: string, post: string)
    ensures IsSubstring(needle, pre + needle + post)
  {
    var hay := pre + needle + post;
    assert hay[|pre|..|pre| + |needle|] == needle;
    assert OccursAt(needle, hay, |pre|);
  }

  /** A string holding a character that `hay` lacks does not occur in `hay`. */
  lemma MissingCharRulesOut(needle: string, hay: string, p: nat)
    requires p < |needle| && needle[p] !in hay
    ensures !IsSubstring(needle, hay)
  {
    forall k | 0 <= k <= |hay| && k + |needle| <= |hay| ensures !OccursAt(needle, hay, k) {
      assert hay[k..k + |needle|][p] == hay[k + p];
    }
  }
}
