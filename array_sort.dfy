/**
 * `[...s].sort(comparator)` on a list of strings: a stable sort of a copy,
 * modelled as insertion of the elements in their original order, and what
 * it guarantees when the comparator is consistent.
 */
module ArraySort {
  /** A comparator as `sort` takes it: negative, zero or positive. */
  type Comparator = (string, string) -> int

  /** `s` is in the order `cmp` asks for. */
  predicate Sorted(cmp: Comparator, s: seq<string>) {
    forall i, j :: 0 <= i < j < |s| ==> cmp(s[i], s[j]) <= 0
  }

  /** Swapping the operands negates the result. */
  ghost predicate Antisymmetric(cmp: Comparator) {
    forall a, b :: cmp(a, b) == -cmp(b, a)
  }

  /** `cmp` orders the strings `ok` accepts consistently. */
  ghost predicate TransitiveOn(cmp: Comparator, ok: string -> bool) {
    forall a, b, c :: ok(a) && ok(b) && ok(c) && cmp(a, b) <= 0 && cmp(b, c) <= 0 ==> cmp(a, c) <= 0
  }

  /** Among the strings `ok` accepts, `cmp` ties only equal ones. */
  ghost predicate TiesAreEqualOn(cmp: Comparator, ok: string -> bool) {
    forall a, b :: ok(a) && ok(b) && cmp(a, b) == 0 ==> a == b
  }

  predicate AllOk(ok: string -> bool, s: seq<string>) {
    forall i :: 0 <= i < |s| ==> ok(s[i])
  }

  /** Insert `x` after every element of `s` that does not compare greater than it. */
  function Insert(cmp: Comparator, x: string, s: seq<string>): (r: seq<string>)
    ensures multiset(r) == multiset(s) + multiset{x}
    ensures |r| == |s| + 1
  {
    if |s| == 0 then [x]
    else if cmp(x, s[0]) < 0 then [x] + s
    else
      assert s == [s[0]] + s[1..];
      [s[0]] + Insert(cmp, x, s[1..])
  }

  /** The sorted copy: each element inserted, in the original order, into the sorted copy of those before it. */
  function Sort(cmp: Comparator, s: seq<string>): (r: seq<string>)
    ensures multiset(r) == multiset(s)
    ensures |r| == |s|
  {
    if |s| == 0 then []
    else
      assert s == s[..|s| - 1] + [s[|s| - 1]];
      Insert(cmp, s[|s| - 1], Sort(cmp, s[..|s| - 1]))
  }

  /** Inserting into a sorted list keeps it sorted. */
  lemma {:induction false} InsertSorted(cmp: Comparator, ok: string -> bool, x: string, s: seq<string>)
    requires Antisymmetric(cmp) && TransitiveOn(cmp, ok)
    requires Sorted(cmp, s) && ok(x) && AllOk(ok, s)
    ensures Sorted(cmp, Insert(cmp, x, s))
  {
    if |s| > 0 {
      if cmp(x, s[0]) < 0 {
        SortedBefore(cmp, ok, x, s);
      } else {
        SortedTail(cmp, ok, s);
        InsertSorted(cmp, ok, x, s[1..]);
        assert cmp(s[0], x) <= 0;
        SortedAfterHead(cmp, x, s);
      }
    }
  }

  /** The tail of a sorted list of accepted elements is one too. */
  lemma SortedTail(cmp: Comparator, ok: string -> bool, s: seq<string>)
    requires Sorted(cmp, s) && AllOk(ok, s) && |s| > 0
    ensures Sorted(cmp, s[1..]) && AllOk(ok, s[1..])
  {
    var t := s[1..];
    forall i, j | 0 <= i < j < |t| ensures cmp(t[i], t[j]) <= 0 {
      assert t[i] == s[i + 1] && t[j] == s[j + 1];
    }
    forall i | 0 <= i < |t| ensures ok(t[i]) {
      assert t[i] == s[i + 1];
    }
  }

  /** An element that compares below the head of a sorted list goes in front, and the list stays sorted. */
  lemma SortedBefore(cmp: Comparator, ok: string -> bool, x: string, s: seq<string>)
    requires TransitiveOn(cmp, ok)
    requires Sorted(cmp, s) && |s| > 0 && cmp(x, s[0]) < 0 && ok(x) && AllOk(ok, s)
    ensures Sorted(cmp, Insert(cmp, x, s))
  {
    forall j | 0 <= j < |s| ensures cmp(x, s[j]) <= 0 {
      if j > 0 {
        assert ok(s[0]) && ok(s[j]) && cmp(s[0], s[j]) <= 0;
      }
    }
    HeadBeforeSorted(cmp, x, s);
  }

  /** An element that does not compare below the head goes after it, into the sorted tail. */
  lemma SortedAfterHead(cmp: Comparator, x: string, s: seq<string>)
    requires Sorted(cmp, s) && |s| > 0 && cmp(s[0], x) <= 0
    requires Sorted(cmp, Insert(cmp, x, s[1..]))
    requires Insert(cmp, x, s) == [s[0]] + Insert(cmp, x, s[1..])
    ensures Sorted(cmp, Insert(cmp, x, s))
  {
    var t := Insert(cmp, x, s[1..]);
    SortedTailFollowsHead(cmp, s);
    InsertKeepsLowerBound(cmp, s[0], x, s[1..]);
    HeadBeforeSorted(cmp, s[0], t);
  }

  /** Putting a lower bound of a sorted list in front keeps it sorted. */
  lemma HeadBeforeSorted(cmp: Comparator, y: string, t: seq<string>)
    requires Sorted(cmp, t)
    requires forall j :: 0 <= j < |t| ==> cmp(y, t[j]) <= 0
    ensures Sorted(cmp, [y] + t)
  {
    var r := [y] + t;
    forall i, j | 0 <= i < j < |r| ensures cmp(r[i], r[j]) <= 0 {
      if i == 0 {
        assert r[j] == t[j - 1];
      } else {
        assert r[i] == t[i - 1] && r[j] == t[j - 1];
      }
    }
  }

  /** Every element of a sorted list after the head compares at least the head. */
  lemma SortedTailFollowsHead(cmp: Comparator, s: seq<string>)
    requires Sorted(cmp, s) && |s| > 0
    ensures forall i :: 0 <= i < |s[1..]| ==> cmp(s[0], s[1..][i]) <= 0
  {
    forall i | 0 <= i < |s[1..]| ensures cmp(s[0], s[1..][i]) <= 0 {
      assert s[1..][i] == s[i + 1];
    }
  }

  /** A lower bound of `x` and of every element of `s` is a lower bound of every element after the insertion. */
  lemma {:induction false} InsertKeepsLowerBound(cmp: Comparator, y: string, x: string, s: seq<string>)
    requires cmp(y, x) <= 0
    requires forall i :: 0 <= i < |s| ==> cmp(y, s[i]) <= 0
    ensures forall j :: 0 <= j < |Insert(cmp, x, s)| ==> cmp(y, Insert(cmp, x, s)[j]) <= 0
  {
    if |s| > 0 && cmp(x, s[0]) >= 0 {
      var t := s[1..];
      forall i | 0 <= i < |t| ensures cmp(y, t[i]) <= 0 {
        assert t[i] == s[i + 1];
      }
      InsertKeepsLowerBound(cmp, y, x, t);
      var r := Insert(cmp, x, s);
      assert r == [s[0]] + Insert(cmp, x, t);
      forall j | 0 <= j < |r| ensures cmp(y, r[j]) <= 0 {
        if j > 0 {
          assert r[j] == Insert(cmp, x, t)[j - 1];
        }
      }
    } else if |s| > 0 {
      var r := Insert(cmp, x, s);
      assert r == [x] + s;
      forall j | 0 <= j < |r| ensures cmp(y, r[j]) <= 0 {
        if j > 0 {
          assert r[j] == s[j - 1];
        }
      }
    }
  }

  /** For accepted elements and a consistent comparator, the copy is in comparator order. */
  lemma {:induction false} SortIsSorted(cmp: Comparator, ok: string -> bool, s: seq<string>)
    requires Antisymmetric(cmp) && TransitiveOn(cmp, ok) && AllOk(ok, s)
    ensures Sorted(cmp, Sort(cmp, s))
  {
    if |s| > 0 {
      var p := s[..|s| - 1];
      assert AllOk(ok, p) by {
        forall i | 0 <= i < |p| ensures ok(p[i]) {
          assert p[i] == s[i];
        }
      }
      SortIsSorted(cmp, ok, p);
      PermutationKeeps(ok, Sort(cmp, p), p);
      InsertSorted(cmp, ok, s[|s| - 1], Sort(cmp, p));
    }
  }

  /** An element that no element of `s` compares greater than goes at the end. */
  lemma {:induction false} InsertAtEnd(cmp: Comparator, x: string, s: seq<string>)
    requires Antisymmetric(cmp)
    requires forall i :: 0 <= i < |s| ==> cmp(s[i], x) <= 0
    ensures Insert(cmp, x, s) == s + [x]
  {
    if |s| > 0 {
      var t := s[1..];
      forall i | 0 <= i < |t| ensures cmp(t[i], x) <= 0 {
        assert t[i] == s[i + 1];
      }
      InsertAtEnd(cmp, x, t);
      assert cmp(x, s[0]) >= 0;
      calc {
        Insert(cmp, x, s);
        [s[0]] + Insert(cmp, x, t);
        [s[0]] + (t + [x]);
        ([s[0]] + t) + [x];
        { assert [s[0]] + t == s; }
        s + [x];
      }
    }
  }

  /** A list already in comparator order is left as it is. */
  lemma {:induction false} SortedIsFixpoint(cmp: Comparator, s: seq<string>)
    requires Antisymmetric(cmp) && Sorted(cmp, s)
    ensures Sort(cmp, s) == s
  {
    if |s| > 0 {
      var p, x := s[..|s| - 1], s[|s| - 1];
      SortedSplitsAtLast(cmp, s);
      SortedIsFixpoint(cmp, p);
      InsertAtEnd(cmp, x, p);
      LastSplit(s);
    }
  }

  lemma LastSplit(s: seq<string>)
    requires |s| > 0
    ensures s[..|s| - 1] + [s[|s| - 1]] == s
  {
  }

  /** Without its last element a sorted list is still sorted, and that element comes after all the others. */
  lemma SortedSplitsAtLast(cmp: Comparator, s: seq<string>)
    requires Sorted(cmp, s) && |s| > 0
    ensures Sorted(cmp, s[..|s| - 1])
    ensures forall i :: 0 <= i < |s| - 1 ==> cmp(s[i], s[|s| - 1]) <= 0
  {
    var p := s[..|s| - 1];
    forall i, j | 0 <= i < j < |p| ensures cmp(p[i], p[j]) <= 0 {
      assert p[i] == s[i] && p[j] == s[j];
    }
  }

  /** Sorting a sorted copy again changes nothing. */
  lemma SortIsIdempotent(cmp: Comparator, ok: string -> bool, s: seq<string>)
    requires Antisymmetric(cmp) && TransitiveOn(cmp, ok) && AllOk(ok, s)
    ensures Sort(cmp, Sort(cmp, s)) == Sort(cmp, s)
  {
    SortIsSorted(cmp, ok, s);
    SortedIsFixpoint(cmp, Sort(cmp, s));
  }

  /**
   * When the comparator ties only equal elements there is only one
   * ordering: two sorted lists with the same elements are equal.
   */
  lemma {:induction false} SortedPermutationsAgree(cmp: Comparator, ok: string -> bool, a: seq<string>, b: seq<string>)
    requires Antisymmetric(cmp) && TiesAreEqualOn(cmp, ok)
    requires Sorted(cmp, a) && Sorted(cmp, b) && multiset(a) == multiset(b) && AllOk(ok, a)
    ensures a == b
  {
    assert |a| == |multiset(a)| == |multiset(b)| == |b|;
    if |a| > 0 {
      SortedHeadsAgree(cmp, ok, a, b);
      TailsArePermutations(a, b);
      SortedTail(cmp, ok, a);
      SortedTail(cmp, ok, b);
      SortedPermutationsAgree(cmp, ok, a[1..], b[1..]);
      assert a == [a[0]] + a[1..] && b == [b[0]] + b[1..];
    }
  }

  lemma SortedHeadsAgree(cmp: Comparator, ok: string -> bool, a: seq<string>, b: seq<string>)
    requires Antisymmetric(cmp) && TiesAreEqualOn(cmp, ok)
    requires Sorted(cmp, a) && Sorted(cmp, b) && multiset(a) == multiset(b) && |a| > 0 && AllOk(ok, a)
    ensures |b| > 0 && a[0] == b[0] && AllOk(ok, b)
  {
    PermutationKeeps(ok, b, a);
    assert a[0] in multiset(b);
    var k :| 0 <= k < |b| && b[k] == a[0];
    assert b[0] in multiset(a);
    var m :| 0 <= m < |a| && a[m] == b[0];
    assert cmp(b[0], a[0]) <= 0 by {
      if k > 0 { assert cmp(b[0], b[k]) <= 0; }
    }
    assert cmp(a[0], b[0]) <= 0 by {
      if m > 0 { assert cmp(a[0], a[m]) <= 0; }
    }
    assert cmp(a[0], b[0]) == 0;
  }

  lemma TailsArePermutations(a: seq<string>, b: seq<string>)
    requires multiset(a) == multiset(b) && |a| > 0 && |b| > 0 && a[0] == b[0]
    ensures multiset(a[1..]) == multiset(b[1..])
  {
    assert a == [a[0]] + a[1..] && b == [b[0]] + b[1..];
    assert multiset(a) == multiset{a[0]} + multiset(a[1..]);
    assert multiset(b) == multiset{b[0]} + multiset(b[1..]);
    assert multiset(a[1..]) == multiset(a) - multiset{a[0]};
    assert multiset(b[1..]) == multiset(b) - multiset{b[0]};
  }

  /** What holds of every element of a list holds of every element of a permutation of it. */
  lemma PermutationKeeps(ok: string -> bool, a: seq<string>, b: seq<string>)
    requires multiset(a) == multiset(b) && AllOk(ok, b)
    ensures AllOk(ok, a)
  {
    forall i | 0 <= i < |a| ensures ok(a[i]) {
      assert a[i] in multiset(b);
      var m :| 0 <= m < |b| && b[m] == a[i];
    }
  }

  /**
   * For a consistent comparator that ties only equal elements, a list
   * equals the sorted copy of `initial` exactly when it is a reordering of
   * `initial` that is in comparator order.
   */
  lemma SortedCopyIff(cmp: Comparator, ok: string -> bool, shown: seq<string>, initial: seq<string>)
    requires Antisymmetric(cmp) && TransitiveOn(cmp, ok) && TiesAreEqualOn(cmp, ok) && AllOk(ok, initial)
    ensures shown == Sort(cmp, initial) <==> multiset(shown) == multiset(initial) && Sorted(cmp, shown)
  {
    SortIsSorted(cmp, ok, initial);
    if multiset(shown) == multiset(initial) && Sorted(cmp, shown) {
      PermutationKeeps(ok, shown, initial);
      SortedPermutationsAgree(cmp, ok, shown, Sort(cmp, initial));
    }
  }

  /**
   * Under such a comparator the sorted copy depends only on which elements
   * the list holds, not on the order they were in.
   */
  lemma SortIgnoresStartingOrder(cmp: Comparator, ok: string -> bool, a: seq<string>, b: seq<string>)
    requires Antisymmetric(cmp) && TransitiveOn(cmp, ok) && TiesAreEqualOn(cmp, ok)
    requires multiset(a) == multiset(b) && AllOk(ok, a)
    ensures Sort(cmp, a) == Sort(cmp, b)
  {
    PermutationKeeps(ok, b, a);
    SortedCopyIff(cmp, ok, Sort(cmp, a), b);
    SortedCopyIff(cmp, ok, Sort(cmp, a), a);
  }

  function Reverse(s: seq<string>): (r: seq<string>)
    ensures |r| == |s|
    ensures forall i :: 0 <= i < |s| ==> r[i] == s[|s| - 1 - i]
  {
    if |s| == 0 then [] else [s[|s| - 1]] + Reverse(s[..|s| - 1])
  }

  lemma {:induction false} ReverseIsPermutation(s: seq<string>)
    ensures multiset(Reverse(s)) == multiset(s)
  {
    if |s| > 0 {
      var p, x := s[..|s| - 1], s[|s| - 1];
      ReverseIsPermutation(p);
      assert Reverse(s) == [x] + Reverse(p);
      assert s == p + [x];
      assert multiset(s) == multiset(p) + multiset{x};
    }
  }

  /**
   * Sorting with the comparator that has its operands swapped gives the
   * sorted copy read backwards, when ties are equal elements.
   */
  lemma SwappedComparatorReverses(cmp: Comparator, swapped: Comparator, ok: string -> bool, s: seq<string>)
    requires Antisymmetric(cmp) && TransitiveOn(cmp, ok) && TiesAreEqualOn(cmp, ok) && AllOk(ok, s)
    requires forall a, b :: swapped(a, b) == cmp(b, a)
    ensures Sort(swapped, s) == Reverse(Sort(cmp, s))
  {
    var up := Sort(cmp, s);
    var down := Reverse(up);
    SortIsSorted(cmp, ok, s);
    ReverseIsPermutation(up);
    forall i, j | 0 <= i < j < |down| ensures swapped(down[i], down[j]) <= 0 {
      assert cmp(up[|up| - 1 - j], up[|up| - 1 - i]) <= 0;
    }
    assert Antisymmetric(swapped) by {
      forall a, b ensures swapped(a, b) == -swapped(b, a) {
        assert cmp(b, a) == -cmp(a, b);
      }
    }
    assert TransitiveOn(swapped, ok) by {
      forall a, b, c | ok(a) && ok(b) && ok(c) && swapped(a, b) <= 0 && swapped(b, c) <= 0
        ensures swapped(a, c) <= 0
      {
        assert cmp(c, b) <= 0 && cmp(b, a) <= 0;
      }
    }
    assert TiesAreEqualOn(swapped, ok) by {
      forall a, b | ok(a) && ok(b) && swapped(a, b) == 0 ensures a == b {
        assert cmp(b, a) == 0;
      }
    }
    SortedCopyIff(swapped, ok, down, s);
  }
}
