/**
 * The inventory sorting test: from the product names and prices first shown,
 * it computes the four orders the storefront must show for its four sort
 * options (names ascending and descending, prices ascending and descending)
 * with `Array.prototype.sort` and a comparator, and compares each with what
 * the page shows next, together with the label of the active option.
 */
module InventorySorting {
  import opened Wrappers
  import opened JsNumbers
  import opened InventoryPage
  import opened ArraySort

  /** Ordinal (code point by code point) order on strings; a proper prefix comes first. */
  predicate StrLe(a: string, b: string)
    decreases |a|
  {
    |a| == 0 || (|b| > 0 && (a[0] < b[0] || (a[0] == b[0] && StrLe(a[1..], b[1..]))))
  }

  lemma {:induction false} StrLeTotal(a: string, b: string)
    ensures StrLe(a, b) || StrLe(b, a)
    decreases |a|
  {
    if |a| > 0 && |b| > 0 && a[0] == b[0] {
      StrLeTotal(a[1..], b[1..]);
    }
  }

  lemma {:induction false} StrLeAntisymmetric(a: string, b: string)
    requires StrLe(a, b) && StrLe(b, a)
    ensures a == b
    decreases |a|
  {
    if |a| > 0 {
      StrLeAntisymmetric(a[1..], b[1..]);
      assert a == [a[0]] + a[1..] && b == [b[0]] + b[1..];
    }
  }

  lemma {:induction false} StrLeTransitive(a: string, b: string, c: string)
    requires StrLe(a, b) && StrLe(b, c)
    ensures StrLe(a, c)
    decreases |a|
  {
    if |a| > 0 && a[0] == b[0] && b[0] == c[0] {
      StrLeTransitive(a[1..], b[1..], c[1..]);
    }
  }

  lemma StrLeBoth(a: string, b: string)
    ensures StrLe(a, b) && StrLe(b, a) ==> a == b
  {
    if StrLe(a, b) && StrLe(b, a) {
      StrLeAntisymmetric(a, b);
    }
  }

  lemma {:induction false} StrLeReflexive(a: string)
    ensures StrLe(a, a)
    decreases |a|
  {
    if |a| > 0 {
      StrLeReflexive(a[1..]);
    }
  }

  /**
   * `a.localeCompare(b)`, read as ordinal comparison: zero exactly on equal
   * strings, negative exactly when `a` comes first, positive exactly when
   * `b` comes first.
   */
  function LocaleCompare(a: string, b: string): (r: int)
    ensures r == 0 <==> a == b
    ensures r < 0 <==> a != b && StrLe(a, b)
    ensures r > 0 <==> a != b && StrLe(b, a)
    ensures r <= 0 <==> StrLe(a, b)
  {
    StrLeTotal(a, b);
    StrLeReflexive(a);
    StrLeBoth(a, b);
    if a == b then 0 else if StrLe(a, b) then -1 else 1
  }

  /**
   * `priceA - priceB` on the prices' amounts. When either price does not
   * read as an amount the difference is NaN, which `sort` treats as 0.
   */
  function PriceDifference(a: string, b: string): (r: int)
    ensures PriceCents(a).Some? && PriceCents(b).Some? ==>
      (r < 0 <==> PriceCents(a).value < PriceCents(b).value) && (r == 0 <==> PriceCents(a).value == PriceCents(b).value)
    ensures PriceCents(a).None? || PriceCents(b).None? ==> r == 0
    ensures CanonicalPrice(a) && CanonicalPrice(b) ==> (r == 0 <==> a == b)
  {
    if PriceCents(a).Some? && PriceCents(b).Some? then PriceCents(a).value - PriceCents(b).value else 0
  }

  /**
   * The comparator the test passes to `sort` for each option: A-Z and Z-A
   * order names ordinally one way or the other, low-high and high-low order
   * prices by amount one way or the other.
   */
  function Compare(o: SortOption, a: string, b: string): (r: int)
    ensures o == Az ==> (r <= 0 <==> StrLe(a, b))
    ensures o == Za ==> (r <= 0 <==> StrLe(b, a))
    ensures IsNameOption(o) ==> (r == 0 <==> a == b)
    ensures o == Lohi && PriceCents(a).Some? && PriceCents(b).Some? ==> (r <= 0 <==> PriceCents(a).value <= PriceCents(b).value)
    ensures o == Hilo && PriceCents(a).Some? && PriceCents(b).Some? ==> (r <= 0 <==> PriceCents(b).value <= PriceCents(a).value)
  {
    match o
    case Az => LocaleCompare(a, b)
    case Za => LocaleCompare(b, a)
    case Lohi => PriceDifference(a, b)
    case Hilo => PriceDifference(b, a)
  }

  predicate IsNameOption(o: SortOption) {
    o == Az || o == Za
  }

  /** Every comparator is antisymmetric: swapping the operands negates the result. */
  lemma CompareFlips(o: SortOption, a: string, b: string)
    ensures Compare(o, a, b) == -Compare(o, b, a)
  {
    if IsNameOption(o) && a != b {
      StrLeTotal(a, b);
      if StrLe(a, b) && StrLe(b, a) {
        StrLeAntisymmetric(a, b);
      }
    }
  }

  /** An element the comparator for `o` can order consistently: any name, or a price that reads as an amount. */
  predicate Comparable(o: SortOption, a: string) {
    IsNameOption(o) || PriceCents(a).Some?
  }

  /** An element the comparator for `o` ties only with itself: any name, or a price in canonical `$d.dd` form. */
  predicate Strict(o: SortOption, a: string) {
    IsNameOption(o) || CanonicalPrice(a)
  }

  lemma CompareTransitive(o: SortOption, a: string, b: string, c: string)
    requires Comparable(o, a) && Comparable(o, b) && Comparable(o, c)
    requires Compare(o, a, b) <= 0 && Compare(o, b, c) <= 0
    ensures Compare(o, a, c) <= 0
  {
    if o == Az {
      if a != b && b != c { StrLeTransitive(a, b, c); }
    } else if o == Za {
      if a != b && b != c { StrLeTransitive(c, b, a); }
    }
  }

  /** Ties under a strict comparator are equal strings. */
  lemma CompareTiesAreEqual(o: SortOption, a: string, b: string)
    requires Strict(o, a) && Strict(o, b) && Compare(o, a, b) == 0
    ensures a == b
  {
  }

  /** The comparator the test passes to `sort` for `o`, as a function value. */
  function ComparatorFor(o: SortOption): Comparator {
    (a, b) => Compare(o, a, b)
  }

  function ComparableFor(o: SortOption): string -> bool {
    a => Comparable(o, a)
  }

  function StrictFor(o: SortOption): string -> bool {
    a => Strict(o, a)
  }

  /** Every option's comparator is antisymmetric, and ties only equal strict elements. */
  lemma ComparatorIsAntisymmetric(o: SortOption)
    ensures Antisymmetric(ComparatorFor(o))
    ensures TiesAreEqualOn(ComparatorFor(o), StrictFor(o))
  {
    forall a, b ensures ComparatorFor(o)(a, b) == -ComparatorFor(o)(b, a) {
      CompareFlips(o, a, b);
    }
    forall a, b | Strict(o, a) && Strict(o, b) && ComparatorFor(o)(a, b) == 0 ensures a == b {
      CompareTiesAreEqual(o, a, b);
    }
  }

  /** Every option's comparator orders comparable elements, and so strict ones, consistently. */
  lemma ComparatorIsTransitive(o: SortOption)
    ensures TransitiveOn(ComparatorFor(o), ComparableFor(o))
    ensures TransitiveOn(ComparatorFor(o), StrictFor(o))
  {
    forall a, b, c | Comparable(o, a) && Comparable(o, b) && Comparable(o, c) && Compare(o, a, b) <= 0 && Compare(o, b, c) <= 0
      ensures Compare(o, a, c) <= 0
    {
      CompareTransitive(o, a, b, c);
    }
    forall a | Strict(o, a) ensures Comparable(o, a) {
    }
  }

  /** The opposite option's comparator is this option's with its operands swapped. */
  lemma OppositeSwapsOperands(o: SortOption)
    ensures forall a, b :: ComparatorFor(Opposite(o))(a, b) == ComparatorFor(o)(b, a)
  {
  }

  /**
   * For comparable elements the sorted copy is a reordering in the option's
   * order, and sorting it again changes nothing.
   */
  lemma SortedCopyIsOrdered(o: SortOption, s: seq<string>)
    requires forall i :: 0 <= i < |s| ==> Comparable(o, s[i])
    ensures multiset(Sort(ComparatorFor(o), s)) == multiset(s)
    ensures forall i, j :: 0 <= i < j < |s| ==> Compare(o, Sort(ComparatorFor(o), s)[i], Sort(ComparatorFor(o), s)[j]) <= 0
    ensures Sort(ComparatorFor(o), Sort(ComparatorFor(o), s)) == Sort(ComparatorFor(o), s)
  {
    ComparatorIsAntisymmetric(o);
    ComparatorIsTransitive(o);
    assert AllOk(ComparableFor(o), s);
    SortIsSorted(ComparatorFor(o), ComparableFor(o), s);
    SortIsIdempotent(ComparatorFor(o), ComparableFor(o), s);
  }

  /**
   * Under a strict comparator the shown list equals the expected one exactly
   * when it is a reordering of the initial list that is in the option's
   * order, whatever order the initial list was in.
   */
  lemma ExpectedOrderIff(o: SortOption, shown: seq<string>, initial: seq<string>)
    requires forall i :: 0 <= i < |initial| ==> Strict(o, initial[i])
    ensures shown == Sort(ComparatorFor(o), initial) <==>
      multiset(shown) == multiset(initial) && Sorted(ComparatorFor(o), shown)
    ensures multiset(shown) == multiset(initial) ==> Sort(ComparatorFor(o), shown) == Sort(ComparatorFor(o), initial)
  {
    ComparatorIsAntisymmetric(o);
    ComparatorIsTransitive(o);
    assert AllOk(StrictFor(o), initial);
    SortedCopyIff(ComparatorFor(o), StrictFor(o), shown, initial);
    if multiset(shown) == multiset(initial) {
      SortIgnoresStartingOrder(ComparatorFor(o), StrictFor(o), initial, shown);
    }
  }

  /** The option that orders the other way round. */
  function Opposite(o: SortOption): SortOption {
    match o
    case Az => Za
    case Za => Az
    case Lohi => Hilo
    case Hilo => Lohi
  }

  /**
   * The descending expectations are the ascending ones read backwards
   * (Z-A against A-Z for names, high-low against low-high for canonical
   * prices); ties are equal strings, so reversing them changes nothing.
   */
  lemma DescendingIsReversedAscending(o: SortOption, s: seq<string>)
    requires forall i :: 0 <= i < |s| ==> Strict(o, s[i])
    ensures Sort(ComparatorFor(Opposite(o)), s) == Reverse(Sort(ComparatorFor(o), s))
  {
    ComparatorIsAntisymmetric(o);
    ComparatorIsTransitive(o);
    OppositeSwapsOperands(o);
    assert AllOk(StrictFor(o), s);
    SwappedComparatorReverses(ComparatorFor(o), ComparatorFor(Opposite(o)), StrictFor(o), s);
  }

  /** The text the active-option label shows for each option. */
  function ActiveOptionLabel(o: SortOption): (r: string)
    ensures IsNameOption(o) ==> |r| >= 4 && r[..4] == "Name"
    ensures !IsNameOption(o) ==> |r| >= 5 && r[..5] == "Price"
  {
    match o
    case Az => "Name (A to Z)"
    case Za => "Name (Z to A)"
    case Lohi => "Price (low to high)"
    case Hilo => "Price (high to low)"
  }

  lemma ActiveOptionLabelsDiffer(o: SortOption, p: SortOption)
    ensures ActiveOptionLabel(o) == ActiveOptionLabel(p) <==> o == p
  {
    if o != p {
      var a, b := ActiveOptionLabel(o), ActiveOptionLabel(p);
      assert a[0] != b[0] || a[6] != b[6] || a[7] != b[7];
    }
  }

  /** The options in the order the test selects them. */
  const TestOrder: seq<SortOption> := [Az, Za, Lohi, Hilo]

  /**
   * The order the test expects after selecting `o`: always a sorted copy of
   * the names or prices shown before any option was selected.
   */
  function ExpectedOrder(o: SortOption, initialNames: seq<string>, initialPrices: seq<string>): (r: seq<string>)
    ensures multiset(r) == multiset(if IsNameOption(o) then initialNames else initialPrices)
    ensures IsNameOption(o) ==> Sorted(ComparatorFor(o), r)
    ensures (forall i :: 0 <= i < |initialPrices| ==> PriceCents(initialPrices[i]).Some?) ==> Sorted(ComparatorFor(o), r)
  {
    var initial := if IsNameOption(o) then initialNames else initialPrices;
    SortedWhenComparable(o, initial);
    Sort(ComparatorFor(o), initial)
  }

  lemma SortedWhenComparable(o: SortOption, s: seq<string>)
    ensures (forall i :: 0 <= i < |s| ==> Comparable(o, s[i])) ==> Sorted(ComparatorFor(o), Sort(ComparatorFor(o), s))
  {
    if forall i :: 0 <= i < |s| ==> Comparable(o, s[i]) {
      ComparatorIsAntisymmetric(o);
      ComparatorIsTransitive(o);
      assert AllOk(ComparableFor(o), s);
      SortIsSorted(ComparatorFor(o), ComparableFor(o), s);
    }
  }

  /** What the page shows after one option is selected: the names or prices in page order, and the active label. */
  datatype StepObservation = StepObservation(shown: seq<string>, activeLabel: string)

  /** A step passes when the whole shown list equals the expected one and the label names the option. */
  predicate StepPasses(o: SortOption, obs: StepObservation, initialNames: seq<string>, initialPrices: seq<string>) {
    obs.shown == ExpectedOrder(o, initialNames, initialPrices) && obs.activeLabel == ActiveOptionLabel(o)
  }

  /** "Verify all sorting options work correctly": all four steps, in order, pass. */
  predicate SortingTestPasses(initialNames: seq<string>, initialPrices: seq<string>, steps: seq<StepObservation>) {
    |steps| == |TestOrder| &&
    forall i :: 0 <= i < |TestOrder| ==> StepPasses(TestOrder[i], steps[i], initialNames, initialPrices)
  }

  /** The shown list is a reordering of the initial list in the option's order, under the option's label. */
  predicate ShowsSortedCopy(o: SortOption, obs: StepObservation, initialNames: seq<string>, initialPrices: seq<string>) {
    var initial := if IsNameOption(o) then initialNames else initialPrices;
    multiset(obs.shown) == multiset(initial) && Sorted(ComparatorFor(o), obs.shown) && obs.activeLabel == ActiveOptionLabel(o)
  }

  /**
   * With canonical prices, the test passes exactly when each step shows a
   * reordering of the initial list that is in that option's order, under
   * the option's label.
   */
  lemma SortingTestPassesIff(initialNames: seq<string>, initialPrices: seq<string>, steps: seq<StepObservation>)
    requires forall i :: 0 <= i < |initialPrices| ==> CanonicalPrice(initialPrices[i])
    requires |steps| == |TestOrder|
    ensures SortingTestPasses(initialNames, initialPrices, steps) <==>
      forall i :: 0 <= i < |TestOrder| ==> ShowsSortedCopy(TestOrder[i], steps[i], initialNames, initialPrices)
  {
    forall i | 0 <= i < |TestOrder|
      ensures StepPasses(TestOrder[i], steps[i], initialNames, initialPrices) <==>
        ShowsSortedCopy(TestOrder[i], steps[i], initialNames, initialPrices)
    {
      var o := TestOrder[i];
      ExpectedOrderIff(o, steps[i].shown, if IsNameOption(o) then initialNames else initialPrices);
    }
  }
}
