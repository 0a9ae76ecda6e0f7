/**
 * The ids of the catalogue's cart controls, as the inventory page object
 * writes them for each product: an id XPath and a `data-test` selector for
 * its "Add to cart" control and for its "Remove" control, and how each
 * string is built from the product's slug.
 */
module CatalogueControls {
  /** The prefix every "Add to cart" control's `data-test` value starts with. */
  const AddButtonPrefix: string := "add-to-cart-"

  /** The prefix every "Remove" control's `data-test` value starts with. */
  const RemoveButtonPrefix: string := "remove-"

  const DataTestOpen: string := "[data-test=\""
  const IdOpen: string := "//*[@id=\""
  const Close: string := "\"]"

  /** A CSS selector for the element whose `data-test` attribute is `value`. */
  function DataTestSelector(value: string): string {
    DataTestOpen + value + Close
  }

  /** An XPath for the element whose `id` is `value`. */
  function IdXPath(value: string): string {
    IdOpen + value + Close
  }

  // The control strings of each product, written as the page object writes
  // them. Each is a function of its own, so that a proof about one of them
  // does not carry the others along.
  function BackpackAddXPath(): string { "//*[@id=\"add-to-cart-sauce-labs-backpack\"]" }
  function BackpackRemoveXPath(): string { "//*[@id=\"remove-sauce-labs-backpack\"]" }
  function BackpackAddSelector(): string { "[data-test=\"add-to-cart-sauce-labs-backpack\"]" }
  function BackpackRemoveSelector(): string { "[data-test=\"remove-sauce-labs-backpack\"]" }

  function BikeLightAddXPath(): string { "//*[@id=\"add-to-cart-sauce-labs-bike-light\"]" }
  function BikeLightRemoveXPath(): string { "//*[@id=\"remove-sauce-labs-bike-light\"]" }
  function BikeLightAddSelector(): string { "[data-test=\"add-to-cart-sauce-labs-bike-light\"]" }
  function BikeLightRemoveSelector(): string { "[data-test=\"remove-sauce-labs-bike-light\"]" }

  function BoltTShirtAddXPath(): string { "//*[@id=\"add-to-cart-sauce-labs-bolt-t-shirt\"]" }
  function BoltTShirtRemoveXPath(): string { "//*[@id=\"remove-sauce-labs-bolt-t-shirt\"]" }
  function BoltTShirtAddSelector(): string { "[data-test=\"add-to-cart-sauce-labs-bolt-t-shirt\"]" }
  function BoltTShirtRemoveSelector(): string { "[data-test=\"remove-sauce-labs-bolt-t-shirt\"]" }

  function FleeceJacketAddXPath(): string { "//*[@id=\"add-to-cart-sauce-labs-fleece-jacket\"]" }
  function FleeceJacketRemoveXPath(): string { "//*[@id=\"remove-sauce-labs-fleece-jacket\"]" }
  function FleeceJacketAddSelector(): string { "[data-test=\"add-to-cart-sauce-labs-fleece-jacket\"]" }
  function FleeceJacketRemoveSelector(): string { "[data-test=\"remove-sauce-labs-fleece-jacket\"]" }

  function OnesieAddXPath(): string { "//*[@id=\"add-to-cart-sauce-labs-onesie\"]" }
  function OnesieRemoveXPath(): string { "//*[@id=\"remove-sauce-labs-onesie\"]" }
  function OnesieAddSelector(): string { "[data-test=\"add-to-cart-sauce-labs-onesie\"]" }
  function OnesieRemoveSelector(): string { "[data-test=\"remove-sauce-labs-onesie\"]" }

  function RedTShirtAddXPath(): string { "//*[@id=\"add-to-cart-test.allthethings()-t-shirt-(red)\"]" }
  function RedTShirtRemoveXPath(): string { "//*[@id=\"remove-test.allthethings()-t-shirt-(red)\"]" }
  function RedTShirtAddSelector(): string { "[data-test=\"add-to-cart-test.allthethings()-t-shirt-(red)\"]" }
  function RedTShirtRemoveSelector(): string { "[data-test=\"remove-test.allthethings()-t-shirt-(red)\"]" }

  // The four heads, written out as the control strings begin.
  const AddSelectorHead: string := "[data-test=\"add-to-cart-"
  const RemoveSelectorHead: string := "[data-test=\"remove-"
  const AddXPathHead: string := "//*[@id=\"add-to-cart-"
  const RemoveXPathHead: string := "//*[@id=\"remove-"

  /** `s` begins with the characters of `head`. */
  predicate StartsWith(s: string, head: string) {
    |head| <= |s| && forall i :: 0 <= i < |head| ==> s[i] == head[i]
  }

  /** The last `n` characters of `s` and of `t` are the same. */
  predicate EndsAlike(s: string, t: string, n: nat) {
    n <= |s| && n <= |t| && forall j :: |s| - n <= j < |s| ==> s[j] == t[j + |t| - |s|]
  }

  /** Positions `lo` to `hi` of `s` agree with `t` aligned at their ends. */
  predicate AlikeBetween(s: string, t: string, lo: int, hi: int) {
    0 <= lo <= hi <= |s| && |s| - |t| <= lo && forall j :: lo <= j < hi ==> s[j] == t[j + |t| - |s|]
  }

  /** Two adjacent agreeing stretches that reach the end make one common tail. */
  lemma JoinEndsAlike(s: string, t: string, n: nat, m: nat)
    requires m <= n <= |t| && AlikeBetween(s, t, |s| - n, |s| - m) && AlikeBetween(s, t, |s| - m, |s|)
    ensures EndsAlike(s, t, n)
  {
  }

  /** Whether four control strings are the add and remove selectors and XPaths of one slug. */
  predicate ShareSlug(addSelector: string, removeSelector: string, addXPath: string, removeXPath: string) {
    var slug := SlugIn(addSelector);
    && addSelector == DataTestSelector(AddButtonPrefix + slug)
    && removeSelector == DataTestSelector(RemoveButtonPrefix + slug)
    && addXPath == IdXPath(AddButtonPrefix + slug)
    && removeXPath == IdXPath(RemoveButtonPrefix + slug)
  }

  /**
   * An add selector that starts with its head and ends in `"]`, and three
   * control strings that start with their heads and end like it (the slug
   * and `"]`), are the four controls of one non-empty slug.
   */
  lemma ShareSlugFromShape(addSelector: string, removeSelector: string, addXPath: string, removeXPath: string)
    requires SelectorShape(addSelector)
    requires SameSlug(removeSelector, RemoveSelectorHead, addSelector)
    requires SameSlug(addXPath, AddXPathHead, addSelector)
    requires SameSlug(removeXPath, RemoveXPathHead, addSelector)
    ensures |SlugIn(addSelector)| > 0 && ShareSlug(addSelector, removeSelector, addXPath, removeXPath)
  {
    HeadsJoin();
    var a := addSelector;
    assert SameSlug(a, AddSelectorHead, a);
    Built(a, AddSelectorHead, DataTestOpen, AddButtonPrefix, a);
    Built(removeSelector, RemoveSelectorHead, DataTestOpen, RemoveButtonPrefix, a);
    Built(addXPath, AddXPathHead, IdOpen, AddButtonPrefix, a);
    Built(removeXPath, RemoveXPathHead, IdOpen, RemoveButtonPrefix, a);
  }

  /** `a` is an add selector: its head, at least one character, and `"]`. */
  predicate SelectorShape(a: string) {
    && StartsWith(a, AddSelectorHead) && |a| > |AddSelectorHead| + |Close|
    && a[|a| - 2] == '"' && a[|a| - 1] == ']'
  }

  /** `s` starts with `head` and then ends with what follows the add selector `a`'s head. */
  predicate SameSlug(s: string, head: string, a: string) {
    var n := |a| - |AddSelectorHead|;
    StartsWith(s, head) && n >= 0 && |s| == |head| + n && EndsAlike(s, a, n)
  }

  /** A string of the shape `head`, slug of `a`, `"]` is the selector or XPath of `prefix` and that slug. */
  lemma Built(s: string, head: string, open: string, prefix: string, a: string)
    requires SelectorShape(a) && head == open + prefix
    requires SameSlug(s, head, a)
    ensures s == open + (prefix + SlugIn(a)) + Close
  {
    var tail := SlugIn(a) + Close;
    assert a[|AddSelectorHead|..] == tail;
    StartsThenEnds(s, head, tail);
  }

  /** What `a` holds between `[data-test="add-to-cart-` and the closing `"]`. */
  function SlugIn(a: string): string {
    if |AddSelectorHead| + |Close| <= |a| then a[|AddSelectorHead|..|a| - |Close|] else ""
  }

  /** A string that starts with `head` and continues with `tail` to its end is their concatenation. */
  lemma StartsThenEnds(s: string, head: string, tail: string)
    requires StartsWith(s, head) && |s| == |head| + |tail|
    requires forall j :: |head| <= j < |s| ==> s[j] == tail[j - |head|]
    ensures s == head + tail
  {
    assert forall k :: 0 <= k < |s| ==> s[k] == (head + tail)[k];
  }

  /** Each head is the selector or XPath opening followed by the control's prefix. */
  lemma HeadsJoin()
    ensures AddSelectorHead == DataTestOpen + AddButtonPrefix
    ensures RemoveSelectorHead == DataTestOpen + RemoveButtonPrefix
    ensures AddXPathHead == IdOpen + AddButtonPrefix
    ensures RemoveXPathHead == IdOpen + RemoveButtonPrefix
  {
  }

  // Each product's four control strings are compared with the heads they
  // should start with, from the front, and with the end of its add selector
  // (the slug and `"]`), from the back; one comparison per lemma keeps each
  // proof small.

  lemma BackpackControls()
    ensures |SlugIn(BackpackAddSelector())| > 0
    ensures ShareSlug(BackpackAddSelector(), BackpackRemoveSelector(), BackpackAddXPath(), BackpackRemoveXPath())
  {
    BackpackSelectorHeads();
    BackpackXPathHeads();
    BackpackRemoveSelectorTail();
    BackpackAddXPathTail();
    BackpackRemoveXPathTail();
    ShareSlugFromShape(BackpackAddSelector(), BackpackRemoveSelector(), BackpackAddXPath(), BackpackRemoveXPath());
  }

  lemma BackpackSelectorHeads()
    ensures SelectorShape(BackpackAddSelector()) && StartsWith(BackpackRemoveSelector(), RemoveSelectorHead)
  {
  }

  lemma BackpackXPathHeads()
    ensures StartsWith(BackpackAddXPath(), AddXPathHead) && StartsWith(BackpackRemoveXPath(), RemoveXPathHead)
  {
  }

  lemma BackpackRemoveSelectorTail()
    ensures |BackpackRemoveSelector()| == |RemoveSelectorHead| + |BackpackAddSelector()| - |AddSelectorHead|
    ensures EndsAlike(BackpackRemoveSelector(), BackpackAddSelector(), |BackpackAddSelector()| - |AddSelectorHead|)
  {
  }

  lemma BackpackAddXPathTail()
    ensures |BackpackAddXPath()| == |AddXPathHead| + |BackpackAddSelector()| - |AddSelectorHead|
    ensures EndsAlike(BackpackAddXPath(), BackpackAddSelector(), |BackpackAddSelector()| - |AddSelectorHead|)
  {
  }

  lemma BackpackRemoveXPathTail()
    ensures |BackpackRemoveXPath()| == |RemoveXPathHead| + |BackpackAddSelector()| - |AddSelectorHead|
    ensures EndsAlike(BackpackRemoveXPath(), BackpackAddSelector(), |BackpackAddSelector()| - |AddSelectorHead|)
  {
  }

  lemma BikeLightControls()
    ensures |SlugIn(BikeLightAddSelector())| > 0
    ensures ShareSlug(BikeLightAddSelector(), BikeLightRemoveSelector(), BikeLightAddXPath(), BikeLightRemoveXPath())
  {
    BikeLightSelectorHeads();
    BikeLightXPathHeads();
    BikeLightRemoveSelectorTail();
    BikeLightAddXPathTail();
    BikeLightRemoveXPathTail();
    ShareSlugFromShape(BikeLightAddSelector(), BikeLightRemoveSelector(), BikeLightAddXPath(), BikeLightRemoveXPath());
  }

  lemma BikeLightSelectorHeads()
    ensures SelectorShape(BikeLightAddSelector()) && StartsWith(BikeLightRemoveSelector(), RemoveSelectorHead)
  {
  }

  lemma BikeLightXPathHeads()
    ensures StartsWith(BikeLightAddXPath(), AddXPathHead) && StartsWith(BikeLightRemoveXPath(), RemoveXPathHead)
  {
  }

  lemma BikeLightRemoveSelectorTail()
    ensures |BikeLightRemoveSelector()| == |RemoveSelectorHead| + |BikeLightAddSelector()| - |AddSelectorHead|
    ensures EndsAlike(BikeLightRemoveSelector(), BikeLightAddSelector(), |BikeLightAddSelector()| - |AddSelectorHead|)
  {
  }

  lemma BikeLightAddXPathTail()
    ensures |BikeLightAddXPath()| == |AddXPathHead| + |BikeLightAddSelector()| - |AddSelectorHead|
    ensures EndsAlike(BikeLightAddXPath(), BikeLightAddSelector(), |BikeLightAddSelector()| - |AddSelectorHead|)
  {
  }

  lemma BikeLightRemoveXPathTail()
    ensures |BikeLightRemoveXPath()| == |RemoveXPathHead| + |BikeLightAddSelector()| - |AddSelectorHead|
    ensures EndsAlike(BikeLightRemoveXPath(), BikeLightAddSelector(), |BikeLightAddSelector()| - |AddSelectorHead|)
  {
  }

  lemma BoltTShirtControls()
    ensures |SlugIn(BoltTShirtAddSelector())| > 0
    ensures ShareSlug(BoltTShirtAddSelector(), BoltTShirtRemoveSelector(), BoltTShirtAddXPath(), BoltTShirtRemoveXPath())
  {
    BoltTShirtSelectorHeads();
    BoltTShirtXPathHeads();
    BoltTShirtRemoveSelectorTail();
    BoltTShirtAddXPathTail();
    BoltTShirtRemoveXPathTail();
    ShareSlugFromShape(BoltTShirtAddSelector(), BoltTShirtRemoveSelector(), BoltTShirtAddXPath(), BoltTShirtRemoveXPath());
  }

  lemma BoltTShirtSelectorHeads()
    ensures SelectorShape(BoltTShirtAddSelector()) && StartsWith(BoltTShirtRemoveSelector(), RemoveSelectorHead)
  {
  }

  lemma BoltTShirtXPathHeads()
    ensures StartsWith(BoltTShirtAddXPath(), AddXPathHead) && StartsWith(BoltTShirtRemoveXPath(), RemoveXPathHead)
  {
  }

  lemma BoltTShirtRemoveSelectorTail()
    ensures |BoltTShirtRemoveSelector()| == |RemoveSelectorHead| + |BoltTShirtAddSelector()| - |AddSelectorHead|
    ensures EndsAlike(BoltTShirtRemoveSelector(), BoltTShirtAddSelector(), |BoltTShirtAddSelector()| - |AddSelectorHead|)
  {
  }

  lemma BoltTShirtAddXPathTail()
    ensures |BoltTShirtAddXPath()| == |AddXPathHead| + |BoltTShirtAddSelector()| - |AddSelectorHead|
    ensures EndsAlike(BoltTShirtAddXPath(), BoltTShirtAddSelector(), |BoltTShirtAddSelector()| - |AddSelectorHead|)
  {
  }

  lemma BoltTShirtRemoveXPathTail()
    ensures |BoltTShirtRemoveXPath()| == |RemoveXPathHead| + |BoltTShirtAddSelector()| - |AddSelectorHead|
    ensures EndsAlike(BoltTShirtRemoveXPath(), BoltTShirtAddSelector(), |BoltTShirtAddSelector()| - |AddSelectorHead|)
  {
  }

  lemma FleeceJacketControls()
    ensures |SlugIn(FleeceJacketAddSelector())| > 0
    ensures ShareSlug(FleeceJacketAddSelector(), FleeceJacketRemoveSelector(), FleeceJacketAddXPath(), FleeceJacketRemoveXPath())
  {
    FleeceJacketSelectorHeads();
    FleeceJacketXPathHeads();
    FleeceJacketRemoveSelectorTail();
    FleeceJacketAddXPathTail();
    FleeceJacketRemoveXPathTail();
    ShareSlugFromShape(FleeceJacketAddSelector(), FleeceJacketRemoveSelector(), FleeceJacketAddXPath(), FleeceJacketRemoveXPath());
  }

  lemma FleeceJacketSelectorHeads()
    ensures SelectorShape(FleeceJacketAddSelector()) && StartsWith(FleeceJacketRemoveSelector(), RemoveSelectorHead)
  {
  }

  lemma FleeceJacketXPathHeads()
    ensures StartsWith(FleeceJacketAddXPath(), AddXPathHead) && StartsWith(FleeceJacketRemoveXPath(), RemoveXPathHead)
  {
  }

  lemma FleeceJacketRemoveSelectorTail()
    ensures |FleeceJacketRemoveSelector()| == |RemoveSelectorHead| + |FleeceJacketAddSelector()| - |AddSelectorHead|
    ensures EndsAlike(FleeceJacketRemoveSelector(), FleeceJacketAddSelector(), |FleeceJacketAddSelector()| - |AddSelectorHead|)
  {
  }

  lemma FleeceJacketAddXPathTail()
    ensures |FleeceJacketAddXPath()| == |AddXPathHead| + |FleeceJacketAddSelector()| - |AddSelectorHead|
    ensures EndsAlike(FleeceJacketAddXPath(), FleeceJacketAddSelector(), |FleeceJacketAddSelector()| - |AddSelectorHead|)
  {
  }

  lemma FleeceJacketRemoveXPathTail()
    ensures |FleeceJacketRemoveXPath()| == |RemoveXPathHead| + |FleeceJacketAddSelector()| - |AddSelectorHead|
    ensures EndsAlike(FleeceJacketRemoveXPath(), FleeceJacketAddSelector(), |FleeceJacketAddSelector()| - |AddSelectorHead|)
  {
  }

  lemma OnesieControls()
    ensures |SlugIn(OnesieAddSelector())| > 0
    ensures ShareSlug(OnesieAddSelector(), OnesieRemoveSelector(), OnesieAddXPath(), OnesieRemoveXPath())
  {
    OnesieSelectorHeads();
    OnesieXPathHeads();
    OnesieRemoveSelectorTail();
    OnesieAddXPathTail();
    OnesieRemoveXPathTail();
    ShareSlugFromShape(OnesieAddSelector(), OnesieRemoveSelector(), OnesieAddXPath(), OnesieRemoveXPath());
  }

  lemma OnesieSelectorHeads()
    ensures SelectorShape(OnesieAddSelector()) && StartsWith(OnesieRemoveSelector(), RemoveSelectorHead)
  {
  }

  lemma OnesieXPathHeads()
    ensures StartsWith(OnesieAddXPath(), AddXPathHead) && StartsWith(OnesieRemoveXPath(), RemoveXPathHead)
  {
  }

  lemma OnesieRemoveSelectorTail()
    ensures |OnesieRemoveSelector()| == |RemoveSelectorHead| + |OnesieAddSelector()| - |AddSelectorHead|
    ensures EndsAlike(OnesieRemoveSelector(), OnesieAddSelector(), |OnesieAddSelector()| - |AddSelectorHead|)
  {
  }

  lemma OnesieAddXPathTail()
    ensures |OnesieAddXPath()| == |AddXPathHead| + |OnesieAddSelector()| - |AddSelectorHead|
    ensures EndsAlike(OnesieAddXPath(), OnesieAddSelector(), |OnesieAddSelector()| - |AddSelectorHead|)
  {
  }

  lemma OnesieRemoveXPathTail()
    ensures |OnesieRemoveXPath()| == |RemoveXPathHead| + |OnesieAddSelector()| - |AddSelectorHead|
    ensures EndsAlike(OnesieRemoveXPath(), OnesieAddSelector(), |OnesieAddSelector()| - |AddSelectorHead|)
  {
  }

  lemma RedTShirtControls()
    ensures |SlugIn(RedTShirtAddSelector())| > 0
    ensures ShareSlug(RedTShirtAddSelector(), RedTShirtRemoveSelector(), RedTShirtAddXPath(), RedTShirtRemoveXPath())
  {
    RedTShirtSelectorHeads();
    RedTShirtXPathHeads();
    RedTShirtRemoveSelectorTail();
    RedTShirtAddXPathTail();
    RedTShirtRemoveXPathTail();
    ShareSlugFromShape(RedTShirtAddSelector(), RedTShirtRemoveSelector(), RedTShirtAddXPath(), RedTShirtRemoveXPath());
  }

  lemma RedTShirtSelectorHeads()
    ensures SelectorShape(RedTShirtAddSelector()) && StartsWith(RedTShirtRemoveSelector(), RemoveSelectorHead)
  {
  }

  lemma RedTShirtXPathHeads()
    ensures StartsWith(RedTShirtAddXPath(), AddXPathHead) && StartsWith(RedTShirtRemoveXPath(), RemoveXPathHead)
  {
  }

  lemma RedTShirtRemoveSelectorTail()
    ensures |RedTShirtRemoveSelector()| == |RemoveSelectorHead| + |RedTShirtAddSelector()| - |AddSelectorHead|
    ensures EndsAlike(RedTShirtRemoveSelector(), RedTShirtAddSelector(), |RedTShirtAddSelector()| - |AddSelectorHead|)
  {
    RedTShirtRemoveSelectorSlugStart();
    RedTShirtRemoveSelectorSlugEnd();
    JoinEndsAlike(RedTShirtRemoveSelector(), RedTShirtAddSelector(), |RedTShirtAddSelector()| - |AddSelectorHead|, 20);
  }

  lemma RedTShirtRemoveSelectorSlugStart()
    ensures |RedTShirtRemoveSelector()| == |RemoveSelectorHead| + |RedTShirtAddSelector()| - |AddSelectorHead|
    ensures AlikeBetween(RedTShirtRemoveSelector(), RedTShirtAddSelector(), |RedTShirtRemoveSelector()| - (|RedTShirtAddSelector()| - |AddSelectorHead|), |RedTShirtRemoveSelector()| - 20)
  {
  }

  lemma RedTShirtRemoveSelectorSlugEnd()
    ensures AlikeBetween(RedTShirtRemoveSelector(), RedTShirtAddSelector(), |RedTShirtRemoveSelector()| - 20, |RedTShirtRemoveSelector()|)
  {
  }

  lemma RedTShirtAddXPathTail()
    ensures |RedTShirtAddXPath()| == |AddXPathHead| + |RedTShirtAddSelector()| - |AddSelectorHead|
    ensures EndsAlike(RedTShirtAddXPath(), RedTShirtAddSelector(), |RedTShirtAddSelector()| - |AddSelectorHead|)
  {
    RedTShirtAddXPathSlugStart();
    RedTShirtAddXPathSlugEnd();
    JoinEndsAlike(RedTShirtAddXPath(), RedTShirtAddSelector(), |RedTShirtAddSelector()| - |AddSelectorHead|, 20);
  }

  lemma RedTShirtAddXPathSlugStart()
    ensures |RedTShirtAddXPath()| == |AddXPathHead| + |RedTShirtAddSelector()| - |AddSelectorHead|
    ensures AlikeBetween(RedTShirtAddXPath(), RedTShirtAddSelector(), |RedTShirtAddXPath()| - (|RedTShirtAddSelector()| - |AddSelectorHead|), |RedTShirtAddXPath()| - 20)
  {
  }

  lemma RedTShirtAddXPathSlugEnd()
    ensures AlikeBetween(RedTShirtAddXPath(), RedTShirtAddSelector(), |RedTShirtAddXPath()| - 20, |RedTShirtAddXPath()|)
  {
  }

  lemma RedTShirtRemoveXPathTail()
    ensures |RedTShirtRemoveXPath()| == |RemoveXPathHead| + |RedTShirtAddSelector()| - |AddSelectorHead|
    ensures EndsAlike(RedTShirtRemoveXPath(), RedTShirtAddSelector(), |RedTShirtAddSelector()| - |AddSelectorHead|)
  {
    RedTShirtRemoveXPathSlugStart();
    RedTShirtRemoveXPathSlugEnd();
    JoinEndsAlike(RedTShirtRemoveXPath(), RedTShirtAddSelector(), |RedTShirtAddSelector()| - |AddSelectorHead|, 20);
  }

  lemma RedTShirtRemoveXPathSlugStart()
    ensures |RedTShirtRemoveXPath()| == |RemoveXPathHead| + |RedTShirtAddSelector()| - |AddSelectorHead|
    ensures AlikeBetween(RedTShirtRemoveXPath(), RedTShirtAddSelector(), |RedTShirtRemoveXPath()| - (|RedTShirtAddSelector()| - |AddSelectorHead|), |RedTShirtRemoveXPath()| - 20)
  {
  }

  lemma RedTShirtRemoveXPathSlugEnd()
    ensures AlikeBetween(RedTShirtRemoveXPath(), RedTShirtAddSelector(), |RedTShirtRemoveXPath()| - 20, |RedTShirtRemoveXPath()|)
  {
  }
}
