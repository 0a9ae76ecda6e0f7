/**
 * The product display test: the product card at position `i` must show the
 * name, description and price of catalogue entry `i` exactly, and an image
 * whose address contains the entry's image key.
 */
module InventoryDisplay {
  import opened Wrappers
  import opened Seqs
  import opened InventoryPage
  import opened InventoryCatalogue

  /**
   * What one product card shows: the text of its name, description and
   * price labels and the `src` of its image; `None` where the element or
   * attribute is missing.
   */
  datatype RenderedItem = RenderedItem(name: Option<string>, description: Option<string>, price: Option<string>, imageSrc: Option<string>)

  /** Whether a card shows a catalogue entry: three texts equal, the image key contained in the image address. */
  predicate ItemMatches(actual: RenderedItem, expected: ItemDetail) {
    && actual.name == Some(expected.name)
    && actual.description == Some(expected.description)
    && actual.price == Some(expected.price)
    && actual.imageSrc.Some? && IsSubstring(expected.expectedImageSrc, actual.imageSrc.value)
  }

  /**
   * The test passes when every catalogue entry has a card at its own
   * position showing it; cards after the last entry are not looked at.
   */
  predicate DisplayTestPasses(rendered: seq<RenderedItem>, catalogue: seq<ItemDetail>) {
    |catalogue| <= |rendered| && forall i :: 0 <= i < |catalogue| ==> ItemMatches(rendered[i], catalogue[i])
  }

  /**
   * The test's loop over the catalogue: the card at each entry's position
   * is read and compared, and the first entry whose card is missing or
   * differs ends the test; `failedAt` is that entry's position.
   */
  method VerifyProducts(rendered: seq<RenderedItem>, catalogue: seq<ItemDetail>) returns (failedAt: Option<nat>)
    ensures failedAt.None? <==> DisplayTestPasses(rendered, catalogue)
    ensures failedAt.Some? ==> failedAt.value < |catalogue| && failedAt.value <= |rendered|
    ensures failedAt.Some? ==> failedAt.value == |rendered| || !ItemMatches(rendered[failedAt.value], catalogue[failedAt.value])
    ensures failedAt.Some? ==> forall k :: 0 <= k < failedAt.value ==> ItemMatches(rendered[k], catalogue[k])
  {
    for i := 0 to |catalogue|
      invariant i <= |rendered|
      invariant forall k :: 0 <= k < i ==> ItemMatches(rendered[k], catalogue[k])
    {
      if i == |rendered| || !ItemMatches(rendered[i], catalogue[i]) {
        return Some(i);
      }
    }
    return None;
  }

  /** The card the storefront renders for an entry, its image served from `prefix + key + suffix`. */
  function Render(d: ItemDetail, prefix: string, suffix: string): RenderedItem {
    RenderedItem(Some(d.name), Some(d.description), Some(d.price), Some(prefix + d.expectedImageSrc + suffix))
  }

  function RenderAll(catalogue: seq<ItemDetail>, prefix: string, suffix: string): (r: seq<RenderedItem>)
    ensures |r| == |catalogue|
    ensures forall i :: 0 <= i < |r| ==> r[i] == Render(catalogue[i], prefix, suffix)
  {
    seq(|catalogue|, i requires 0 <= i < |catalogue| => Render(catalogue[i], prefix, suffix))
  }

  /**
   * The catalogue rendered in order passes, whatever path and file suffix
   * surround each image key: the image is matched by containment, not
   * equality.
   */
  lemma RenderedCataloguePasses(catalogue: seq<ItemDetail>, prefix: string, suffix: string)
    ensures DisplayTestPasses(RenderAll(catalogue, prefix, suffix), catalogue)
  {
    forall i | 0 <= i < |catalogue| ensures ItemMatches(RenderAll(catalogue, prefix, suffix)[i], catalogue[i]) {
      SubstringOfConcat(prefix, catalogue[i].expectedImageSrc, suffix);
    }
  }

  /**
   * The image check tells the entries apart: a card whose image address is
   * another entry's image key fails for this entry, however right its texts.
   */
  lemma SwappedImageFails(actual: RenderedItem, i: nat, j: nat)
    requires i < |ItemDetails| && j < |ItemDetails| && i != j
    requires actual.imageSrc == Some(ItemDetails[j].expectedImageSrc)
    ensures !ItemMatches(actual, ItemDetails[i])
  {
    CatalogueColumns();
    ImageKeysDiffer(i, j);
  }

  /**
   * The comparison is by position: showing two entries with different
   * names in each other's place fails the test.
   */
  lemma PositionsMatter(rendered: seq<RenderedItem>, catalogue: seq<ItemDetail>, i: nat, j: nat)
    requires i < j < |catalogue| <= |rendered|
    requires catalogue[i].name != catalogue[j].name
    requires rendered[i].name == Some(catalogue[j].name)
    ensures !DisplayTestPasses(rendered, catalogue)
  {
    assert !ItemMatches(rendered[i], catalogue[i]);
  }

  /** A page with fewer cards than catalogue entries fails. */
  lemma MissingCardsFail(rendered: seq<RenderedItem>, catalogue: seq<ItemDetail>)
    requires |rendered| < |catalogue|
    ensures !DisplayTestPasses(rendered, catalogue)
  {
  }
}
