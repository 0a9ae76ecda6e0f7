/**
 * The six-entry product catalogue the inventory page object holds, and what
 * the tests can rely on about it: distinct names, controls named after one
 * slug per entry, canonical prices, names that select only their own card,
 * and image keys that pick out only their own entry.
 */
module InventoryCatalogue {
  import opened Wrappers
  import opened Seqs
  import opened JsNumbers
  import opened CartModel
  import opened CatalogueControls
  import opened InventoryPage

  /** The catalogue, in the order the storefront lists it. */
  const ItemDetails: seq<ItemDetail> := [Backpack, BikeLight, BoltTShirt, FleeceJacket, Onesie, RedTShirt]

  const Backpack: ItemDetail := ItemDetail(
    name := BackpackName,
    description := "carry.allTheThings() with the sleek, streamlined Sly Pack that melds uncompromising style with unequaled laptop and tablet protection.",
    price := BackpackPrice,
    addToCartXPath := BackpackAddXPath(),
    removeFromCartXPath := BackpackRemoveXPath(),
    addToCartSelector := BackpackAddSelector(),
    removeFromCartSelector := BackpackRemoveSelector(),
    expectedImageSrc := BackpackImageKey)

  const BikeLight: ItemDetail := ItemDetail(
    name := BikeLightName,
    description := "A red light isn't the desired state in testing but it sure helps when riding your bike at night. Water-resistant with 3 lighting modes, 1 AAA battery included.",
    price := BikeLightPrice,
    addToCartXPath := BikeLightAddXPath(),
    removeFromCartXPath := BikeLightRemoveXPath(),
    addToCartSelector := BikeLightAddSelector(),
    removeFromCartSelector := BikeLightRemoveSelector(),
    expectedImageSrc := BikeLightImageKey)

  const BoltTShirt: ItemDetail := ItemDetail(
    name := BoltTShirtName,
    description := "Get your testing superhero on with the Sauce Labs bolt T-shirt. From American Apparel, 100% ringspun combed cotton, heather gray with red bolt.",
    price := BoltTShirtPrice,
    addToCartXPath := BoltTShirtAddXPath(),
    removeFromCartXPath := BoltTShirtRemoveXPath(),
    addToCartSelector := BoltTShirtAddSelector(),
    removeFromCartSelector := BoltTShirtRemoveSelector(),
    expectedImageSrc := BoltTShirtImageKey)

  const FleeceJacket: ItemDetail := ItemDetail(
    name := FleeceJacketName,
    description := "It's not every day that you come across a midweight quarter-zip fleece jacket capable of handling everything from a relaxing day outdoors to a busy day at the office.",
    price := FleeceJacketPrice,
    addToCartXPath := FleeceJacketAddXPath(),
    removeFromCartXPath := FleeceJacketRemoveXPath(),
    addToCartSelector := FleeceJacketAddSelector(),
    removeFromCartSelector := FleeceJacketRemoveSelector(),
    expectedImageSrc := FleeceJacketImageKey)

  const Onesie: ItemDetail := ItemDetail(
    name := OnesieName,
    description := "Rib snap infant onesie for the junior automation engineer in development. Reinforced 3-snap bottom closure, two-needle hemmed sleeved and bottom won't unravel.",
    price := OnesiePrice,
    addToCartXPath := OnesieAddXPath(),
    removeFromCartXPath := OnesieRemoveXPath(),
    addToCartSelector := OnesieAddSelector(),
    removeFromCartSelector := OnesieRemoveSelector(),
    expectedImageSrc := OnesieImageKey)

  const RedTShirt: ItemDetail := ItemDetail(
    name := RedTShirtName,
    description := "This classic Sauce Labs t-shirt is perfect to wear when cozying up to your keyboard to automate a few tests. Super-soft and comfy ringspun combed cotton.",
    price := RedTShirtPrice,
    addToCartXPath := RedTShirtAddXPath(),
    removeFromCartXPath := RedTShirtRemoveXPath(),
    addToCartSelector := RedTShirtAddSelector(),
    removeFromCartSelector := RedTShirtRemoveSelector(),
    expectedImageSrc := RedTShirtImageKey)

  // The entries' names, prices and image keys, as the page object writes
  // them; the facts about these texts are proved from the columns below.

  const BackpackName := "Sauce Labs Backpack"
  const BikeLightName := "Sauce Labs Bike Light"
  const BoltTShirtName := "Sauce Labs Bolt T-Shirt"
  const FleeceJacketName := "Sauce Labs Fleece Jacket"
  const OnesieName := "Sauce Labs Onesie"
  const RedTShirtName := "Test.allTheThings() T-Shirt (Red)"

  const BackpackPrice := "$29.99"
  const BikeLightPrice := "$9.99"
  const BoltTShirtPrice := "$15.99"
  const FleeceJacketPrice := "$49.99"
  const OnesiePrice := "$7.99"
  const RedTShirtPrice := "$15.99"

  const BackpackImageKey := "sauce-backpack-1200x1500"
  const BikeLightImageKey := "bike-light-1200x1500"
  const BoltTShirtImageKey := "bolt-shirt-1200x1500"
  const FleeceJacketImageKey := "sauce-pullover-1200x1500"
  const OnesieImageKey := "onesie-1200x1500"
  const RedTShirtImageKey := "red-tatt-1200x1500"

  /** The names, prices and image keys of the entries, in catalogue order. */
  const CatalogueNames: seq<string> := [BackpackName, BikeLightName, BoltTShirtName, FleeceJacketName, OnesieName, RedTShirtName]
  const CataloguePriceTexts: seq<string> := [BackpackPrice, BikeLightPrice, BoltTShirtPrice, FleeceJacketPrice, OnesiePrice, RedTShirtPrice]
  const ImageKeys: seq<string> := [BackpackImageKey, BikeLightImageKey, BoltTShirtImageKey, FleeceJacketImageKey, OnesieImageKey, RedTShirtImageKey]

  /** Entry `i` carries the `i`-th name, price and image key. */
  /** The first three prices, $29.99, $9.99 and $15.99, differ from each other. */
  lemma FirstPricesDiffer()
    ensures forall i, j :: 0 <= i < j < 3 ==> CataloguePriceTexts[i] != CataloguePriceTexts[j]
  {
    assert BackpackPrice[1] != BikeLightPrice[1] && BackpackPrice[1] != BoltTShirtPrice[1] && BikeLightPrice[1] != BoltTShirtPrice[1];
  }

  lemma CatalogueColumns()
    ensures |ItemDetails| == |CatalogueNames| == |CataloguePriceTexts| == |ImageKeys| == 6
    ensures forall i :: 0 <= i < 6 ==> ItemDetails[i].name == CatalogueNames[i]
    ensures forall i :: 0 <= i < 6 ==> ItemDetails[i].price == CataloguePriceTexts[i]
    ensures forall i :: 0 <= i < 6 ==> ItemDetails[i].expectedImageSrc == ImageKeys[i]
  {
  }

  /** The six names differ from each other (their lengths 19, 21, 23, 24, 17 and 33 already do). */
  lemma NamesDistinct()
    ensures forall i, j :: 0 <= i < j < |CatalogueNames| ==> CatalogueNames[i] != CatalogueNames[j]
  {
    assert |BackpackName| == 19 && |BikeLightName| == 21 && |BoltTShirtName| == 23;
    assert |FleeceJacketName| == 24 && |OnesieName| == 17 && |RedTShirtName| == 33;
  }

  /** The catalogue is a listing: no two entries share a name. */
  lemma CatalogueNamesDistinct()
    ensures |ItemDetails| == 6
    ensures IsListing(ItemDetails)
  {
    CatalogueColumns();
    NamesDistinct();
  }

  /** Different catalogue entries carry different names. */
  lemma CatalogueNamesDiffer(i: nat, j: nat)
    requires i < |ItemDetails| && j < |ItemDetails| && i != j
    ensures ItemDetails[i].name != ItemDetails[j].name
  {
    CatalogueColumns();
    NamesDistinct();
  }

  /**
   * Entry `i`'s add controls (selector and XPath) are named after
   * `add-to-cart-<slug>` and its remove controls after `remove-<slug>`, with
   * the same non-empty slug in all four strings the page object writes.
   */
  lemma ControlsPairBySlug(i: nat)
    requires i < |ItemDetails|
    ensures |SlugOf(ItemDetails[i])| > 0
    ensures ItemDetails[i].addToCartSelector == DataTestSelector(AddButtonPrefix + SlugOf(ItemDetails[i]))
    ensures ItemDetails[i].removeFromCartSelector == DataTestSelector(RemoveButtonPrefix + SlugOf(ItemDetails[i]))
    ensures ItemDetails[i].addToCartXPath == IdXPath(AddButtonPrefix + SlugOf(ItemDetails[i]))
    ensures ItemDetails[i].removeFromCartXPath == IdXPath(RemoveButtonPrefix + SlugOf(ItemDetails[i]))
  {
    if i == 0 {
      BackpackControls();
    } else if i == 1 {
      BikeLightControls();
    } else if i == 2 {
      BoltTShirtControls();
    } else if i == 3 {
      FleeceJacketControls();
    } else if i == 4 {
      OnesieControls();
    } else {
      RedTShirtControls();
    }
  }

  /**
   * The catalogue is a listing, and the control each of its cards shows is
   * the one the page object's selectors name: the remove selector while the
   * product is in the cart, the add selector otherwise.
   */
  lemma CatalogueIsListing()
    ensures IsListing(ItemDetails)
    ensures forall i, items :: 0 <= i < |ItemDetails| ==>
      DataTestSelector(ShownTestId(ItemDetails[i], items)) ==
        if InCart(items, ItemDetails[i].name) then ItemDetails[i].removeFromCartSelector else ItemDetails[i].addToCartSelector
  {
    CatalogueNamesDistinct();
    forall i | 0 <= i < |ItemDetails| ensures ControlsShareSlug(ItemDetails[i]) {
      ControlsPairBySlug(i);
    }
  }

  /**
   * `addAllItemsToCart` as written, on the catalogue and an empty cart:
   * the Backpack, the Bolt T-Shirt and the Onesie are added, and the fourth
   * click finds no add control left at its position.
   */
  lemma CatalogueAddsEveryOtherProduct()
    ensures |AddButtons(ItemDetails, [])| == 6
    ensures AsWrittenRun(ItemDetails, [], 0, 6) ==
      Run([AddTestId(Backpack), AddTestId(BoltTShirt), AddTestId(Onesie)], [LineOf(Backpack), LineOf(BoltTShirt), LineOf(Onesie)], false)
  {
    CatalogueNamesDistinct();
    AsWrittenAddsEveryOtherCard(ItemDetails);
  }

  /** The catalogue prices in cents, entry by entry. */
  const CatalogueCents: seq<nat> := [2999, 999, 1599, 4999, 799, 1599]

  /**
   * Every catalogue price is a canonical `$d.dd` text worth its cents; the
   * third and sixth entries share $15.99, so ordering by price has a tie.
   */
  lemma CataloguePrices(i: nat)
    requires i < |ItemDetails|
    ensures |CatalogueCents| == |ItemDetails|
    ensures ItemDetails[i].price == FormatPrice(CatalogueCents[i])
    ensures PriceCents(ItemDetails[i].price) == Some(CatalogueCents[i])
    ensures CanonicalPrice(ItemDetails[i].price)
    ensures ItemDetails[2].price == ItemDetails[5].price == "$15.99"
  {
    CatalogueColumns();
    PriceTable(i);
    PriceRoundTrip(CatalogueCents[i]);
  }

  /** Each price text is the display form of the entry's cents. */
  lemma PriceTable(i: nat)
    requires i < |CataloguePriceTexts|
    ensures |CatalogueCents| == |CataloguePriceTexts|
    ensures CataloguePriceTexts[i] == FormatPrice(CatalogueCents[i])
    ensures CataloguePriceTexts[2] == CataloguePriceTexts[5] == "$15.99"
  {
    if i == 0 {
      FormattedPrice(BackpackPrice, 2999, "29");
    } else if i == 1 {
      FormattedPrice(BikeLightPrice, 999, "9");
    } else if i == 2 {
      FormattedPrice(BoltTShirtPrice, 1599, "15");
    } else if i == 3 {
      FormattedPrice(FleeceJacketPrice, 4999, "49");
    } else if i == 4 {
      FormattedPrice(OnesiePrice, 799, "7");
    } else {
      FormattedPrice(RedTShirtPrice, 1599, "15");
    }
  }

  /** A `$<whole>.99` text is the display form of its cents. */
  lemma FormattedPrice(p: string, c: nat, whole: string)
    requires c % 100 == 99 && DecimalString(c / 100) == whole && p == "$" + whole + ".99"
    ensures p == FormatPrice(c)
  {
    assert DigitChar(9) == '9';
  }

  /**
   * `getProductByName` on the catalogue's cards: the locator for entry
   * `i`'s name matches entry `i`'s card and no other, so the clicks inside
   * it (`addProductToCart`, `removeProduct`, `openProductDetails`) reach
   * that product.
   */
  lemma ProductLocatorSelectsOne(i: nat)
    requires i < |ItemDetails|
    ensures ProductLocator(ItemDetails[i].name, CardTexts(ItemDetails)) == [i]
  {
    CatalogueColumns();
    var texts := CardTexts(ItemDetails);
    var r := ProductLocator(ItemDetails[i].name, texts);
    forall k: nat | k < |texts| ensures HasText(texts[k], ItemDetails[i].name) <==> k == i {
      NameOnlyInOwnCard(i, k);
    }
    assert i in r;
    forall a | 0 <= a < |r| ensures r[a] == i {
      assert r[a] in r;
    }
    OnlyMatch(r, i);
  }

  /** A catalogue name occurs, case ignored, in its own name and in no other. */
  lemma NameOnlyInOwnCard(i: nat, k: nat)
    requires i < |CatalogueNames| && k < |CatalogueNames|
    ensures HasText(CatalogueNames[k], CatalogueNames[i]) <==> k == i
  {
    if k == i {
      HasOwnText(CatalogueNames[i]);
    } else if i == 0 {
      BackpackNameOnlyInOwnCard(k);
    } else if i == 1 {
      BikeLightNameOnlyInOwnCard(k);
    } else if i == 2 {
      BoltTShirtNameOnlyInOwnCard(k);
    } else if i == 3 {
      FleeceJacketNameOnlyInOwnCard(k);
    } else if i == 4 {
      OnesieNameOnlyInOwnCard(k);
    } else {
      RedTShirtNameOnlyInOwnCard(k);
    }
  }

  // Each name against the other cards: a shorter card cannot hold it, a
  // longer one lacks one of its letters.

  lemma BackpackNameOnlyInOwnCard(k: nat)
    requires 0 < k < |CatalogueNames|
    ensures !HasText(CatalogueNames[k], BackpackName)
  {
    var n := BackpackName;
    assert n[15] == 'p' && n[14] == 'k' && n[2] == 'u';
    if k == 1 {
      BikeLightNameLacks();
      LetterRulesOut(BikeLightName, n, 15);
    } else if k == 2 {
      BoltTShirtNameLacks();
      LetterRulesOut(BoltTShirtName, n, 14);
    } else if k == 3 {
      FleeceJacketNameLacks();
      LetterRulesOut(FleeceJacketName, n, 15);
    } else if k == 4 {
      LongerRulesOut(OnesieName, n);
    } else {
      RedTShirtNameLacks();
      LetterRulesOut(RedTShirtName, n, 2);
    }
  }

  lemma BikeLightNameOnlyInOwnCard(k: nat)
    requires k < |CatalogueNames| && k != 1
    ensures !HasText(CatalogueNames[k], BikeLightName)
  {
    var n := BikeLightName;
    assert n[13] == 'k' && n[12] == 'i' && n[2] == 'u';
    if k == 0 {
      LongerRulesOut(BackpackName, n);
    } else if k == 2 {
      BoltTShirtNameLacks();
      LetterRulesOut(BoltTShirtName, n, 13);
    } else if k == 3 {
      FleeceJacketNameLacks();
      LetterRulesOut(FleeceJacketName, n, 12);
    } else if k == 4 {
      LongerRulesOut(OnesieName, n);
    } else {
      RedTShirtNameLacks();
      LetterRulesOut(RedTShirtName, n, 2);
    }
  }

  lemma BoltTShirtNameOnlyInOwnCard(k: nat)
    requires k < |CatalogueNames| && k != 2
    ensures !HasText(CatalogueNames[k], BoltTShirtName)
  {
    var n := BoltTShirtName;
    assert n[12] == 'o' && n[2] == 'u';
    if k == 0 {
      LongerRulesOut(BackpackName, n);
    } else if k == 1 {
      LongerRulesOut(BikeLightName, n);
    } else if k == 3 {
      FleeceJacketNameLacks();
      LetterRulesOut(FleeceJacketName, n, 12);
    } else if k == 4 {
      LongerRulesOut(OnesieName, n);
    } else {
      RedTShirtNameLacks();
      LetterRulesOut(RedTShirtName, n, 2);
    }
  }

  lemma FleeceJacketNameOnlyInOwnCard(k: nat)
    requires k < |CatalogueNames| && k != 3
    ensures !HasText(CatalogueNames[k], FleeceJacketName)
  {
    var n := FleeceJacketName;
    assert n[2] == 'u';
    if k == 0 {
      LongerRulesOut(BackpackName, n);
    } else if k == 1 {
      LongerRulesOut(BikeLightName, n);
    } else if k == 2 {
      LongerRulesOut(BoltTShirtName, n);
    } else if k == 4 {
      LongerRulesOut(OnesieName, n);
    } else {
      RedTShirtNameLacks();
      LetterRulesOut(RedTShirtName, n, 2);
    }
  }

  lemma OnesieNameOnlyInOwnCard(k: nat)
    requires k < |CatalogueNames| && k != 4
    ensures !HasText(CatalogueNames[k], OnesieName)
  {
    var n := OnesieName;
    assert Fold(n[11]) == 'o' && n[12] == 'n' && n[2] == 'u';
    if k == 0 {
      BackpackNameLacks();
      LetterRulesOut(BackpackName, n, 11);
    } else if k == 1 {
      BikeLightNameLacks();
      LetterRulesOut(BikeLightName, n, 11);
    } else if k == 2 {
      BoltTShirtNameLacks();
      LetterRulesOut(BoltTShirtName, n, 12);
    } else if k == 3 {
      FleeceJacketNameLacks();
      LetterRulesOut(FleeceJacketName, n, 11);
    } else {
      RedTShirtNameLacks();
      LetterRulesOut(RedTShirtName, n, 2);
    }
  }

  lemma RedTShirtNameOnlyInOwnCard(k: nat)
    requires k < |CatalogueNames| && k != 5
    ensures !HasText(CatalogueNames[k], RedTShirtName)
  {
    var n := RedTShirtName;
    if k == 0 {
      LongerRulesOut(BackpackName, n);
    } else if k == 1 {
      LongerRulesOut(BikeLightName, n);
    } else if k == 2 {
      LongerRulesOut(BoltTShirtName, n);
    } else if k == 3 {
      LongerRulesOut(FleeceJacketName, n);
    } else {
      LongerRulesOut(OnesieName, n);
    }
  }

  /**
   * An image key occurs in another entry's key only when it is that key:
   * matching an image address by containment tells the six entries apart.
   */
  lemma ImageKeysDiffer(i: nat, j: nat)
    requires i < |ImageKeys| && j < |ImageKeys|
    ensures IsSubstring(ImageKeys[i], ImageKeys[j]) <==> i == j
  {
    if i == j {
      SubstringOfConcat("", ImageKeys[i], "");
      assert "" + ImageKeys[i] + "" == ImageKeys[i];
    } else if i == 0 {
      BackpackImageKeyOnlyInOwnKey(j);
    } else if i == 1 {
      BikeLightImageKeyOnlyInOwnKey(j);
    } else if i == 2 {
      BoltTShirtImageKeyOnlyInOwnKey(j);
    } else if i == 3 {
      FleeceJacketImageKeyOnlyInOwnKey(j);
    } else if i == 4 {
      OnesieImageKeyOnlyInOwnKey(j);
    } else {
      RedTShirtImageKeyOnlyInOwnKey(j);
    }
  }

  // Each key against the other keys: a shorter key cannot hold it, a longer
  // one or one of the same length lacks one of its characters.

  lemma BackpackImageKeyOnlyInOwnKey(j: nat)
    requires 0 < j < |ImageKeys|
    ensures !IsSubstring(BackpackImageKey, ImageKeys[j])
  {
    if j == 3 {
      assert BackpackImageKey[6] == 'b';
      FleeceJacketImageKeyLacks();
      MissingCharRulesOut(BackpackImageKey, FleeceJacketImageKey, 6);
    }
  }

  lemma BikeLightImageKeyOnlyInOwnKey(j: nat)
    requires j < |ImageKeys| && j != 1
    ensures !IsSubstring(BikeLightImageKey, ImageKeys[j])
  {
    var n := BikeLightImageKey;
    assert n[1] == 'i' && n[2] == 'k';
    if j == 0 {
      BackpackImageKeyLacks();
      MissingCharRulesOut(n, BackpackImageKey, 1);
    } else if j == 2 {
      BoltTShirtImageKeyLacks();
      MissingCharRulesOut(n, BoltTShirtImageKey, 2);
    } else if j == 3 {
      FleeceJacketImageKeyLacks();
      MissingCharRulesOut(n, FleeceJacketImageKey, 1);
    }
  }

  lemma BoltTShirtImageKeyOnlyInOwnKey(j: nat)
    requires j < |ImageKeys| && j != 2
    ensures !IsSubstring(BoltTShirtImageKey, ImageKeys[j])
  {
    var n := BoltTShirtImageKey;
    assert n[1] == 'o' && n[7] == 'i';
    if j == 0 {
      BackpackImageKeyLacks();
      MissingCharRulesOut(n, BackpackImageKey, 1);
    } else if j == 1 {
      BikeLightImageKeyLacks();
      MissingCharRulesOut(n, BikeLightImageKey, 1);
    } else if j == 3 {
      FleeceJacketImageKeyLacks();
      MissingCharRulesOut(n, FleeceJacketImageKey, 7);
    }
  }

  lemma FleeceJacketImageKeyOnlyInOwnKey(j: nat)
    requires j < |ImageKeys| && j != 3
    ensures !IsSubstring(FleeceJacketImageKey, ImageKeys[j])
  {
    if j == 0 {
      assert FleeceJacketImageKey[10] == 'o';
      BackpackImageKeyLacks();
      MissingCharRulesOut(FleeceJacketImageKey, BackpackImageKey, 10);
    }
  }

  lemma OnesieImageKeyOnlyInOwnKey(j: nat)
    requires j < |ImageKeys| && j != 4
    ensures !IsSubstring(OnesieImageKey, ImageKeys[j])
  {
    var n := OnesieImageKey;
    assert n[0] == 'o' && n[1] == 'n';
    if j == 0 {
      BackpackImageKeyLacks();
      MissingCharRulesOut(n, BackpackImageKey, 0);
    } else if j == 1 {
      BikeLightImageKeyLacks();
      MissingCharRulesOut(n, BikeLightImageKey, 0);
    } else if j == 2 {
      BoltTShirtImageKeyLacks();
      MissingCharRulesOut(n, BoltTShirtImageKey, 1);
    } else if j == 3 {
      FleeceJacketImageKeyLacks();
      MissingCharRulesOut(n, FleeceJacketImageKey, 1);
    } else {
      RedTShirtImageKeyLacks();
      MissingCharRulesOut(n, RedTShirtImageKey, 0);
    }
  }

  lemma RedTShirtImageKeyOnlyInOwnKey(j: nat)
    requires j < |ImageKeys| && j != 5
    ensures !IsSubstring(RedTShirtImageKey, ImageKeys[j])
  {
    var n := RedTShirtImageKey;
    assert n[0] == 'r' && n[2] == 'd';
    if j == 0 {
      BackpackImageKeyLacks();
      MissingCharRulesOut(n, BackpackImageKey, 0);
    } else if j == 1 {
      BikeLightImageKeyLacks();
      MissingCharRulesOut(n, BikeLightImageKey, 0);
    } else if j == 2 {
      BoltTShirtImageKeyLacks();
      MissingCharRulesOut(n, BoltTShirtImageKey, 2);
    } else if j == 3 {
      FleeceJacketImageKeyLacks();
      MissingCharRulesOut(n, FleeceJacketImageKey, 2);
    }
  }

  // The characters each image key lacks.

  lemma BackpackImageKeyLacks()
    ensures 'o' !in BackpackImageKey && 'r' !in BackpackImageKey && 'i' !in BackpackImageKey
  {
  }

  lemma BikeLightImageKeyLacks()
    ensures 'o' !in BikeLightImageKey && 'r' !in BikeLightImageKey
  {
  }

  lemma BoltTShirtImageKeyLacks()
    ensures 'n' !in BoltTShirtImageKey && 'd' !in BoltTShirtImageKey && 'k' !in BoltTShirtImageKey
  {
  }

  lemma FleeceJacketImageKeyLacks()
    ensures 'n' !in FleeceJacketImageKey && 'd' !in FleeceJacketImageKey && 'i' !in FleeceJacketImageKey && 'b' !in FleeceJacketImageKey
  {
  }

  lemma RedTShirtImageKeyLacks()
    ensures 'o' !in RedTShirtImageKey
  {
  }

  // The letters each name lacks, case ignored.

  lemma BackpackNameLacks()
    ensures Lacks(BackpackName, 'o')
  {
  }

  lemma BikeLightNameLacks()
    ensures Lacks(BikeLightName, 'o') && Lacks(BikeLightName, 'p')
  {
  }

  lemma BoltTShirtNameLacks()
    ensures Lacks(BoltTShirtName, 'n') && Lacks(BoltTShirtName, 'k')
  {
  }

  lemma FleeceJacketNameLacks()
    ensures Lacks(FleeceJacketName, 'o') && Lacks(FleeceJacketName, 'p') && Lacks(FleeceJacketName, 'i')
  {
  }

  lemma RedTShirtNameLacks()
    ensures Lacks(RedTShirtName, 'u')
  {
  }
}
