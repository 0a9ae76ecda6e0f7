/**
 * The full regression test over all products: for each catalogue entry in
 * order, check its card, add it to the cart, and check its remove control
 * and the badge count; then check out with the customer profile.
 */
module FullRegression {
  import opened Wrappers
  import opened Seqs
  import opened Interfaces
  import opened JsNumbers
  import opened CartModel
  import opened InventoryPage
  import opened InventoryCatalogue
  import opened InventoryDisplay
  import opened CheckoutPage

  /**
   * "Complete purchase flow with item verification and cart logic", up to
   * the order summary: `reachedSummary` says whether every step before the
   * summary's assertions succeeds. That is exactly when every card shows its
   * entry, the entries have different names and the profile fills the whole
   * form; then the final count is the number of entries. The summary labels,
   * the finish click and the confirmation header are checks against the
   * application's own pages and are not part of this model.
   */
  method CompletePurchaseFlow(catalogue: seq<ItemDetail>, rendered: seq<RenderedItem>, info: CustomerInfo)
    returns (reachedSummary: bool, expectedCartCount: nat)
    ensures reachedSummary <==> (DisplayTestPasses(rendered, catalogue) && WellFormed(LinesOf(catalogue)) &&
                                 info.firstName != "" && info.lastName != "" && info.zipCode != "")
    ensures reachedSummary ==> expectedCartCount == |catalogue|
  {
    var cart := new Cart();
    expectedCartCount := 0;
    for i := 0 to |catalogue|
      invariant cart.Valid()
      invariant cart.items == LinesOf(catalogue[..i])
      invariant expectedCartCount == i
      invariant i <= |rendered|
      invariant forall j :: 0 <= j < i ==> ItemMatches(rendered[j], catalogue[j])
    {
      var item := catalogue[i];
      if i >= |rendered| || !ItemMatches(rendered[i], item) {
        return false, expectedCartCount;
      }
      LinesOfPrefix(catalogue, i);
      var ok := cart.ClickAdd(LineOf(item));
      if !ok {
        RepeatedNameBreaksDistinctness(catalogue, i);
        return false, expectedCartCount;
      }
      ControlsTrackTheCart(LinesOf(catalogue[..i]), LineOf(item), item.name);
      assert cart.Control(item.name) == RemoveButton;
      expectedCartCount := expectedCartCount + 1;
      assert cart.CurrentBadge() == Some(DecimalString(expectedCartCount));
    }
    assert catalogue[..|catalogue|] == catalogue;

    var checkout := new CheckoutPage();
    checkout.CompleteCheckout(info.firstName, info.lastName, info.zipCode);
    reachedSummary := checkout.step == StepTwo;
  }

  /** A character a regular expression matches as itself: a lower-case letter, a digit or `-` outside brackets. */
  predicate LiteralPatternChar(c: char) {
    ('a' <= c <= 'z') || ('0' <= c <= '9') || c == '-'
  }

  /** A text a regular expression built from it matches as itself: literal characters only. */
  predicate LiteralPattern(s: string) {
    forall k :: 0 <= k < |s| ==> LiteralPatternChar(s[k])
  }

  /**
   * Every catalogue image key is made of letters, digits and `-` only, so
   * `new RegExp(key)` matches exactly the addresses that contain the key.
   */
  lemma ImageKeysAreLiteralPatterns(i: nat)
    requires i < |ItemDetails|
    ensures LiteralPattern(ItemDetails[i].expectedImageSrc)
  {
    CatalogueColumns();
    ImageKeyIsLiteral(i);
  }

  lemma ImageKeyIsLiteral(i: nat)
    requires i < |ImageKeys|
    ensures LiteralPattern(ImageKeys[i])
  {
    if i == 0 {
      BackpackKeyIsLiteral();
    } else if i == 1 {
      BikeLightKeyIsLiteral();
    } else if i == 2 {
      BoltTShirtKeyIsLiteral();
    } else if i == 3 {
      FleeceJacketKeyIsLiteral();
    } else if i == 4 {
      OnesieKeyIsLiteral();
    } else {
      RedTShirtKeyIsLiteral();
    }
  }

  lemma BackpackKeyIsLiteral() ensures LiteralPattern(BackpackImageKey) { }
  lemma BikeLightKeyIsLiteral() ensures LiteralPattern(BikeLightImageKey) { }
  lemma BoltTShirtKeyIsLiteral() ensures LiteralPattern(BoltTShirtImageKey) { }
  lemma FleeceJacketKeyIsLiteral() ensures LiteralPattern(FleeceJacketImageKey) { }
  lemma OnesieKeyIsLiteral() ensures LiteralPattern(OnesieImageKey) { }
  lemma RedTShirtKeyIsLiteral() ensures LiteralPattern(RedTShirtImageKey) { }
}
