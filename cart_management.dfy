/**
 * The shopping cart validation test: add the first three catalogue products
 * one by one, remove them one by one, add them again, and check the badge,
 * the controls and finally the cart page.
 */
module CartManagement {
  import opened Wrappers
  import opened Seqs
  import opened Interfaces
  import opened JsNumbers
  import opened CartModel
  import opened InventoryPage
  import opened InventoryCatalogue
  import opened CartPage

  /** `itemDetails.slice(0, 3)`: the first three products, or all of them when there are fewer. */
  function TestProducts(catalogue: seq<ItemDetail>): (r: seq<ItemDetail>)
    ensures |r| == if |catalogue| < 3 then |catalogue| else 3
    ensures r <= catalogue
  {
    if |catalogue| < 3 then catalogue else catalogue[..3]
  }

  /**
   * The badges the test expects, one after each click: 1 to n while adding,
   * then n - 1 down to 0 while removing, where 0 means no badge.
   */
  function ExpectedBadges(n: nat): (r: seq<Option<string>>)
    ensures |r| == 2 * n
  {
    CountUp(n) + CountDown(n, n)
  }

  /** The badges after the first `k` adds: 1 to k. */
  function CountUp(k: nat): (r: seq<Option<string>>)
    ensures |r| == k
  {
    if k == 0 then [] else CountUp(k - 1) + [ExpectedBadge(k)]
  }

  /** The badges after the first `k` of `n` removes: n - 1 down to n - k. */
  function CountDown(n: nat, k: nat): (r: seq<Option<string>>)
    requires k <= n
    ensures |r| == k
  {
    if k == 0 then [] else CountDown(n, k - 1) + [ExpectedBadge(n - k)]
  }

  /** With three products the badge goes 1, 2, 3, 2, 1 and then disappears. */
  lemma ThreeProductTrajectory()
    ensures ExpectedBadges(3) == [Some("1"), Some("2"), Some("3"), Some("2"), Some("1"), None]
  {
    assert CountUp(3) == [ExpectedBadge(1), ExpectedBadge(2), ExpectedBadge(3)];
    assert CountDown(3, 3) == [ExpectedBadge(2), ExpectedBadge(1), ExpectedBadge(0)];
    assert DecimalString(1) == "1" && DecimalString(2) == "2" && DecimalString(3) == "3";
  }

  /** Phase 1: add each product; the badge counts up and the product's remove control appears. */
  method AddPhase(cart: Cart, products: seq<ItemDetail>) returns (ok: bool, badges: seq<Option<string>>)
    requires cart.Valid() && cart.items == []
    modifies cart
    ensures cart.Valid()
    ensures ok <==> WellFormed(LinesOf(products))
    ensures ok ==> cart.items == LinesOf(products)
    ensures ok ==> badges == CountUp(|products|)
  {
    badges := [];
    for index := 0 to |products|
      invariant cart.Valid()
      invariant cart.items == LinesOf(products[..index])
      invariant badges == CountUp(index)
    {
      var product := products[index];
      ok := cart.ClickAdd(LineOf(product));
      if !ok {
        RepeatedNameBreaksDistinctness(products, index);
        return;
      }
      AddStep(products, index);
      var expectedCount := index + 1;
      assert cart.CurrentBadge() == ExpectedBadge(expectedCount);
      badges := badges + [cart.CurrentBadge()];
      assert cart.Control(product.name) == RemoveButton;
    }
    assert products[..|products|] == products;
    ok := true;
  }

  /** Adding the next product appends its line; the badge and its control follow. */
  lemma AddStep(products: seq<ItemDetail>, index: nat)
    requires index < |products| && !InCart(LinesOf(products[..index]), products[index].name)
    ensures Added(LinesOf(products[..index]), LineOf(products[index])) == LinesOf(products[..index + 1])
    ensures ShownControl(LinesOf(products[..index + 1]), products[index].name) == RemoveButton
    ensures Badge(LinesOf(products[..index + 1])) == ExpectedBadge(index + 1)
  {
    LinesOfPrefix(products, index);
    ControlsTrackTheCart(LinesOf(products[..index]), LineOf(products[index]), products[index].name);
  }

  /** Phase 2: remove each product in the same order; the badge counts down and the add control returns. */
  method RemovePhase(cart: Cart, products: seq<ItemDetail>) returns (badges: seq<Option<string>>)
    requires cart.Valid() && cart.items == LinesOf(products)
    modifies cart
    ensures cart.Valid() && cart.items == []
    ensures badges == CountDown(|products|, |products|)
  {
    badges := [];
    assert products[0..] == products;
    for index := 0 to |products|
      invariant cart.Valid()
      invariant cart.items == LinesOf(products[index..])
      invariant badges == CountDown(|products|, index)
    {
      var product := products[index];
      RemoveStep(products, index);
      var ok := cart.ClickRemove(product.name);
      assert ok;
      var expectedCount := |products| - index - 1;
      assert cart.CurrentBadge() == ExpectedBadge(expectedCount);
      badges := badges + [cart.CurrentBadge()];
      assert cart.Control(product.name) == AddToCartButton;
    }
  }

  /** Removing the first remaining product leaves the rest; the badge and its control follow. */
  lemma RemoveStep(products: seq<ItemDetail>, index: nat)
    requires index < |products| && WellFormed(LinesOf(products[index..]))
    ensures InCart(LinesOf(products[index..]), products[index].name)
    ensures Removed(LinesOf(products[index..]), products[index].name) == LinesOf(products[index + 1..])
    ensures ShownControl(LinesOf(products[index + 1..]), products[index].name) == AddToCartButton
    ensures Badge(LinesOf(products[index + 1..])) == ExpectedBadge(|products| - index - 1)
  {
    var rest := LinesOf(products[index..]);
    LinesOfPrefix(products, index);
    RemovedHead(rest);
    RemovedAbsentHead(rest);
    assert Names(rest)[0] == products[index].name;
  }

  /** Phase 3, first half: add all the products again. */
  method ReAddPhase(cart: Cart, products: seq<ItemDetail>)
    requires cart.Valid() && cart.items == [] && WellFormed(LinesOf(products))
    modifies cart
    ensures cart.Valid() && cart.items == LinesOf(products)
  {
    for index := 0 to |products|
      invariant cart.Valid()
      invariant cart.items == LinesOf(products[..index])
    {
      var product := products[index];
      LinesOfPrefix(products, index);
      assert !InCart(LinesOf(products[..index]), product.name) by {
        forall j | 0 <= j < index ensures Names(LinesOf(products[..index]))[j] != product.name {
          assert Names(LinesOf(products))[j] != Names(LinesOf(products))[index];
        }
      }
      var ok := cart.ClickAdd(LineOf(product));
      assert ok;
    }
    assert products[..|products|] == products;
  }

  /** The name texts of the cart rows, in row order. */
  function NameColumn(rows: seq<CartRow>): seq<Option<string>> {
    seq(|rows|, i requires 0 <= i < |rows| => rows[i].nameText)
  }

  /** The price texts of the cart rows, in row order. */
  function PriceColumn(rows: seq<CartRow>): seq<Option<string>> {
    seq(|rows|, i requires 0 <= i < |rows| => rows[i].priceText)
  }

  /**
   * `expect(locator('[data-test="…"]:text-is("t")')).toBeVisible()` over one
   * column of the cart: locators are strict, so the assertion holds when
   * exactly one row shows exactly `t`. With none it times out; with several
   * it is a strict-mode violation.
   */
  predicate ShownOnce(column: seq<Option<string>>, t: string) {
    multiset(column)[Some(t)] == 1
  }

  /** Both locators of one product, its name and its price, resolve to a single row. */
  predicate PresentOnce(rows: seq<CartRow>, product: ItemDetail) {
    ShownOnce(NameColumn(rows), product.name) && ShownOnce(PriceColumn(rows), product.price)
  }

  /** No two of the products have the same price text. */
  predicate DistinctPrices(products: seq<ItemDetail>) {
    forall i, j :: 0 <= i < j < |products| ==> products[i].price != products[j].price
  }

  /** The membership loop of the final cart check: it stops at the first product whose name or price is not shown by exactly one row. */
  method VerifyEachProductShown(rows: seq<CartRow>, products: seq<ItemDetail>) returns (ok: bool)
    ensures ok <==> forall k :: 0 <= k < |products| ==> PresentOnce(rows, products[k])
  {
    for k := 0 to |products|
      invariant forall j :: 0 <= j < k ==> PresentOnce(rows, products[j])
    {
      if !PresentOnce(rows, products[k]) {
        return false;
      }
    }
    return true;
  }

  /**
   * On the page of the re-added cart, each product's name and price are
   * shown by exactly one row exactly when no two products share a price;
   * the names differ already.
   */
  lemma ReAddedCartShowsEachOnce(products: seq<ItemDetail>)
    requires WellFormed(LinesOf(products))
    ensures (forall k :: 0 <= k < |products| ==> PresentOnce(RowsShowing(LinesOf(products)), products[k])) <==> DistinctPrices(products)
  {
    var rows := RowsShowing(LinesOf(products));
    var prices := PriceColumn(rows);
    ReAddedColumns(products);
    forall k | 0 <= k < |products| ensures PresentOnce(rows, products[k]) <==> multiset(prices)[prices[k]] == 1 {
      PresentOnceAt(products, k);
    }
    PricesShownDistinct(products);
    OnceEachIffDistinct(prices);
  }

  /** With distinct names, a product of the re-added cart is shown once exactly when its price text occurs once. */
  lemma PresentOnceAt(products: seq<ItemDetail>, k: nat)
    requires WellFormed(LinesOf(products)) && k < |products|
    ensures PresentOnce(RowsShowing(LinesOf(products)), products[k]) <==>
      multiset(PriceColumn(RowsShowing(LinesOf(products))))[PriceColumn(RowsShowing(LinesOf(products)))[k]] == 1
  {
    var names := NameColumn(RowsShowing(LinesOf(products)));
    ReAddedColumns(products);
    NamesShownDistinct(products);
    OnceEachIffDistinct(names);
    assert multiset(names)[names[k]] == 1;
  }

  /** The rows of the re-added cart show the products' names and prices in order. */
  lemma ReAddedColumns(products: seq<ItemDetail>)
    ensures |NameColumn(RowsShowing(LinesOf(products)))| == |PriceColumn(RowsShowing(LinesOf(products)))| == |products|
    ensures forall k :: 0 <= k < |products| ==>
      NameColumn(RowsShowing(LinesOf(products)))[k] == Some(products[k].name) &&
      PriceColumn(RowsShowing(LinesOf(products)))[k] == Some(products[k].price)
  {
    var rows := RowsShowing(LinesOf(products));
    forall k | 0 <= k < |products|
      ensures NameColumn(rows)[k] == Some(products[k].name) && PriceColumn(rows)[k] == Some(products[k].price)
    {
      assert rows[k] == CartRow(Some(LinesOf(products)[k].name), Some(LinesOf(products)[k].price));
    }
  }

  lemma NamesShownDistinct(products: seq<ItemDetail>)
    requires WellFormed(LinesOf(products))
    ensures Distinct(NameColumn(RowsShowing(LinesOf(products))))
  {
    var names := NameColumn(RowsShowing(LinesOf(products)));
    ReAddedColumns(products);
    forall i, j | 0 <= i < j < |names| ensures names[i] != names[j] {
      assert Names(LinesOf(products))[i] != Names(LinesOf(products))[j];
    }
  }

  lemma PricesShownDistinct(products: seq<ItemDetail>)
    ensures Distinct(PriceColumn(RowsShowing(LinesOf(products)))) <==> DistinctPrices(products)
  {
    ReAddedColumns(products);
  }

  /**
   * "Shopping Cart Validation": returns whether the test passes and the
   * badges seen after each click of the first two phases. It passes exactly
   * when the test products have different names and different prices, and
   * then the badges are the expected ones.
   */
  method ShoppingCartValidation(catalogue: seq<ItemDetail>) returns (passed: bool, badges: seq<Option<string>>)
    ensures passed <==> WellFormed(LinesOf(TestProducts(catalogue))) && DistinctPrices(TestProducts(catalogue))
    ensures passed ==> badges == ExpectedBadges(|TestProducts(catalogue)|)
  {
    var products := TestProducts(catalogue);
    var cart := new Cart();
    var ok;
    ok, badges := AddPhase(cart, products);
    if !ok {
      return false, badges;
    }
    var removed := RemovePhase(cart, products);
    badges := badges + removed;
    ReAddPhase(cart, products);

    // Phase 3, second half: the cart page lists as many rows as products,
    // and each product's name and price are shown by exactly one row.
    var rows := RowsShowing(cart.items);
    var cartItems := GetCartContents(rows);
    var shown := VerifyEachProductShown(rows, products);
    passed := |cartItems| == |products| && shown;
    ReAddedCartShowsEachOnce(products);
  }

  /** The first three catalogue products have different names, so the test passes on the catalogue. */
  lemma CatalogueTestProductsDiffer()
    ensures WellFormed(LinesOf(TestProducts(ItemDetails)))
    ensures DistinctPrices(TestProducts(ItemDetails))
  {
    var ps := TestProducts(ItemDetails);
    CatalogueColumns();
    FirstPricesDiffer();
    CatalogueNamesDistinct();
    forall i, j | 0 <= i < j < |ps| ensures Names(LinesOf(ps))[i] != Names(LinesOf(ps))[j] {
      assert ps[i] == ItemDetails[i] && ps[j] == ItemDetails[j];
      CatalogueNamesDiffer(i, j);
    }
  }

  /** Two test products at $15.99, the Bolt T-Shirt and the Red T-Shirt, make the price locator match two rows: the test fails. */
  lemma SharedPriceFailsTheCartCheck()
    ensures WellFormed(LinesOf(TestProducts([BoltTShirt, RedTShirt, Backpack])))
    ensures !DistinctPrices(TestProducts([BoltTShirt, RedTShirt, Backpack]))
  {
    var ps := TestProducts([BoltTShirt, RedTShirt, Backpack]);
    assert ps[0].price == ps[1].price;
    var ns := Names(LinesOf(ps));
    assert ns[0] == BoltTShirtName && ns[1] == RedTShirtName && ns[2] == BackpackName;
    assert |BoltTShirtName| == 23 && |RedTShirtName| == 33 && |BackpackName| == 19;
  }
}
