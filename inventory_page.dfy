/**
 * The inventory page object: the fixed product catalogue the tests compare
 * against, the locators built from it, the sort options, reading the cart
 * count, and adding every product shown.
 */
module InventoryPage {
  import opened Wrappers
  import opened Seqs
  import opened Interfaces
  import opened JsNumbers
  import opened CartModel
  import opened CatalogueControls

  /** One catalogue entry: the texts a product shows, and the ids of its two cart controls. */
  datatype ItemDetail = ItemDetail(
    name: string,
    description: string,
    price: string,
    addToCartXPath: string,
    removeFromCartXPath: string,
    addToCartSelector: string,
    removeFromCartSelector: string,
    expectedImageSrc: string)

  /** The slug an entry's controls are named after: what its add selector holds after `add-to-cart-`. */
  function SlugOf(d: ItemDetail): string {
    SlugIn(d.addToCartSelector)
  }

  /** The `data-test` value of an entry's add control. */
  function AddTestId(d: ItemDetail): string {
    AddButtonPrefix + SlugOf(d)
  }

  /** Whether the four control ids of an entry are built from one slug. */
  predicate ControlsShareSlug(d: ItemDetail) {
    ShareSlug(d.addToCartSelector, d.removeFromCartSelector, d.addToCartXPath, d.removeFromCartXPath)
  }

  /**
   * The `data-test` value of the control a card shows for a cart: its remove
   * control while a product of that name is in the cart, its add control
   * otherwise.
   */
  function ShownTestId(d: ItemDetail, items: seq<CartItem>): string {
    if InCart(items, d.name) then RemoveButtonPrefix + SlugOf(d) else AddTestId(d)
  }

  /** Whether the attribute prefix query `[data-test^="add-to-cart-"]` matches a control. */
  predicate MatchesAddQuery(testId: string) {
    AddButtonPrefix <= testId
  }

  /**
   * The prefix query matches a card's control exactly when that product is
   * not in the cart, that is when its add control is the one shown.
   */
  lemma AddQueryMatchesAddControls(d: ItemDetail, items: seq<CartItem>)
    ensures MatchesAddQuery(ShownTestId(d, items)) <==> !InCart(items, d.name)
    ensures MatchesAddQuery(ShownTestId(d, items)) <==> ShownControl(items, d.name) == AddToCartButton
  {
    if InCart(items, d.name) {
      var t := ShownTestId(d, items);
      assert t[0] == 'r' && AddButtonPrefix[0] == 'a';
    }
  }

  /** No two cards of a listing show products of the same name. */
  predicate IsListing(shown: seq<ItemDetail>) {
    forall k, l :: 0 <= k < l < |shown| ==> shown[k].name != shown[l].name
  }

  /** The listed cards whose shown control the prefix query matches, in page order. */
  function AddButtons(shown: seq<ItemDetail>, items: seq<CartItem>): seq<ItemDetail> {
    if |shown| == 0 then []
    else (if MatchesAddQuery(ShownTestId(shown[0], items)) then [shown[0]] else []) + AddButtons(shown[1..], items)
  }

  /** The prefix query `[data-test^="add-to-cart-"]` asked of the page: its matches are the cards whose product is out of the cart. */
  method QueryAddButtons(shown: seq<ItemDetail>, items: seq<CartItem>) returns (matches: seq<ItemDetail>)
    ensures matches == FreshCards(shown, items)
  {
    QueryFindsFreshCards(shown, items);
    matches := AddButtons(shown, items);
  }

  /** The card's add button as the query sees it: the card while its product is out of the cart, nothing otherwise. */
  function AddButtonOf(d: ItemDetail, items: seq<CartItem>): seq<ItemDetail> {
    if InCart(items, d.name) then [] else [d]
  }

  /** The listed cards whose product is out of the cart, in page order. */
  function FreshCards(shown: seq<ItemDetail>, items: seq<CartItem>): seq<ItemDetail> {
    if |shown| == 0 then [] else AddButtonOf(shown[0], items) + FreshCards(shown[1..], items)
  }

  /** The prefix query matches exactly the cards whose product is out of the cart, in page order. */
  lemma {:induction false} QueryFindsFreshCards(shown: seq<ItemDetail>, items: seq<CartItem>)
    ensures AddButtons(shown, items) == FreshCards(shown, items)
  {
    if |shown| > 0 {
      AddQueryMatchesAddControls(shown[0], items);
      QueryFindsFreshCards(shown[1..], items);
    }
  }

  /** The cart line a product becomes once added: its name and price. */
  function LineOf(d: ItemDetail): CartItem {
    CartItem(d.name, d.price)
  }

  /** The cart lines of products added one after another. */
  function LinesOf(products: seq<ItemDetail>): (r: seq<CartItem>)
    ensures |r| == |products|
    ensures forall k :: 0 <= k < |products| ==> r[k] == LineOf(products[k])
  {
    seq(|products|, k requires 0 <= k < |products| => LineOf(products[k]))
  }

  /** The `data-test` values of the add controls of cards. */
  function AddTestIds(cards: seq<ItemDetail>): (r: seq<string>)
    ensures |r| == |cards|
    ensures forall k :: 0 <= k < |cards| ==> r[k] == AddTestId(cards[k])
  {
    seq(|cards|, k requires 0 <= k < |cards| => AddTestId(cards[k]))
  }

  /** The tail of a listing is a listing, none of whose names is the head's. */
  lemma ListingTail(shown: seq<ItemDetail>)
    requires |shown| > 0 && IsListing(shown)
    ensures IsListing(shown[1..])
    ensures forall k :: 0 <= k < |shown[1..]| ==> shown[1..][k].name != shown[0].name
  {
    forall k, l | 0 <= k < l < |shown[1..]| ensures shown[1..][k].name != shown[1..][l].name {
      assert shown[1..][k] == shown[k + 1] && shown[1..][l] == shown[l + 1];
    }
  }

  /**
   * The buttons the query matches belong to listed cards whose products are
   * not in the cart, and they form a listing themselves.
   */
  lemma {:induction false} FreshCardsListed(shown: seq<ItemDetail>, items: seq<CartItem>)
    requires IsListing(shown)
    ensures IsListing(FreshCards(shown, items))
    ensures forall k :: 0 <= k < |FreshCards(shown, items)| ==> FreshCards(shown, items)[k] in shown
    ensures forall k :: 0 <= k < |FreshCards(shown, items)| ==> !InCart(items, FreshCards(shown, items)[k].name)
  {
    if |shown| > 0 {
      ListingTail(shown);
      FreshCardsListed(shown[1..], items);
      var rest := FreshCards(shown[1..], items);
      HeadCard(shown, items);
      RestAvoidsHead(shown, rest);
      if !InCart(items, shown[0].name) {
        ConsListing(shown[0], rest);
      }
    }
  }

  /** Cards taken from the tail of a listing do not bear its first card's name. */
  lemma RestAvoidsHead(shown: seq<ItemDetail>, rest: seq<ItemDetail>)
    requires |shown| > 0 && IsListing(shown)
    requires forall k :: 0 <= k < |rest| ==> rest[k] in shown[1..]
    ensures forall k :: 0 <= k < |rest| ==> rest[k].name != shown[0].name
  {
    var t := shown[1..];
    ListingTail(shown);
    forall k | 0 <= k < |rest| ensures rest[k].name != shown[0].name {
      assert rest[k] in t;
      var m :| 0 <= m < |t| && t[m] == rest[k];
    }
  }

  /** A card put before a listing none of whose names it bears keeps it a listing. */
  lemma ConsListing(c: ItemDetail, rest: seq<ItemDetail>)
    requires IsListing(rest)
    requires forall k :: 0 <= k < |rest| ==> rest[k].name != c.name
    ensures IsListing([c] + rest)
  {
    var s := [c] + rest;
    forall k, l | 0 <= k < l < |s| ensures s[k].name != s[l].name {
      assert s[l] == rest[l - 1];
      if k > 0 { assert s[k] == rest[k - 1]; }
    }
  }

  lemma {:induction false} InCartAppend(a: seq<CartItem>, b: seq<CartItem>, name: string)
    ensures InCart(a + b, name) <==> InCart(a, name) || InCart(b, name)
  {
    NamesAppend(a, b);
  }

  /** The lines of some products hold a name exactly when one of the products bears it. */
  lemma InLinesOf(products: seq<ItemDetail>, name: string)
    ensures InCart(LinesOf(products), name) <==> exists j :: 0 <= j < |products| && products[j].name == name
  {
    var ns := Names(LinesOf(products));
    if InCart(LinesOf(products), name) {
      var j :| 0 <= j < |ns| && ns[j] == name;
      assert products[j].name == name;
    }
    if exists j :: 0 <= j < |products| && products[j].name == name {
      var j :| 0 <= j < |products| && products[j].name == name;
      assert ns[j] == name;
    }
  }

  /** The product of the `k`-th matched button is not yet in the cart when its turn comes. */
  lemma NextButtonIsFresh(start: seq<CartItem>, buttons: seq<ItemDetail>, k: nat)
    requires IsListing(buttons) && k < |buttons|
    requires forall j :: 0 <= j < |buttons| ==> !InCart(start, buttons[j].name)
    ensures !InCart(start + LinesOf(buttons[..k]), buttons[k].name)
  {
    InLinesOf(buttons[..k], buttons[k].name);
    InCartAppend(start, LinesOf(buttons[..k]), buttons[k].name);
  }

  /** Clicking the `k`-th matched button appends its product's line and its id. */
  lemma ClickedPrefixGrows(start: seq<CartItem>, buttons: seq<ItemDetail>, k: nat)
    requires IsListing(buttons) && k < |buttons|
    requires forall j :: 0 <= j < |buttons| ==> !InCart(start, buttons[j].name)
    ensures !InCart(start + LinesOf(buttons[..k]), buttons[k].name)
    ensures Added(start + LinesOf(buttons[..k]), LineOf(buttons[k])) == start + LinesOf(buttons[..k + 1])
    ensures AddTestIds(buttons[..k + 1]) == AddTestIds(buttons[..k]) + [AddTestId(buttons[k])]
  {
    NextButtonIsFresh(start, buttons, k);
    assert LinesOf(buttons[..k + 1]) == LinesOf(buttons[..k]) + [LineOf(buttons[k])];
  }

  /**
   * Among the listed cards, `more` holds exactly the names `items` holds and
   * those of the cards `clicked`.
   */
  predicate CartGrewBy(shown: seq<ItemDetail>, items: seq<CartItem>, more: seq<CartItem>, clicked: seq<ItemDetail>) {
    forall d :: d in shown ==> (InCart(more, d.name) <==> InCart(items, d.name) || InCart(LinesOf(clicked), d.name))
  }

  /**
   * Once the first `k` of the query's matches are in the cart, the query
   * matches exactly the remaining ones, still in page order.
   */
  lemma {:induction false} MatchesAfterPrefix(shown: seq<ItemDetail>, items: seq<CartItem>, more: seq<CartItem>, k: nat)
    requires IsListing(shown) && k <= |FreshCards(shown, items)|
    requires CartGrewBy(shown, items, more, FreshCards(shown, items)[..k])
    ensures FreshCards(shown, more) == FreshCards(shown, items)[k..]
    decreases |shown|, 1
  {
    if |shown| > 0 {
      if InCart(items, shown[0].name) {
        MatchesAfterSkippedHead(shown, items, more, k);
      } else if k == 0 {
        MatchesAfterNoClick(shown, items, more);
      } else {
        MatchesAfterClickedHead(shown, items, more, k);
      }
    }
  }

  /** The first card was in the cart already: it stays out of the matches, and the rest of the listing carries the clicks. */
  lemma {:induction false} MatchesAfterSkippedHead(shown: seq<ItemDetail>, items: seq<CartItem>, more: seq<CartItem>, k: nat)
    requires |shown| > 0 && IsListing(shown) && InCart(items, shown[0].name)
    requires k <= |FreshCards(shown, items)| && CartGrewBy(shown, items, more, FreshCards(shown, items)[..k])
    ensures FreshCards(shown, more) == FreshCards(shown, items)[k..]
    decreases |shown|, 0
  {
    HeadCard(shown, items);
    assert shown[0] in shown;
    HeadCard(shown, more);
    ListingTail(shown);
    GrewByTail(shown, items, more, FreshCards(shown, items)[..k]);
    MatchesAfterPrefix(shown[1..], items, more, k);
  }

  /** Nothing was clicked: the cart holds the same cards of the listing as before. */
  lemma {:induction false} MatchesAfterNoClick(shown: seq<ItemDetail>, items: seq<CartItem>, more: seq<CartItem>)
    requires |shown| > 0 && IsListing(shown) && !InCart(items, shown[0].name)
    requires CartGrewBy(shown, items, more, [])
    ensures FreshCards(shown, more) == FreshCards(shown, items)
    decreases |shown|, 0
  {
    HeadCard(shown, items);
    assert shown[0] in shown;
    assert LinesOf([]) == [];
    HeadCard(shown, more);
    ListingTail(shown);
    GrewByTail(shown, items, more, []);
    assert FreshCards(shown[1..], items)[..0] == [];
    MatchesAfterPrefix(shown[1..], items, more, 0);
  }

  /** The first card was the first click: it left the matches, and the rest of the listing carries the other clicks. */
  lemma {:induction false} MatchesAfterClickedHead(shown: seq<ItemDetail>, items: seq<CartItem>, more: seq<CartItem>, k: nat)
    requires |shown| > 0 && IsListing(shown) && !InCart(items, shown[0].name)
    requires 0 < k <= |FreshCards(shown, items)| && CartGrewBy(shown, items, more, FreshCards(shown, items)[..k])
    ensures FreshCards(shown, more) == FreshCards(shown, items)[k..]
    decreases |shown|, 0
  {
    ClickedHeadLeaves(shown, items, more, k);
    ListingTail(shown);
    MatchesAfterPrefix(shown[1..], items, more, k - 1);
  }

  /** The clicked first card is in the cart now, so only the rest of the listing is left to match. */
  lemma ClickedHeadLeaves(shown: seq<ItemDetail>, items: seq<CartItem>, more: seq<CartItem>, k: nat)
    requires |shown| > 0 && IsListing(shown) && !InCart(items, shown[0].name)
    requires 0 < k <= |FreshCards(shown, items)| && CartGrewBy(shown, items, more, FreshCards(shown, items)[..k])
    ensures k - 1 <= |FreshCards(shown[1..], items)|
    ensures FreshCards(shown, items)[k..] == FreshCards(shown[1..], items)[k - 1..]
    ensures FreshCards(shown, more) == FreshCards(shown[1..], more)
    ensures CartGrewBy(shown[1..], items, more, FreshCards(shown[1..], items)[..k - 1])
  {
    var c := shown[0];
    var b := FreshCards(shown, items);
    var b' := FreshCards(shown[1..], items);
    HeadCard(shown, items);
    var p' := b'[..k - 1];
    assert b[..k] == [c] + p';
    ClickedLines(c, p', c.name);
    assert c in shown;
    HeadCard(shown, more);
    GrewByTail(shown, items, more, [c] + p');
    DropClickedHead(shown, items, more, p');
    assert b[k..] == b'[k - 1..];
  }

  /** The fresh cards of a listing start with its first card exactly when that card's product is out of the cart. */
  lemma HeadCard(shown: seq<ItemDetail>, items: seq<CartItem>)
    requires |shown| > 0
    ensures InCart(items, shown[0].name) ==> FreshCards(shown, items) == FreshCards(shown[1..], items)
    ensures !InCart(items, shown[0].name) ==> FreshCards(shown, items) == [shown[0]] + FreshCards(shown[1..], items)
  {
  }

  lemma GrewByTail(shown: seq<ItemDetail>, items: seq<CartItem>, more: seq<CartItem>, clicked: seq<ItemDetail>)
    requires |shown| > 0 && CartGrewBy(shown, items, more, clicked)
    ensures CartGrewBy(shown[1..], items, more, clicked)
  {
    forall d | d in shown[1..] ensures d in shown {
      var m :| 0 <= m < |shown[1..]| && shown[1..][m] == d;
      assert shown[m + 1] == d;
    }
  }

  /** Once the head card is known to be clicked, the cards after it grew the cart by the rest of the clicks. */
  lemma DropClickedHead(shown: seq<ItemDetail>, items: seq<CartItem>, more: seq<CartItem>, clicked: seq<ItemDetail>)
    requires |shown| > 0 && IsListing(shown)
    requires CartGrewBy(shown[1..], items, more, [shown[0]] + clicked)
    ensures CartGrewBy(shown[1..], items, more, clicked)
  {
    ListingTail(shown);
    forall d | d in shown[1..]
      ensures InCart(more, d.name) <==> InCart(items, d.name) || InCart(LinesOf(clicked), d.name)
    {
      var m :| 0 <= m < |shown[1..]| && shown[1..][m] == d;
      ClickedLines(shown[0], clicked, d.name);
    }
  }

  /** The lines of a card clicked before others hold its name and theirs. */
  lemma ClickedLines(c: ItemDetail, clicked: seq<ItemDetail>, name: string)
    ensures InCart(LinesOf([c] + clicked), name) <==> c.name == name || InCart(LinesOf(clicked), name)
  {
    assert LinesOf([c] + clicked) == [LineOf(c)] + LinesOf(clicked);
    InCartAppend([LineOf(c)], LinesOf(clicked), name);
    assert Names([LineOf(c)]) == [c.name];
  }

  /**
   * After the first `k` of the query's matches have been added, its first
   * match is the `k`-th of the original ones.
   */
  lemma NextMatchIsFirst(shown: seq<ItemDetail>, items: seq<CartItem>, k: nat)
    requires IsListing(shown) && k <= |FreshCards(shown, items)|
    ensures FreshCards(shown, items + LinesOf(FreshCards(shown, items)[..k])) == FreshCards(shown, items)[k..]
  {
    var b := FreshCards(shown, items);
    var more := items + LinesOf(b[..k]);
    forall d | d in shown
      ensures InCart(more, d.name) <==> InCart(items, d.name) || InCart(LinesOf(b[..k]), d.name)
    {
      InCartAppend(items, LinesOf(b[..k]), d.name);
    }
    MatchesAfterPrefix(shown, items, more, k);
  }

  /**
   * Click every button the prefix query `[data-test^="add-to-cart-"]`
   * matches, once each and in page order. The query is asked again before
   * each click and its first match is clicked, the added products having
   * dropped out of it; `clicked` lists the `data-test` values clicked.
   */
  method AddAllItemsToCart(cart: Cart, shown: seq<ItemDetail>) returns (clicked: seq<string>)
    requires cart.Valid() && IsListing(shown)
    modifies cart
    ensures cart.Valid()
    ensures clicked == AddTestIds(AddButtons(shown, old(cart.items)))
    ensures cart.items == old(cart.items) + LinesOf(AddButtons(shown, old(cart.items)))
  {
    QueryFindsFreshCards(shown, cart.items);
    var buttons := QueryAddButtons(shown, cart.items);
    var count := |buttons|;
    ghost var start := cart.items;
    FreshCardsListed(shown, start);
    clicked := [];
    for k := 0 to count
      invariant cart.Valid()
      invariant clicked == AddTestIds(buttons[..k])
      invariant cart.items == start + LinesOf(buttons[..k])
    {
      NextMatchIsFirst(shown, start, k);
      var matches := QueryAddButtons(shown, cart.items);
      var next := matches[0];
      assert next == buttons[k];
      ClickedPrefixGrows(start, buttons, k);
      var ok := cart.ClickAdd(LineOf(next));
      assert ok;
      clicked := clicked + [AddTestId(next)];
    }
    assert buttons[..count] == buttons;
  }

  /**
   * On an empty cart the prefix query finds every listed card, so adding
   * all of them clicks each card's add control once, in page order.
   */
  lemma {:induction false} AddQueryCoversEmptyCart(shown: seq<ItemDetail>)
    ensures AddButtons(shown, []) == shown
  {
    QueryFindsFreshCards(shown, []);
    EmptyCartLeavesAllFresh(shown);
  }

  lemma {:induction false} EmptyCartLeavesAllFresh(shown: seq<ItemDetail>)
    ensures FreshCards(shown, []) == shown
  {
    if |shown| > 0 {
      EmptyCartLeavesAllFresh(shown[1..]);
      assert shown == [shown[0]] + shown[1..];
    }
  }

  /** What a run of the add-all loop leaves: the ids clicked, the cart, and whether every click found its button. */
  datatype Run = Run(clicked: seq<string>, items: seq<CartItem>, completed: bool)

  /**
   * The loop of `addAllItemsToCart` as written, from its `k`-th turn of
   * `count`. `.all()` yields one locator per match, the `k`-th being the
   * query's `k`-th match; a locator is resolved again when it is clicked,
   * against the cart as it is then. A locator whose position the query no
   * longer reaches waits until the test times out, and the run ends with
   * `completed` false.
   */
  function AsWrittenRun(shown: seq<ItemDetail>, items: seq<CartItem>, k: nat, count: nat): Run
    decreases count - k
  {
    if k >= count then Run([], items, true)
    else
      var matches := FreshCards(shown, items); // the query's matches, by QueryFindsFreshCards
      if k >= |matches| then Run([], items, false)
      else
        var rest := AsWrittenRun(shown, Added(items, LineOf(matches[k])), k + 1, count);
        Run([AddTestId(matches[k])] + rest.clicked, rest.items, rest.completed)
  }

  /** After `clicked`, with the cart at `items`, the run from `start` goes on as the run from turn `k`. */
  ghost predicate Resumes(shown: seq<ItemDetail>, start: seq<CartItem>, items: seq<CartItem>, k: nat, count: nat, clicked: seq<string>) {
    var r := AsWrittenRun(shown, items, k, count);
    AsWrittenRun(shown, start, 0, count) == Run(clicked + r.clicked, r.items, r.completed)
  }

  /** One click of the run: the `k`-th match is clicked and the run goes on from the cart it leaves. */
  lemma AsWrittenStep(shown: seq<ItemDetail>, start: seq<CartItem>, items: seq<CartItem>, k: nat, count: nat, clicked: seq<string>)
    requires Resumes(shown, start, items, k, count, clicked)
    requires k < count && k < |FreshCards(shown, items)|
    ensures
      var next := FreshCards(shown, items)[k];
      Resumes(shown, start, Added(items, LineOf(next)), k + 1, count, clicked + [AddTestId(next)])
  {
    var next := FreshCards(shown, items)[k];
    var r' := AsWrittenRun(shown, Added(items, LineOf(next)), k + 1, count);
    assert clicked + ([AddTestId(next)] + r'.clicked) == (clicked + [AddTestId(next)]) + r'.clicked;
  }

  /** A turn whose position the query no longer reaches ends the run where it stands. */
  lemma AsWrittenStops(shown: seq<ItemDetail>, start: seq<CartItem>, items: seq<CartItem>, k: nat, count: nat, clicked: seq<string>)
    requires Resumes(shown, start, items, k, count, clicked)
    requires k < count && k >= |FreshCards(shown, items)|
    ensures AsWrittenRun(shown, start, 0, count) == Run(clicked, items, false)
  {
    assert clicked + [] == clicked;
  }

  /** After the last turn the run is complete. */
  lemma AsWrittenEnds(shown: seq<ItemDetail>, start: seq<CartItem>, items: seq<CartItem>, count: nat, clicked: seq<string>)
    requires Resumes(shown, start, items, count, count, clicked)
    ensures AsWrittenRun(shown, start, 0, count) == Run(clicked, items, true)
  {
    assert clicked + [] == clicked;
  }

  /**
   * Click the `k`-th of the locators `.all()` returned: the locator is
   * resolved now, against the cart as it is, and clicks the query's `k`-th
   * current match; `None` when the query no longer has that many matches.
   */
  method ClickNthAddButton(cart: Cart, shown: seq<ItemDetail>, k: nat) returns (id: Option<string>)
    requires cart.Valid()
    modifies cart
    ensures cart.Valid()
    ensures k < |FreshCards(shown, old(cart.items))| ==>
      var next := FreshCards(shown, old(cart.items))[k];
      id == Some(AddTestId(next)) && cart.items == Added(old(cart.items), LineOf(next))
    ensures k >= |FreshCards(shown, old(cart.items))| ==> id == None && cart.items == old(cart.items)
  {
    var matches := QueryAddButtons(shown, cart.items);
    if k >= |matches| {
      return None;
    }
    var _ := cart.ClickAdd(LineOf(matches[k]));
    id := Some(AddTestId(matches[k]));
  }

  /**
   * `addAllItemsToCart` as the source writes it: `count` locators are
   * collected, one per match of the query (`FreshCards`, by
   * `QueryFindsFreshCards`), and the `k`-th clicks whatever is the query's
   * `k`-th match at the time; `completed` is false when one of them finds
   * no match.
   */
  method AddAllItemsToCartAsWritten(cart: Cart, shown: seq<ItemDetail>) returns (clicked: seq<string>, completed: bool)
    requires cart.Valid() && IsListing(shown)
    modifies cart
    ensures cart.Valid()
    ensures Run(clicked, cart.items, completed) == AsWrittenRun(shown, old(cart.items), 0, |FreshCards(shown, old(cart.items))|)
  {
    var all := QueryAddButtons(shown, cart.items);
    var count := |all|;
    ghost var start := cart.items;
    clicked := [];
    completed := true;
    var k := 0;
    assert Resumes(shown, start, cart.items, 0, count, []);
    while k < count
      invariant 0 <= k <= count
      invariant cart.Valid()
      invariant Resumes(shown, start, cart.items, k, count, clicked)
      decreases count - k
    {
      ghost var before := cart.items;
      var id := ClickNthAddButton(cart, shown, k);
      if id.None? {
        AsWrittenStops(shown, start, before, k, count, clicked);
        completed := false;
        return;
      }
      AsWrittenStep(shown, start, before, k, count, clicked);
      clicked := clicked + [id.value];
      k := k + 1;
    }
    AsWrittenEnds(shown, start, cart.items, count, clicked);
  }

  lemma {:induction false} FreshCardsAppend(a: seq<ItemDetail>, b: seq<ItemDetail>, items: seq<CartItem>)
    ensures FreshCards(a + b, items) == FreshCards(a, items) + FreshCards(b, items)
  {
    if |a| == 0 {
      assert a + b == b;
    } else {
      assert (a + b)[0] == a[0];
      assert (a + b)[1..] == a[1..] + b;
      FreshCardsAppend(a[1..], b, items);
    }
  }

  /** The cards of six whose product is out of the cart, card by card. */
  lemma FreshCardsOfSix(ds: seq<ItemDetail>, items: seq<CartItem>)
    requires |ds| == 6
    ensures FreshCards(ds, items) ==
      AddButtonOf(ds[0], items) + (AddButtonOf(ds[1], items) + (AddButtonOf(ds[2], items) +
      (AddButtonOf(ds[3], items) + (AddButtonOf(ds[4], items) + AddButtonOf(ds[5], items)))))
  {
    var t1, t2, t3, t4, t5 := ds[1..], ds[2..], ds[3..], ds[4..], ds[5..];
    assert t1[0] == ds[1] && t1[1..] == t2;
    assert t2[0] == ds[2] && t2[1..] == t3;
    assert t3[0] == ds[3] && t3[1..] == t4;
    assert t4[0] == ds[4] && t4[1..] == t5;
    assert t5[0] == ds[5] && t5[1..] == [];
    assert FreshCards(ds, items) == AddButtonOf(ds[0], items) + FreshCards(t1, items);
    assert FreshCards(t1, items) == AddButtonOf(ds[1], items) + FreshCards(t2, items);
    assert FreshCards(t2, items) == AddButtonOf(ds[2], items) + FreshCards(t3, items);
    assert FreshCards(t3, items) == AddButtonOf(ds[3], items) + FreshCards(t4, items);
    assert FreshCards(t4, items) == AddButtonOf(ds[4], items) + FreshCards(t5, items);
    assert FreshCards(t5, items) == AddButtonOf(ds[5], items) + [];
    assert AddButtonOf(ds[5], items) + [] == AddButtonOf(ds[5], items);
  }

  /**
   * On six listed cards and an empty cart, the loop as written clicks the
   * first, third and fifth cards and then waits on a fourth position the
   * query no longer has: three of the six products reach the cart.
   */
  lemma AsWrittenAddsEveryOtherCard(ds: seq<ItemDetail>)
    requires |ds| == 6 && IsListing(ds)
    ensures |AddButtons(ds, [])| == 6
    ensures AsWrittenRun(ds, [], 0, 6) == Run(AddTestIds([ds[0], ds[2], ds[4]]), LinesOf([ds[0], ds[2], ds[4]]), false)
  {
    AddQueryCoversEmptyCart(ds);
    AsWrittenFromFirstClick(ds);
    assert AddTestIds([ds[0], ds[2], ds[4]]) == [AddTestId(ds[0]), AddTestId(ds[2]), AddTestId(ds[4])];
    assert LinesOf([ds[0], ds[2], ds[4]]) == [LineOf(ds[0]), LineOf(ds[2]), LineOf(ds[4])];
  }

  /** The first click of the run on six fresh cards, then the rest. */
  lemma AsWrittenFromFirstClick(ds: seq<ItemDetail>)
    requires |ds| == 6 && IsListing(ds)
    ensures AsWrittenRun(ds, [], 0, 6)
      == Run([AddTestId(ds[0]), AddTestId(ds[2]), AddTestId(ds[4])], [LineOf(ds[0]), LineOf(ds[2]), LineOf(ds[4])], false)
  {
    EmptyCartLeavesAllFresh(ds);
    EveryOtherCardFirst(ds);
    AsWrittenFromSecondClick(ds);
    var rest := AsWrittenRun(ds, Added([], LineOf(ds[0])), 1, 6);
    assert [AddTestId(ds[0])] + rest.clicked == [AddTestId(ds[0]), AddTestId(ds[2]), AddTestId(ds[4])];
  }

  /** The second and third clicks of the run on six fresh cards, and its stop at the fourth. */
  lemma AsWrittenFromSecondClick(ds: seq<ItemDetail>)
    requires |ds| == 6 && IsListing(ds)
    ensures AsWrittenRun(ds, [LineOf(ds[0])], 1, 6)
      == Run([AddTestId(ds[2]), AddTestId(ds[4])], [LineOf(ds[0]), LineOf(ds[2]), LineOf(ds[4])], false)
  {
    var i1 := [LineOf(ds[0])];
    EveryOtherCardFirst(ds);
    EveryOtherCardSecond(ds);
    AsWrittenFromThirdClick(ds);
    var matches := FreshCards(ds, i1);
    assert matches[1] == ds[2];
    var rest := AsWrittenRun(ds, Added(i1, LineOf(matches[1])), 2, 6);
    assert rest.clicked == [AddTestId(ds[4])];
    assert [AddTestId(ds[2])] + rest.clicked == [AddTestId(ds[2]), AddTestId(ds[4])];
  }

  lemma AsWrittenFromThirdClick(ds: seq<ItemDetail>)
    requires |ds| == 6 && IsListing(ds)
    ensures AsWrittenRun(ds, [LineOf(ds[0]), LineOf(ds[2])], 2, 6)
      == Run([AddTestId(ds[4])], [LineOf(ds[0]), LineOf(ds[2]), LineOf(ds[4])], false)
  {
    EveryOtherCardSecond(ds);
    EveryOtherCardThird(ds);
    assert AsWrittenRun(ds, [LineOf(ds[0]), LineOf(ds[2]), LineOf(ds[4])], 3, 6) == Run([], [LineOf(ds[0]), LineOf(ds[2]), LineOf(ds[4])], false);
  }

  lemma EveryOtherCardFirst(ds: seq<ItemDetail>)
    requires |ds| == 6 && IsListing(ds)
    ensures Added([], LineOf(ds[0])) == [LineOf(ds[0])]
    ensures FreshCards(ds, [LineOf(ds[0])]) == [ds[1], ds[2], ds[3], ds[4], ds[5]]
  {
    var i1 := [LineOf(ds[0])];
    assert Names(i1) == [ds[0].name];
    FreshCardsOfSix(ds, i1);
  }

  lemma EveryOtherCardSecond(ds: seq<ItemDetail>)
    requires |ds| == 6 && IsListing(ds)
    ensures Added([LineOf(ds[0])], LineOf(ds[2])) == [LineOf(ds[0]), LineOf(ds[2])]
    ensures FreshCards(ds, [LineOf(ds[0]), LineOf(ds[2])]) == [ds[1], ds[3], ds[4], ds[5]]
  {
    var i1 := [LineOf(ds[0])];
    var i2 := [LineOf(ds[0]), LineOf(ds[2])];
    assert Names(i1) == [ds[0].name];
    assert Names(i2) == [ds[0].name, ds[2].name];
    FreshCardsOfSix(ds, i2);
  }

  lemma EveryOtherCardThird(ds: seq<ItemDetail>)
    requires |ds| == 6 && IsListing(ds)
    ensures Added([LineOf(ds[0]), LineOf(ds[2])], LineOf(ds[4])) == [LineOf(ds[0]), LineOf(ds[2]), LineOf(ds[4])]
    ensures FreshCards(ds, [LineOf(ds[0]), LineOf(ds[2]), LineOf(ds[4])]) == [ds[1], ds[3], ds[5]]
  {
    var i2 := [LineOf(ds[0]), LineOf(ds[2])];
    var i3 := [LineOf(ds[0]), LineOf(ds[2]), LineOf(ds[4])];
    assert Names(i2) == [ds[0].name, ds[2].name];
    assert Names(i3) == [ds[0].name, ds[2].name, ds[4].name];
    FreshCardsOfSix(ds, i3);
  }

  /** ASCII lower-casing: the case folding `:has-text` applies when it compares a name with a card's text. */
  function Fold(c: char): char {
    if 'A' <= c <= 'Z' then (c as int + 32) as char else c
  }

  /** `needle` occurs in `hay` at index `k` when case is ignored. */
  predicate OccursFoldedAt(needle: string, hay: string, k: nat) {
    k + |needle| <= |hay| && forall j :: 0 <= j < |needle| ==> Fold(needle[j]) == Fold(hay[k + j])
  }

  /** The `:has-text("<needle>")` test on one card: its text contains `needle`, case ignored. */
  predicate HasText(hay: string, needle: string) {
    exists k | 0 <= k <= |hay| :: OccursFoldedAt(needle, hay, k)
  }

  /** The texts of the listed cards, each card's being its product name. */
  function CardTexts(shown: seq<ItemDetail>): (r: seq<string>)
    ensures |r| == |shown|
    ensures forall k :: 0 <= k < |shown| ==> r[k] == shown[k].name
  {
    seq(|shown|, k requires 0 <= k < |shown| => shown[k].name)
  }

  /**
   * `getProductByName`: the positions of the cards the locator
   * `.inventory_item:has-text("<name>")` matches, in page order, given the
   * text of each card.
   */
  function ProductLocator(name: string, texts: seq<string>): (r: seq<nat>)
    ensures forall k: nat :: k in r <==> k < |texts| && HasText(texts[k], name)
    ensures forall a, b :: 0 <= a < b < |r| ==> r[a] < r[b]
  {
    if |texts| == 0 then []
    else
      var last := |texts| - 1;
      var init := ProductLocator(name, texts[..last]);
      assert forall k: nat :: k < last ==> texts[..last][k] == texts[k];
      assert forall a :: 0 <= a < |init| ==> init[a] in init;
      if HasText(texts[last], name) then init + [last] else init
  }

  /** A text contains itself. */
  lemma HasOwnText(s: string)
    ensures HasText(s, s)
  {
    assert OccursFoldedAt(s, s, 0);
  }

  /** A name longer than a card's text does not occur in it. */
  lemma LongerRulesOut(hay: string, needle: string)
    requires |hay| < |needle|
    ensures !HasText(hay, needle)
  {
  }

  /** A card's text misses a letter when no character of it folds to that letter. */
  predicate Lacks(hay: string, letter: char) {
    forall j :: 0 <= j < |hay| ==> Fold(hay[j]) != letter
  }

  /** A name holding a letter the card's text lacks does not occur in it. */
  lemma LetterRulesOut(hay: string, needle: string, p: nat)
    requires p < |needle| && Lacks(hay, Fold(needle[p]))
    ensures !HasText(hay, needle)
  {
    forall k: nat | k + |needle| <= |hay| ensures !OccursFoldedAt(needle, hay, k) {
      assert Fold(hay[k + p]) != Fold(needle[p]);
    }
  }

  /** A locator all of whose matches are position `i` matches exactly the card at `i`. */
  lemma OnlyMatch(r: seq<nat>, i: nat)
    requires |r| > 0 && forall a :: 0 <= a < |r| ==> r[a] == i
    requires forall a, b :: 0 <= a < b < |r| ==> r[a] < r[b]
    ensures r == [i]
  {
    IncreasingSpread(r);
  }

  /** The last of strictly increasing positions lies at least one place further per position after the first. */
  lemma {:induction false} IncreasingSpread(r: seq<nat>)
    requires forall a, b :: 0 <= a < b < |r| ==> r[a] < r[b]
    ensures |r| > 0 ==> r[|r| - 1] >= r[0] + |r| - 1
  {
    if |r| > 1 {
      var init := r[..|r| - 1];
      IncreasingSpread(init);
      assert init[0] == r[0] && init[|init| - 1] == r[|r| - 2];
    }
  }

  /**
   * The cart count read from the cart link's text: 0 for absent or empty
   * text, otherwise the text's integer prefix as JavaScript's `parseInt`
   * reads it (which may be NaN).
   */
  function GetCartCount(countText: Option<string>): (r: ParsedInt)
    ensures countText == None || countText == Some("") ==> r == Num(0)
    ensures forall n: nat {:trigger DecimalString(n)} :: countText == Some(DecimalString(n)) ==> r == Num(n)
  {
    ParseIntReadsDecimals();
    if countText.Some? && countText.value != "" then ParseInt(countText.value) else Num(0)
  }

  lemma ParseIntReadsDecimals()
    ensures forall n: nat {:trigger DecimalString(n)} :: ParseInt(DecimalString(n)) == Num(n)
  {
    forall n: nat {:trigger DecimalString(n)} ensures ParseInt(DecimalString(n)) == Num(n) {
      ParseIntDecimalString(n);
    }
  }

  /** Read from the page, the cart count is the number of cart lines. */
  lemma CartCountReadsCart(items: seq<CartItem>)
    ensures GetCartCount(None) == Num(0) && GetCartCount(Some("")) == Num(0)
    ensures GetCartCount(CartLinkText(items)) == Num(|items|)
  {
    if |items| > 0 {
      ParseIntDecimalString(|items|);
    }
  }

  /** The four options of the sort dropdown. */
  datatype SortOption = Az | Za | Lohi | Hilo

  /** The option value `sortBy` selects. */
  function OptionCode(o: SortOption): string {
    match o
    case Az => "az"
    case Za => "za"
    case Lohi => "lohi"
    case Hilo => "hilo"
  }

  /** The option a code names; only the four option codes name one. */
  function ParseSortOption(code: string): (r: Option<SortOption>)
    ensures r.Some? ==> OptionCode(r.value) == code
  {
    if code == "az" then Some(Az)
    else if code == "za" then Some(Za)
    else if code == "lohi" then Some(Lohi)
    else if code == "hilo" then Some(Hilo)
    else None
  }

  /** Codes and options correspond one to one. */
  lemma SortOptionCodes(o: SortOption, code: string)
    ensures ParseSortOption(OptionCode(o)) == Some(o)
    ensures ParseSortOption(code).Some? <==> code in {"az", "za", "lohi", "hilo"}
  {
  }

  /** A product whose name is already in the cart shows no add control, so its click fails. */
  lemma RepeatedNameBreaksDistinctness(products: seq<ItemDetail>, k: nat)
    requires k < |products| && InCart(LinesOf(products[..k]), products[k].name)
    ensures !WellFormed(LinesOf(products))
  {
    var j :| 0 <= j < k && Names(LinesOf(products[..k]))[j] == products[k].name;
    assert Names(LinesOf(products))[j] == Names(LinesOf(products))[k];
  }

  /** Adding one more product extends the lines by its line; dropping the first drops its line. */
  lemma {:induction false} LinesOfPrefix(products: seq<ItemDetail>, k: nat)
    requires k < |products|
    ensures LinesOf(products[..k + 1]) == LinesOf(products[..k]) + [LineOf(products[k])]
    ensures LinesOf(products[k..])[1..] == LinesOf(products[k + 1..])
    ensures |LinesOf(products[k..])| > 0 && LinesOf(products[k..])[0] == LineOf(products[k])
  {
  }
}
