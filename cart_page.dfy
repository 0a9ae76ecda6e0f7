/**
 * The cart page object: reading the cart rows into a list of name and price
 * texts, and the check that the cart holds the expected items (equal length,
 * and every expected item present somewhere; order and multiplicity are not
 * compared).
 */
module CartPage {
  import opened Wrappers
  import opened Seqs
  import opened Interfaces

  /** One `.cart_item` row as rendered: the text of its name and price labels, when there is one. */
  datatype CartRow = CartRow(nameText: Option<string>, priceText: Option<string>)

  /** `text || ''`: a missing or empty text reads as the empty string. */
  function OrEmpty(text: Option<string>): (r: string)
    ensures text.Some? ==> r == text.value
    ensures text.None? ==> r == ""
  {
    if text.Some? then text.value else ""
  }

  /** The number of rendered cart rows: for a rendered cart, its number of lines. */
  function GetCartItemCount(rows: seq<CartRow>): (r: nat)
    ensures forall items: seq<CartItem> {:trigger RowsShowing(items)} :: rows == RowsShowing(items) ==> r == |items|
  {
    |rows|
  }

  /** The cart line a rendered row reads as. */
  function RowItem(row: CartRow): CartItem {
    CartItem(OrEmpty(row.nameText), OrEmpty(row.priceText))
  }

  /** The cart lines the rows read as, row by row. */
  function Contents(rows: seq<CartRow>): (r: seq<CartItem>)
    ensures |r| == |rows|
  {
    seq(|rows|, i requires 0 <= i < |rows| => RowItem(rows[i]))
  }

  /** The rows a cart page renders for the cart lines `items`, one per line in order. */
  function RowsShowing(items: seq<CartItem>): (r: seq<CartRow>)
    ensures |r| == |items|
  {
    seq(|items|, i requires 0 <= i < |items| => CartRow(Some(items[i].name), Some(items[i].price)))
  }

  /** Reading the rows a cart renders gives back that cart's lines. */
  lemma ContentsOfRenderedCart(items: seq<CartItem>)
    ensures Contents(RowsShowing(items)) == items
  {
    var r := Contents(RowsShowing(items));
    forall i | 0 <= i < |items| ensures r[i] == items[i] {
      assert RowsShowing(items)[i] == CartRow(Some(items[i].name), Some(items[i].price));
    }
  }

  /**
   * Read the rows by index: as many entries as rows, entry `i` holding row
   * `i`'s name and price texts, an absent text read as "".
   */
  method GetCartContents(rows: seq<CartRow>) returns (items: seq<CartItem>)
    ensures |items| == GetCartItemCount(rows)
    ensures forall i :: 0 <= i < |items| ==>
      items[i].name == OrEmpty(rows[i].nameText) && items[i].price == OrEmpty(rows[i].priceText)
    ensures items == Contents(rows)
  {
    items := [];
    var count := GetCartItemCount(rows);
    for i := 0 to count
      invariant |items| == i
      invariant forall j :: 0 <= j < i ==> items[j] == RowItem(rows[j])
    {
      items := items + [CartItem(OrEmpty(rows[i].nameText), OrEmpty(rows[i].priceText))];
    }
  }

  /** The outcome of `verifyCartContainsItems`: it passes, or the first expectation that fails. */
  datatype Verdict = Pass | LengthMismatch(actual: nat, expected: nat) | ItemNotFound(name: string)

  /** The `find` predicate: an actual item with the expected item's name and price. */
  function SameItem(expected: CartItem): CartItem -> bool {
    (item: CartItem) => item.name == expected.name && item.price == expected.price
  }

  /** The first expected item, in expected order, that `find` does not find in `actual`. */
  function FirstMissing(actual: seq<CartItem>, expected: seq<CartItem>): (r: Option<CartItem>)
    ensures r.None? <==> forall k :: 0 <= k < |expected| ==> expected[k] in actual
    ensures r.Some? ==> r.value in expected && r.value !in actual
  {
    if |expected| == 0 then None
    else if Find(actual, SameItem(expected[0])).None? then
      assert forall i :: 0 <= i < |actual| ==> actual[i] != expected[0] by {
        forall i | 0 <= i < |actual| ensures actual[i] != expected[0] {
          assert !SameItem(expected[0])(actual[i]);
        }
      }
      Some(expected[0])
    else
      var r := FirstMissing(actual, expected[1..]);
      assert expected[0] in actual by {
        var i :| 0 <= i < |actual| && actual[i] == Find(actual, SameItem(expected[0])).value && SameItem(expected[0])(actual[i]);
      }
      assert forall k :: 1 <= k < |expected| ==> expected[k] == expected[1..][k - 1];
      r
  }

  /** The verdict the check reaches on the cart lines read from the page. */
  function CartVerdict(actual: seq<CartItem>, expected: seq<CartItem>): (r: Verdict)
    ensures r == Pass <==> |actual| == |expected| && forall k :: 0 <= k < |expected| ==> expected[k] in actual
    ensures r.LengthMismatch? <==> |actual| != |expected|
    ensures r.LengthMismatch? ==> r == LengthMismatch(|actual|, |expected|)
    ensures r.ItemNotFound? ==> exists k :: 0 <= k < |expected| && expected[k] !in actual && expected[k].name == r.name
  {
    if |actual| != |expected| then LengthMismatch(|actual|, |expected|)
    else
      match FirstMissing(actual, expected)
      case None => Pass
      case Some(item) => ItemNotFound(item.name)
  }

  /**
   * Compare the cart with `expected`: first the lengths, then each expected
   * item in turn must be found among the actual ones.
   */
  method VerifyCartContainsItems(rows: seq<CartRow>, expected: seq<CartItem>) returns (v: Verdict)
    ensures v == CartVerdict(Contents(rows), expected)
    ensures v.Pass? <==> |rows| == |expected| && forall k :: 0 <= k < |expected| ==> expected[k] in Contents(rows)
  {
    var actualItems := GetCartContents(rows);
    if |actualItems| != |expected| {
      return LengthMismatch(|actualItems|, |expected|);
    }
    for k := 0 to |expected|
      invariant FirstMissing(actualItems, expected) == FirstMissing(actualItems, expected[k..])
    {
      var foundItem := Find(actualItems, SameItem(expected[k]));
      if foundItem.None? {
        return ItemNotFound(expected[k].name);
      }
      assert expected[k..][1..] == expected[k + 1..];
    }
    return Pass;
  }

  /** The verdict depends only on which items the cart holds how often, not on their order. */
  lemma {:induction false} VerdictIgnoresOrder(a: seq<CartItem>, b: seq<CartItem>, expected: seq<CartItem>)
    requires multiset(a) == multiset(b)
    ensures CartVerdict(a, expected) == CartVerdict(b, expected)
  {
    assert |a| == |multiset(a)| == |multiset(b)| == |b|;
    FirstMissingIgnoresOrder(a, b, expected);
  }

  lemma {:induction false} FirstMissingIgnoresOrder(a: seq<CartItem>, b: seq<CartItem>, expected: seq<CartItem>)
    requires multiset(a) == multiset(b)
    ensures FirstMissing(a, expected) == FirstMissing(b, expected)
  {
    if |expected| > 0 {
      var e := expected[0];
      assert e in a <==> e in multiset(a);
      assert e in b <==> e in multiset(b);
      FoundIffMember(a, e);
      FoundIffMember(b, e);
      FirstMissingIgnoresOrder(a, b, expected[1..]);
    }
  }

  /** `find` with the item predicate succeeds exactly on members. */
  lemma FoundIffMember(actual: seq<CartItem>, e: CartItem)
    ensures Find(actual, SameItem(e)).Some? <==> e in actual
  {
    if e in actual {
      var i :| 0 <= i < |actual| && actual[i] == e;
      assert SameItem(e)(actual[i]);
    } else {
      forall i | 0 <= i < |actual| ensures !SameItem(e)(actual[i]) {
        assert actual[i] != e;
      }
    }
  }

  /**
   * Membership is not a one-to-one match: a cart holding two different
   * items passes a check that expects the first of them twice.
   */
  lemma MatchIsNotOneToOne(x: CartItem, y: CartItem)
    requires x != y
    ensures CartVerdict([x, y], [x, x]) == Pass
    ensures multiset([x, y]) != multiset([x, x])
  {
    assert [x, x][0] == x && [x, x][1] == x;
    assert multiset([x, y])[y] == 1 && multiset([x, x])[y] == 0;
  }
}
