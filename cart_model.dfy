/**
 * The expected state of the storefront's cart as the tests drive it: an
 * ordered list of the products added (insertion order), at most one line per
 * product name. Each product shows exactly one of its two controls, "Add to
 * cart" while it is out of the cart and "Remove" while it is in; the cart
 * badge shows the number of lines, and is absent when the cart is empty.
 */
module CartModel {
  import opened Wrappers
  import opened Seqs
  import opened Interfaces
  import opened JsNumbers

  /** The product names of the cart lines, in cart order. */
  function Names(items: seq<CartItem>): (r: seq<string>)
    ensures |r| == |items|
    ensures forall i :: 0 <= i < |items| ==> r[i] == items[i].name
  {
    if |items| == 0 then [] else [items[0].name] + Names(items[1..])
  }

  predicate InCart(items: seq<CartItem>, name: string) {
    name in Names(items)
  }

  /** A cart holds each product at most once. */
  predicate WellFormed(items: seq<CartItem>) {
    Distinct(Names(items))
  }

  /** Clicking a product's add control: the product joins the end of the cart; with no add control shown, nothing changes. */
  function Added(items: seq<CartItem>, item: CartItem): seq<CartItem> {
    if InCart(items, item.name) then items else items + [item]
  }

  /**
   * A click on an add control never loses or reorders a line: the old cart is
   * a prefix of the new one, which holds the product, and a product already in
   * the cart leaves it unchanged.
   */
  lemma AddedKeepsLines(items: seq<CartItem>, item: CartItem)
    ensures items <= Added(items, item) && |Added(items, item)| <= |items| + 1
    ensures InCart(Added(items, item), item.name)
    ensures InCart(items, item.name) ==> Added(items, item) == items
  {
    if !InCart(items, item.name) {
      NamesAppend(items, [item]);
      assert Names([item]) == [item.name];
      assert Names(items + [item])[|items|] == item.name;
    }
  }

  /** Clicking a product's remove control: its line leaves the cart, the others keep their order. */
  function Removed(items: seq<CartItem>, name: string): (r: seq<CartItem>)
    ensures |r| <= |items|
    ensures !InCart(r, name)
    ensures multiset(r) <= multiset(items)
  {
    if |items| == 0 then []
    else if items[0].name == name then
      assert items == [items[0]] + items[1..];
      Removed(items[1..], name)
    else
      var rest := Removed(items[1..], name);
      NamesCons(items[0], rest);
      assert items == [items[0]] + items[1..];
      [items[0]] + rest
  }

  /** The names of a cart with one more line in front. */
  lemma NamesCons(item: CartItem, items: seq<CartItem>)
    ensures Names([item] + items) == [item.name] + Names(items)
  {
    assert ([item] + items)[1..] == items;
  }

  /** The two mutually exclusive controls a product can show. */
  datatype Control = AddToCartButton | RemoveButton

  /** The control a product shows: "Remove" exactly while it is in the cart. */
  function ShownControl(items: seq<CartItem>, name: string): Control {
    if InCart(items, name) then RemoveButton else AddToCartButton
  }

  /** The cart badge text: the number of lines, absent for an empty cart. */
  function Badge(items: seq<CartItem>): (r: Option<string>)
    ensures r.Some? <==> |items| > 0
    ensures r.Some? ==> ParseInt(r.value) == Num(|items|)
  {
    if |items| > 0 then
      ParseIntDecimalString(|items|);
      Some(DecimalString(|items|))
    else None
  }

  /** The expected badge for a count the test computes: its decimal text when positive, absent at 0. */
  function ExpectedBadge(count: nat): Option<string> {
    if count > 0 then Some(DecimalString(count)) else None
  }

  /** The text content of the cart link, which holds the badge when there is one. */
  function CartLinkText(items: seq<CartItem>): Option<string> {
    Some(if |items| > 0 then DecimalString(|items|) else "")
  }

  lemma {:induction false} RemovedAbsent(items: seq<CartItem>, name: string)
    requires !InCart(items, name)
    ensures Removed(items, name) == items
  {
    if |items| > 0 {
      assert Names(items) == [items[0].name] + Names(items[1..]);
      RemovedAbsent(items[1..], name);
      assert [items[0]] + items[1..] == items;
    }
  }

  lemma {:induction false} RemovedNames(items: seq<CartItem>, name: string, other: string)
    ensures InCart(Removed(items, name), other) <==> InCart(items, other) && other != name
  {
    if |items| > 0 {
      RemovedNames(items[1..], name, other);
      assert Names(items) == [items[0].name] + Names(items[1..]);
      if items[0].name != name {
        NamesCons(items[0], Removed(items[1..], name));
      }
    }
  }

  lemma {:induction false} NamesAppend(a: seq<CartItem>, b: seq<CartItem>)
    ensures Names(a + b) == Names(a) + Names(b)
  {
    assert |Names(a + b)| == |Names(a) + Names(b)|;
    forall i | 0 <= i < |a| + |b| ensures Names(a + b)[i] == (Names(a) + Names(b))[i] {
      if i < |a| { assert (a + b)[i] == a[i]; } else { assert (a + b)[i] == b[i - |a|]; }
    }
  }

  /** Adding a product that is not in the cart and then removing it restores the cart exactly. */
  lemma AddThenRemove(items: seq<CartItem>, item: CartItem)
    requires !InCart(items, item.name)
    ensures Removed(Added(items, item), item.name) == items
  {
    RemovedAbsent(items, item.name);
    RemovedAppend(items, [item], item.name);
    assert Removed([item], item.name) == [] by {
      assert [item][1..] == [];
    }
    assert items + [] == items;
  }

  lemma {:induction false} RemovedAppend(a: seq<CartItem>, b: seq<CartItem>, name: string)
    ensures Removed(a + b, name) == Removed(a, name) + Removed(b, name)
  {
    if |a| == 0 {
      assert a + b == b;
    } else {
      assert (a + b)[0] == a[0];
      assert (a + b)[1..] == a[1..] + b;
      RemovedAppend(a[1..], b, name);
      if a[0].name != name {
        assert [a[0]] + (Removed(a[1..], name) + Removed(b, name)) == ([a[0]] + Removed(a[1..], name)) + Removed(b, name);
      }
    }
  }

  /** Adding an absent product appends exactly one line and keeps the cart well formed. */
  lemma AddedGrows(items: seq<CartItem>, item: CartItem)
    requires WellFormed(items) && !InCart(items, item.name)
    ensures Added(items, item) == items + [item]
    ensures |Added(items, item)| == |items| + 1
    ensures WellFormed(Added(items, item))
  {
    NamesAppend(items, [item]);
    assert Names([item]) == [item.name];
  }

  /** Removing the first line of a well-formed cart leaves exactly the remaining lines. */
  lemma RemovedHead(items: seq<CartItem>)
    requires WellFormed(items) && |items| > 0
    ensures Removed(items, items[0].name) == items[1..]
    ensures WellFormed(items[1..])
  {
    assert Names(items) == [items[0].name] + Names(items[1..]);
    RemovedAbsentHead(items);
    RemovedAbsent(items[1..], items[0].name);
    assert WellFormed(items[1..]) by {
      forall i, j | 0 <= i < j < |items[1..]| ensures Names(items[1..])[i] != Names(items[1..])[j] {
        assert Names(items)[i + 1] != Names(items)[j + 1];
      }
    }
  }

  /** After its add control is clicked a product shows "Remove"; after its remove control, "Add to cart" again. */
  lemma ControlsTrackTheCart(items: seq<CartItem>, item: CartItem, name: string)
    ensures ShownControl(Added(items, item), item.name) == RemoveButton
    ensures ShownControl(Removed(items, name), name) == AddToCartButton
  {
    if !InCart(items, item.name) {
      NamesAppend(items, [item]);
      assert Names([item]) == [item.name];
      assert Names(items + [item])[|items|] == item.name;
    }
    RemovedNames(items, name, name);
  }

  /** The storefront's cart, clicked step by step. */
  class Cart {
    var items: seq<CartItem>

    ghost predicate Valid()
      reads this
    {
      WellFormed(items)
    }

    constructor ()
      ensures Valid() && items == []
    {
      items := [];
    }

    /** Click the product's "Add to cart" control; `clicked` is false when it does not show one. */
    method ClickAdd(item: CartItem) returns (clicked: bool)
      requires Valid()
      modifies this
      ensures Valid()
      ensures clicked <==> !InCart(old(items), item.name)
      ensures items == Added(old(items), item)
    {
      clicked := !InCart(items, item.name);
      if clicked {
        AddedGrows(items, item);
        items := items + [item];
      }
    }

    /** Click the product's "Remove" control; `clicked` is false when it does not show one. */
    method ClickRemove(name: string) returns (clicked: bool)
      requires Valid()
      modifies this
      ensures Valid()
      ensures clicked <==> InCart(old(items), name)
      ensures items == Removed(old(items), name)
    {
      clicked := InCart(items, name);
      RemovedKeepsWellFormed(items, name);
      items := Removed(items, name);
    }

    function CurrentBadge(): Option<string>
      reads this
    {
      Badge(items)
    }

    function Control(name: string): Control
      reads this
    {
      ShownControl(items, name)
    }
  }

  lemma {:induction false} RemovedKeepsWellFormed(items: seq<CartItem>, name: string)
    requires WellFormed(items)
    ensures WellFormed(Removed(items, name))
  {
    if |items| > 0 {
      RemovedHead(items);
      RemovedKeepsWellFormed(items[1..], name);
      var rest := Removed(items[1..], name);
      if items[0].name != name {
        assert !InCart(rest, items[0].name) by {
          RemovedNames(items[1..], name, items[0].name);
          assert !InCart(items[1..], items[0].name) by {
            RemovedAbsentHead(items);
          }
        }
        NamesCons(items[0], rest);
        var ns := Names([items[0]] + rest);
        forall i, j | 0 <= i < j < |ns| ensures ns[i] != ns[j] {
          if i == 0 { assert ns[j] == Names(rest)[j - 1]; }
          else { assert ns[i] == Names(rest)[i - 1] && ns[j] == Names(rest)[j - 1]; }
        }
      } else {
        assert [] + rest == rest;
      }
    }
  }

  lemma RemovedAbsentHead(items: seq<CartItem>)
    requires WellFormed(items) && |items| > 0
    ensures !InCart(items[1..], items[0].name)
  {
    assert Names(items) == [items[0].name] + Names(items[1..]);
    forall j | 0 <= j < |items[1..]| ensures Names(items[1..])[j] != items[0].name {
      assert Names(items)[j + 1] != Names(items)[0];
    }
  }
}
