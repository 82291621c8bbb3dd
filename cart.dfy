/**
 * The storefront cart (`CartProvider` in lib/cart.tsx). Each reducer hands a
 * new array to `setItems`; here each is a function from the old list of
 * lines to the new one.
 */
module Cart {
  import opened Wrappers

  /** What the caller of `add` passes: a cart line without its quantity. */
  datatype Goods = Goods(slug: string, name: string, price: Option<int>, imageUrl: Option<string>)

  datatype CartItem = CartItem(slug: string, name: string, price: Option<int>, imageUrl: Option<string>, qty: int)

  type Items = seq<CartItem>

  /** `{ ...item, qty }`. */
  function WithQty(g: Goods, qty: int): CartItem {
    CartItem(g.slug, g.name, g.price, g.imageUrl, qty)
  }

  /** `{ ...x, qty }`. */
  function SetLineQty(x: CartItem, qty: int): CartItem {
    x.(qty := qty)
  }

  predicate HasSlug(items: Items, slug: string) {
    exists i :: 0 <= i < |items| && items[i].slug == slug
  }

  predicate UniqueSlugs(items: Items) {
    forall i, j :: 0 <= i < j < |items| ==> items[i].slug != items[j].slug
  }

  /** `arr.findIndex(x => x.slug === slug)`: the first matching position, or -1. */
  function FindIndex(items: Items, slug: string): (r: int)
    ensures -1 <= r < |items|
    ensures r == -1 <==> !HasSlug(items, slug)
    ensures r >= 0 ==> items[r].slug == slug && forall j :: 0 <= j < r ==> items[j].slug != slug
  {
    if items == [] then -1
    else if items[0].slug == slug then 0
    else
      var k := FindIndex(items[1..], slug);
      if k == -1 then
        assert forall i :: 1 <= i < |items| ==> items[i] == items[1..][i - 1];
        -1
      else
        k + 1
  }

  /** `add(item, qty)`: bump the quantity of the first line with the slug, or append a new line. */
  function Add(items: Items, g: Goods, qty: int): Items {
    var idx := FindIndex(items, g.slug);
    if idx >= 0 then items[idx := SetLineQty(items[idx], items[idx].qty + qty)]
    else items + [WithQty(g, qty)]
  }

  /** `remove(slug)`: `arr.filter(x => x.slug !== slug)`. */
  function Remove(items: Items, slug: string): (r: Items)
    ensures |r| <= |items|
  {
    if items == [] then []
    else if items[0].slug == slug then Remove(items[1..], slug)
    else [items[0]] + Remove(items[1..], slug)
  }

  /** `clear()`. */
  function Clear(): (r: Items)
    ensures |r| == 0
  {
    []
  }

  /** `setQty(slug, qty)`: `arr.map(x => x.slug === slug ? { ...x, qty } : x)`. */
  function SetQty(items: Items, slug: string, qty: int): (r: Items)
    ensures |r| == |items|
  {
    if items == [] then []
    else [if items[0].slug == slug then SetLineQty(items[0], qty) else items[0]] + SetQty(items[1..], slug, qty)
  }

  /** `count`: the sum of the quantities. */
  function Count(items: Items): int {
    if items == [] then 0 else items[0].qty + Count(items[1..])
  }

  /** `(it.price || 0)`: a missing price counts as zero. */
  function PriceOrZero(x: CartItem): int {
    match x.price
    case None => 0
    case Some(p) => p
  }

  /** `total`: the sum of price times quantity. */
  function Total(items: Items): int {
    if items == [] then 0 else PriceOrZero(items[0]) * items[0].qty + Total(items[1..])
  }

  function Reverse<T>(s: seq<T>): (r: seq<T>)
    ensures |r| == |s| && forall i :: 0 <= i < |s| ==> r[i] == s[|s| - 1 - i]
  {
    if s == [] then [] else Reverse(s[1..]) + [s[0]]
  }

  /** The mini-cart toast's `items.slice(-3).reverse()`. */
  function TopItems(items: Items): (r: Items)
    ensures |r| == if |items| < 3 then |items| else 3
    ensures forall i :: 0 <= i < |r| ==> r[i] == items[|items| - 1 - i]
  {
    Reverse(items[if |items| < 3 then 0 else |items| - 3..])
  }

  // ---------------------------------------------------------------------
  // Properties
  // ---------------------------------------------------------------------

  lemma {:induction false} CountAppend(a: Items, b: Items)
    ensures Count(a + b) == Count(a) + Count(b)
  {
    if a != [] {
      assert (a + b)[1..] == a[1..] + b;
      CountAppend(a[1..], b);
    } else {
      assert a + b == b;
    }
  }

  lemma {:induction false} TotalAppend(a: Items, b: Items)
    ensures Total(a + b) == Total(a) + Total(b)
  {
    if a != [] {
      assert (a + b)[1..] == a[1..] + b;
      TotalAppend(a[1..], b);
    } else {
      assert a + b == b;
    }
  }

  /** Replacing one line changes the count by the difference of its quantities. */
  lemma {:induction false} CountUpdate(items: Items, i: nat, x: CartItem)
    requires i < |items|
    ensures Count(items[i := x]) == Count(items) - items[i].qty + x.qty
  {
    if i > 0 {
      assert items[i := x][1..] == items[1..][i - 1 := x];
      CountUpdate(items[1..], i - 1, x);
    }
  }

  /**
   * Adding an existing slug keeps the length and every position; only the
   * first line with that slug changes, and only its quantity, by `qty`.
   */
  lemma AddExisting(items: Items, g: Goods, qty: int)
    requires HasSlug(items, g.slug)
    ensures var r := Add(items, g, qty);
      var idx := FindIndex(items, g.slug);
      |r| == |items| && 0 <= idx
      && r[idx] == items[idx].(qty := items[idx].qty + qty)
      && (forall j :: 0 <= j < |items| && j != idx ==> r[j] == items[j])
      && Count(r) == Count(items) + qty
  {
    var idx := FindIndex(items, g.slug);
    CountUpdate(items, idx, SetLineQty(items[idx], items[idx].qty + qty));
  }

  /** Adding a new slug appends exactly `{ ...item, qty }` at the end. */
  lemma AddNew(items: Items, g: Goods, qty: int)
    requires !HasSlug(items, g.slug)
    ensures Add(items, g, qty) == items + [WithQty(g, qty)]
    ensures Count(Add(items, g, qty)) == Count(items) + qty
    ensures TopItems(Add(items, g, qty))[0] == WithQty(g, qty)
  {
    CountAppend(items, [WithQty(g, qty)]);
  }

  /** Whatever the cart holds, `add` changes the count by `qty` and leaves the slug present. */
  lemma AddCount(items: Items, g: Goods, qty: int)
    ensures Count(Add(items, g, qty)) == Count(items) + qty
    ensures HasSlug(Add(items, g, qty), g.slug)
  {
    if HasSlug(items, g.slug) {
      AddExisting(items, g, qty);
      var idx := FindIndex(items, g.slug);
      assert Add(items, g, qty)[idx].slug == g.slug;
    } else {
      AddNew(items, g, qty);
      assert Add(items, g, qty)[|items|].slug == g.slug;
    }
  }

  /** A cart built only through `add` never holds two lines with one slug. */
  lemma AddUnique(items: Items, g: Goods, qty: int)
    requires UniqueSlugs(items)
    ensures UniqueSlugs(Add(items, g, qty))
  {
    var r := Add(items, g, qty);
    if !HasSlug(items, g.slug) {
      forall i, j | 0 <= i < j < |r| ensures r[i].slug != r[j].slug {
        if j == |items| {
          assert r[i] == items[i];
        }
      }
    }
  }

  /** No line with the removed slug survives; the other lines all do. */
  lemma {:induction false} RemoveSpec(items: Items, slug: string)
    ensures !HasSlug(Remove(items, slug), slug)
    ensures forall x :: x in Remove(items, slug) <==> x in items && x.slug != slug
  {
    if items != [] {
      RemoveSpec(items[1..], slug);
      var r := Remove(items, slug);
      var t := Remove(items[1..], slug);
      if items[0].slug != slug {
        assert r == [items[0]] + t;
        forall i | 0 <= i < |r| ensures r[i].slug != slug {
          if i > 0 { assert r[i] == t[i - 1]; }
        }
      }
      assert items == [items[0]] + items[1..];
    }
  }

  /** Removing distributes over concatenation: the kept lines stay in their order. */
  lemma {:induction false} RemoveAppend(a: Items, b: Items, slug: string)
    ensures Remove(a + b, slug) == Remove(a, slug) + Remove(b, slug)
  {
    if a != [] {
      assert (a + b)[1..] == a[1..] + b;
      RemoveAppend(a[1..], b, slug);
    } else {
      assert a + b == b;
    }
  }

  /** Removing a slug the cart does not hold changes nothing. */
  lemma {:induction false} RemoveAbsent(items: Items, slug: string)
    requires !HasSlug(items, slug)
    ensures Remove(items, slug) == items
  {
    if items != [] {
      assert !HasSlug(items[1..], slug) by {
        forall i | 0 <= i < |items[1..]| ensures items[1..][i].slug != slug {
          assert items[1..][i] == items[i + 1];
        }
      }
      RemoveAbsent(items[1..], slug);
    }
  }

  /** Removing a just-added new slug gives back the cart as it was. */
  lemma RemoveAfterAdd(items: Items, g: Goods, qty: int)
    requires !HasSlug(items, g.slug)
    ensures Remove(Add(items, g, qty), g.slug) == items
  {
    AddNew(items, g, qty);
    RemoveAppend(items, [WithQty(g, qty)], g.slug);
    RemoveAbsent(items, g.slug);
  }

  /** `setQty` changes only the quantity of the lines with that slug. */
  lemma {:induction false} SetQtySpec(items: Items, slug: string, qty: int)
    ensures var r := SetQty(items, slug, qty);
      forall i :: 0 <= i < |items| ==>
        r[i] == if items[i].slug == slug then items[i].(qty := qty) else items[i]
  {
    if items != [] {
      SetQtySpec(items[1..], slug, qty);
      var r := SetQty(items, slug, qty);
      forall i | 1 <= i < |items|
        ensures r[i] == if items[i].slug == slug then items[i].(qty := qty) else items[i]
      {
        assert r[i] == SetQty(items[1..], slug, qty)[i - 1] && items[i] == items[1..][i - 1];
      }
    }
  }

  /** On a cart with distinct slugs, `add` of an existing slug is `setQty` to the summed quantity. */
  lemma AddIsSetQty(items: Items, g: Goods, qty: int)
    requires UniqueSlugs(items) && HasSlug(items, g.slug)
    ensures var idx := FindIndex(items, g.slug);
      0 <= idx && Add(items, g, qty) == SetQty(items, g.slug, items[idx].qty + qty)
  {
    var idx := FindIndex(items, g.slug);
    AddExisting(items, g, qty);
    SetQtySpec(items, g.slug, items[idx].qty + qty);
  }

  /** A cart with no lines has count and total zero; `clear` gives one. */
  lemma ClearEmpty()
    ensures Count(Clear()) == 0 && Total(Clear()) == 0 && TopItems(Clear()) == []
  {
  }

  /** Lines without a price add nothing to the total; a single priced line adds price times quantity. */
  lemma TotalOfNewLine(items: Items, g: Goods, qty: int)
    requires !HasSlug(items, g.slug)
    ensures Total(Add(items, g, qty)) == Total(items) + (if g.price.Some? then g.price.value * qty else 0)
  {
    AddNew(items, g, qty);
    TotalAppend(items, [WithQty(g, qty)]);
  }
}
