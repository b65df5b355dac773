/** The shopping cart: the selected photos, whether the drawer is open, and
    the tiered price derived from the number of photos. */
module CartContext {
  import opened Seqs
  import opened Types

  // ---------------------------------------------------------------- pricing

  /** Price of one photo with no volume discount, in reais. */
  const BasePrice: nat := 12

  /** Price of every photo in a cart of `count` photos. */
  function UnitPrice(count: nat): (price: nat)
    ensures price == BasePrice || price == 7 || price == 5
    ensures price <= BasePrice
  {
    if count > 5 then 5
    else if count >= 3 then 7
    else BasePrice
  }

  /** The figures the cart exposes for a cart of `itemsCount` photos. */
  datatype Pricing = Pricing(itemsCount: nat, unitPrice: nat, subtotal: nat, total: nat, discount: nat)

  function PricingOf(count: nat): (p: Pricing)
    ensures p.itemsCount == count && p.unitPrice == UnitPrice(count)
    ensures p.subtotal == count * BasePrice
    ensures p.total == count * p.unitPrice
    ensures p.discount + p.total == p.subtotal
    ensures p.total <= p.subtotal
    ensures p.discount > 0 <==> count >= 3
  {
    var unit := UnitPrice(count);
    Pricing(count, unit, count * BasePrice, count * unit, count * (BasePrice - unit))
  }

  /** The share of the subtotal saved: `discount / subtotal`, or 0 for an
      empty cart. */
  function DiscountPercent(count: nat): (ratio: real)
    ensures count < 3 ==> ratio == 0.0
    ensures 3 <= count <= 5 ==> ratio == 5.0 / 12.0
    ensures count >= 6 ==> ratio == 7.0 / 12.0
  {
    var p := PricingOf(count);
    if p.subtotal > 0 then
      RatioOfMultiples(count, BasePrice - p.unitPrice, BasePrice);
      (p.discount as real) / (p.subtotal as real)
    else 0.0
  }

  lemma RatioOfMultiples(n: nat, a: nat, b: nat)
    requires n > 0 && b > 0
    ensures ((n * a) as real) / ((n * b) as real) == (a as real) / (b as real)
  {
    var x := (n * a) as real;
    var y := (n * b) as real;
    assert x == (n as real) * (a as real);
    assert y == (n as real) * (b as real);
  }

  /** Adding photos never raises the price of each photo. */
  lemma UnitPriceNonIncreasing(m: nat, n: nat)
    requires m <= n
    ensures UnitPrice(n) <= UnitPrice(m)
  {
  }

  /** The total is not monotone in the number of photos: the third photo
      and the sixth one make the cart cheaper. */
  lemma TotalDropsAtTiers()
    ensures PricingOf(2).total == 24 && PricingOf(3).total == 21
    ensures PricingOf(5).total == 35 && PricingOf(6).total == 30
    ensures PricingOf(3).discount == 15 && PricingOf(6).discount == 42
  {
  }

  // ------------------------------------------------------------ the items

  /** `items.some(p => p.id === id)`. */
  function HasId(items: seq<Photo>, id: string): (b: bool)
    ensures b <==> exists i :: 0 <= i < |items| && items[i].id == id
    decreases |items|
  {
    |items| > 0 && (items[0].id == id || HasId(items[1..], id))
  }

  /** No two photos in the cart share an id. */
  ghost predicate UniqueIds(items: seq<Photo>) {
    forall i, j :: 0 <= i < j < |items| ==> items[i].id != items[j].id
  }

  /** The list `addItem(photo)` leaves: unchanged when a photo with that id
      is already there, otherwise `photo` appended. */
  function WithPhoto(items: seq<Photo>, photo: Photo): (r: seq<Photo>)
    ensures items <= r && |r| <= |items| + 1
  {
    if HasId(items, photo.id) then items else items + [photo]
  }

  /** The filter predicate of `removeItem(id)`. */
  function OtherId(id: string): Photo -> bool {
    (p: Photo) => p.id != id
  }

  /** The list `removeItem(id)` leaves. */
  function WithoutId(items: seq<Photo>, id: string): (r: seq<Photo>)
    ensures IsSubsequence(r, items)
    ensures forall p :: p in r <==> p in items && p.id != id
  {
    Filter(items, OtherId(id))
  }

  /** After adding, the photo's id is in the cart, the old photos keep their
      places, and at most the new photo was appended. */
  lemma AddItemSpec(items: seq<Photo>, photo: Photo)
    ensures HasId(WithPhoto(items, photo), photo.id)
    ensures HasId(items, photo.id) ==> WithPhoto(items, photo) == items
    ensures !HasId(items, photo.id) ==> WithPhoto(items, photo) == items + [photo]
    ensures forall id :: HasId(WithPhoto(items, photo), id) <==> HasId(items, id) || id == photo.id
  {
    var r := WithPhoto(items, photo);
    forall id | HasId(items, id) || id == photo.id
      ensures HasId(r, id)
    {
      if !HasId(items, id) {
        assert r[|r| - 1] == photo;
      } else {
        var i :| 0 <= i < |items| && items[i].id == id;
        assert r[i] == items[i];
      }
    }
  }

  /** Adding the same photo twice is the same as adding it once. */
  lemma AddItemIdempotent(items: seq<Photo>, photo: Photo)
    ensures WithPhoto(WithPhoto(items, photo), photo) == WithPhoto(items, photo)
  {
    AddItemSpec(items, photo);
  }

  lemma AddItemKeepsUnique(items: seq<Photo>, photo: Photo)
    requires UniqueIds(items)
    ensures UniqueIds(WithPhoto(items, photo))
  {
  }

  /** After removing, no photo with the id is left, and every other photo
      stays, in its order. */
  lemma RemoveItemSpec(items: seq<Photo>, id: string)
    ensures !HasId(WithoutId(items, id), id)
    ensures forall p :: p in WithoutId(items, id) <==> p in items && p.id != id
    ensures IsSubsequence(WithoutId(items, id), items)
    ensures !HasId(items, id) ==> WithoutId(items, id) == items
  {
    var r := WithoutId(items, id);
    forall k | 0 <= k < |r|
      ensures r[k].id != id
    {
      assert r[k] in r;
    }
    if !HasId(items, id) {
      FilterKeepsAll(items, OtherId(id));
    }
  }

  /** A sub-list of a list with distinct ids has distinct ids. */
  lemma {:induction false} FilterKeepsUnique(items: seq<Photo>, f: Photo -> bool)
    requires UniqueIds(items)
    ensures UniqueIds(Filter(items, f))
    decreases |items|
  {
    if |items| > 0 {
      var rest := Filter(items[1..], f);
      FilterKeepsUnique(items[1..], f);
      if f(items[0]) {
        forall k | 0 <= k < |rest|
          ensures rest[k].id != items[0].id
        {
          assert rest[k] in items[1..];
        }
        assert Filter(items, f) == [items[0]] + rest;
      }
    }
  }

  lemma RemoveItemKeepsUnique(items: seq<Photo>, id: string)
    requires UniqueIds(items)
    ensures UniqueIds(WithoutId(items, id))
  {
    FilterKeepsUnique(items, OtherId(id));
  }

  /** Removing a photo that was just added restores the cart. */
  lemma AddThenRemove(items: seq<Photo>, photo: Photo)
    requires !HasId(items, photo.id)
    ensures WithoutId(WithPhoto(items, photo), photo.id) == items
  {
    var f := OtherId(photo.id);
    FilterAppend(items, [photo], f);
    FilterKeepsAll(items, f);
    assert Filter([photo], f) == [];
  }

  // -------------------------------------------------------- the provider

  /** The state the cart provider holds: the selected photos and whether the
      drawer is open. Every other figure is derived from these. */
  class Cart {
    var items: seq<Photo>
    var isCartOpen: bool

    ghost predicate Valid()
      reads this
    {
      UniqueIds(items)
    }

    constructor()
      ensures Valid()
      ensures items == [] && !isCartOpen
    {
      items := [];
      isCartOpen := false;
    }

    method AddItem(photo: Photo)
      requires Valid()
      modifies this
      ensures Valid()
      ensures items == WithPhoto(old(items), photo)
      ensures isCartOpen == old(isCartOpen)
    {
      AddItemKeepsUnique(items, photo);
      if !HasId(items, photo.id) {
        items := items + [photo];
      }
    }

    method RemoveItem(id: string)
      requires Valid()
      modifies this
      ensures Valid()
      ensures items == WithoutId(old(items), id)
      ensures isCartOpen == old(isCartOpen)
    {
      RemoveItemKeepsUnique(items, id);
      items := WithoutId(items, id);
    }

    function IsInCart(id: string): (b: bool)
      reads this
      ensures b <==> exists i :: 0 <= i < |items| && items[i].id == id
    {
      HasId(items, id)
    }

    method ClearCart()
      modifies this
      ensures Valid()
      ensures items == [] && isCartOpen == old(isCartOpen)
    {
      items := [];
    }

    method OpenCart()
      modifies this
      ensures isCartOpen && items == old(items)
    {
      isCartOpen := true;
    }

    method CloseCart()
      modifies this
      ensures !isCartOpen && items == old(items)
    {
      isCartOpen := false;
    }

    method ToggleCart()
      modifies this
      ensures isCartOpen == !old(isCartOpen) && items == old(items)
    {
      isCartOpen := !isCartOpen;
    }

    /** The figures derived from the items on every render. */
    function Figures(): (p: Pricing)
      reads this
      ensures p == PricingOf(|items|)
      ensures p.itemsCount == |items|
      ensures p.discount + p.total == p.subtotal
    {
      PricingOf(|items|)
    }
  }

  /** Adding a photo that is not in the cart and then removing it leaves the
      cart as it was. */
  method AddThenRemoveRestores(cart: Cart, photo: Photo)
    requires cart.Valid() && !cart.IsInCart(photo.id)
    modifies cart
    ensures cart.Valid()
    ensures cart.items == old(cart.items) && cart.isCartOpen == old(cart.isCartOpen)
  {
    ghost var before := cart.items;
    cart.AddItem(photo);
    cart.RemoveItem(photo.id);
    AddThenRemove(before, photo);
  }

  /** Toggling the drawer twice leaves it as it was. */
  method ToggleTwiceRestores(cart: Cart)
    modifies cart
    ensures cart.items == old(cart.items) && cart.isCartOpen == old(cart.isCartOpen)
  {
    cart.ToggleCart();
    cart.ToggleCart();
  }
}
