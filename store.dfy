/** The storefront's `state` object in app.js and the functions that change it
    in place: the catalogue, the cart, the wishlist and the current
    recommendations (the display preferences are not modelled). Saving to and
    loading from `localStorage` is left out: the saved cart and wishlist come in
    as constructor parameters, and the saves after each change are dropped. */
module Store {
  import opened Lists
  import opened Catalog
  import opened Cart
  import opened Recommend

  class Store {
    /** Filled once by `seedProducts` and never changed afterwards. */
    const products: seq<Product>
    var cart: seq<CartLine>
    var wishlist: seq<string>
    var recommendations: seq<Product>

    /** One line per id with a positive quantity, no repeated wishlist ids. */
    ghost predicate Valid()
      reads this
    {
      ValidCart(cart) && ValidWishlist(wishlist)
    }

    /** `init`: the saved cart and wishlist, the demo catalogue, and the
        recommendations for the first demo product. */
    constructor(savedCart: seq<CartLine>, savedWishlist: seq<string>)
      ensures products == SeedProducts()
      ensures cart == savedCart && wishlist == savedWishlist
      ensures recommendations == RecommendOrKeep([], SeedProducts(), "p1")
    {
      products := SeedProducts();
      cart := savedCart;
      wishlist := savedWishlist;
      recommendations := [];
      new;
      RecommendFrom("p1");
    }

    /** `state.cart.find(c => c.id === id)`, as an index. */
    method FindLine(id: string) returns (i: nat)
      ensures i <= |cart|
      ensures FirstIndex(cart, LineFor(id)) == if i < |cart| then Some(i) else None
      ensures i < |cart| ==> FirstLineAt(cart, id, i)
    {
      i := 0;
      while i < |cart| && cart[i].id != id
        invariant i <= |cart|
        invariant forall j :: 0 <= j < i ==> cart[j].id != id
      {
        i := i + 1;
      }
      if i < |cart| {
        FirstIndexOf(cart, id, i);
      } else {
        assert forall j :: 0 <= j < |cart| ==> !LineFor(id)(cart[j]);
      }
    }

    /** `recommendFrom(id)`: replaces the recommendations for a known id and
        leaves them alone for an unknown one. */
    method RecommendFrom(id: string)
      modifies this
      ensures recommendations == RecommendOrKeep(old(recommendations), products, id)
      ensures (forall p :: p in products ==> p.id != id) ==> recommendations == old(recommendations)
      ensures cart == old(cart) && wishlist == old(wishlist)
    {
      var base := FindProduct(products, id);
      if base.Some? {
        recommendations := TakeThree(SortByScore(base.value, Others(products, id)));
      }
    }

    /** `addToCart(id)`: one more of the product (a new line of one if it had
        none), then the recommendations follow the product just added. */
    method AddToCart(id: string)
      modifies this
      ensures cart == AddLine(old(cart), id)
      ensures wishlist == old(wishlist)
      ensures recommendations == RecommendOrKeep(old(recommendations), products, id)
      ensures old(Valid()) ==> Valid()
    {
      ghost var before := cart;
      var i := FindLine(id);
      if i < |cart| {
        AddLineAt(cart, id, i);
        cart := cart[i := cart[i].(qty := cart[i].qty + 1)];
      } else {
        cart := cart + [CartLine(id, 1)];
      }
      if ValidCart(before) {
        AddLineValid(before, id);
      }
      RecommendFrom(id);
    }

    /** `changeQty(id, delta)`: nothing without a line for `id`; otherwise the
        quantity moves by `delta` and the product leaves the cart once it
        reaches zero. */
    method ChangeQty(id: string, delta: int)
      modifies this
      ensures cart == ChangeLine(old(cart), id, delta)
      ensures wishlist == old(wishlist) && recommendations == old(recommendations)
      ensures old(Valid()) ==> Valid()
    {
      ghost var before := cart;
      var i := FindLine(id);
      if i == |cart| {
        return;
      }
      ChangeLineAt(cart, id, delta, i);
      var qty := cart[i].qty + delta;
      if qty <= 0 {
        cart := RemoveLines(cart, id);
      } else {
        cart := cart[i := cart[i].(qty := qty)];
      }
      if ValidCart(before) {
        ChangeLineValid(before, id, delta);
      }
    }

    /** `removeFromCart(id)`. */
    method RemoveFromCart(id: string)
      modifies this
      ensures cart == RemoveLines(old(cart), id)
      ensures wishlist == old(wishlist) && recommendations == old(recommendations)
      ensures old(Valid()) ==> Valid()
    {
      ghost var before := cart;
      cart := RemoveLines(cart, id);
      if ValidCart(before) {
        RemoveLinesValid(before, id);
      }
    }

    /** `toggleWishlist(id, toggle)`. */
    method ToggleWishlist(id: string, toggle: bool)
      modifies this
      ensures wishlist == ToggleWish(old(wishlist), id, toggle)
      ensures cart == old(cart) && recommendations == old(recommendations)
      ensures old(Valid()) ==> Valid()
    {
      ghost var before := wishlist;
      wishlist := ToggleWish(wishlist, id, toggle);
      if ValidWishlist(before) {
        ToggleWishValid(before, id, toggle);
      }
    }

    /** The wishlist's "move to cart" button: add the product to the cart,
        then take it off the wishlist. */
    method MoveToCart(id: string)
      modifies this
      ensures cart == AddLine(old(cart), id)
      ensures wishlist == ToggleWish(old(wishlist), id, false) && id !in wishlist
      ensures recommendations == RecommendOrKeep(old(recommendations), products, id)
      ensures old(Valid()) ==> Valid()
    {
      AddToCart(id);
      ToggleWishlist(id, false);
      ToggleWishMembership(old(wishlist), id);
    }

    /** The subtotal `renderCart` accumulates line by line, skipping lines
        whose id the catalogue does not have. */
    method Subtotal() returns (total: int)
      ensures total == CartTotal(products, cart)
    {
      total := 0;
      var i := 0;
      while i < |cart|
        invariant i <= |cart|
        invariant total + CartTotal(products, cart[i..]) == CartTotal(products, cart)
      {
        assert cart[i..][1..] == cart[i + 1..];
        var p := FindProduct(products, cart[i].id);
        if p.Some? {
          total := total + p.value.price * cart[i].qty;
        }
        i := i + 1;
      }
    }
  }
}
