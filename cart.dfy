/** The cart and the wishlist as values: what `addToCart`, `changeQty`,
    `removeFromCart` and `toggleWishlist` in app.js make of `state.cart` and
    `state.wishlist`, and the subtotal `renderCart` adds up. The class in
    module Store applies these to its fields. */
module Cart {
  import opened Lists
  import opened Catalog

  /** One entry of `state.cart`: a product id and a quantity. */
  datatype CartLine = CartLine(id: string, qty: int)

  function LineFor(id: string): CartLine -> bool
  {
    (l: CartLine) => l.id == id
  }

  function OtherLine(id: string): CartLine -> bool
  {
    (l: CartLine) => l.id != id
  }

  function OtherId(id: string): string -> bool
  {
    (x: string) => x != id
  }

  function DifferentIds(): (CartLine, CartLine) -> bool
  {
    (a: CartLine, b: CartLine) => a.id != b.id
  }

  /** The quantity on the line `state.cart.find(c => c.id === id)` returns,
      or 0 when there is none. */
  function QtyOf(cart: seq<CartLine>, id: string): int
  {
    match FirstIndex(cart, LineFor(id))
    case None => 0
    case Some(i) => cart[i].qty
  }

  /** A cart the operations below build from an empty one: one line per id,
      each with a positive quantity. */
  predicate ValidCart(cart: seq<CartLine>)
  {
    Pairwise(cart, DifferentIds()) && forall l :: l in cart ==> l.qty >= 1
  }

  /** A wishlist without repeated ids. */
  predicate ValidWishlist(wishlist: seq<string>)
  {
    forall i, j :: 0 <= i < j < |wishlist| ==> wishlist[i] != wishlist[j]
  }

  /** `addToCart`'s change to the cart: one more on the first line for `id`,
      or a new line with quantity 1 at the end. The id is not looked up in
      the catalogue. */
  function AddLine(cart: seq<CartLine>, id: string): seq<CartLine>
  {
    match FirstIndex(cart, LineFor(id))
    case Some(i) => cart[i := cart[i].(qty := cart[i].qty + 1)]
    case None => cart + [CartLine(id, 1)]
  }

  /** `removeFromCart`: every line for `id` is dropped. */
  function RemoveLines(cart: seq<CartLine>, id: string): seq<CartLine>
  {
    Filter(cart, OtherLine(id))
  }

  /** `changeQty`: nothing happens without a line for `id`; otherwise the first
      such line moves by `delta`, and when that leaves it at zero or below,
      every line for `id` is dropped. */
  function ChangeLine(cart: seq<CartLine>, id: string, delta: int): seq<CartLine>
  {
    match FirstIndex(cart, LineFor(id))
    case None => cart
    case Some(i) =>
      if cart[i].qty + delta <= 0 then RemoveLines(cart, id)
      else cart[i := cart[i].(qty := cart[i].qty + delta)]
  }

  /** `toggleWishlist(id, toggle)`: with `toggle`, removes `id` when it is
      present and appends it when it is not; without, removes it. */
  function ToggleWish(wishlist: seq<string>, id: string, toggle: bool): seq<string>
  {
    if toggle && id !in wishlist then wishlist + [id]
    else Filter(wishlist, OtherId(id))
  }

  /** One line's share of the subtotal: price times quantity, or nothing when
      no catalogue product has the line's id. */
  function LineTotal(products: seq<Product>, l: CartLine): int
  {
    match FindProduct(products, l.id)
    case None => 0
    case Some(p) => p.price * l.qty
  }

  /** The subtotal `renderCart` shows, before currency formatting. */
  function CartTotal(products: seq<Product>, cart: seq<CartLine>): int
  {
    if cart == [] then 0 else LineTotal(products, cart[0]) + CartTotal(products, cart[1..])
  }

  // ---------------------------------------------------------------------------
  // Finding lines

  /** The first line for `id` sits at index `i`. */
  predicate FirstLineAt(cart: seq<CartLine>, id: string, i: nat)
  {
    i < |cart| && cart[i].id == id && forall j :: 0 <= j < i ==> cart[j].id != id
  }

  /** `AddLine` on a cart whose first line for `id` sits at `i`. */
  lemma AddLineAt(cart: seq<CartLine>, id: string, i: nat)
    requires FirstLineAt(cart, id, i)
    ensures AddLine(cart, id) == cart[i := cart[i].(qty := cart[i].qty + 1)]
  {
    FirstIndexOf(cart, id, i);
  }

  /** `ChangeLine` on a cart whose first line for `id` sits at `i`. */
  lemma ChangeLineAt(cart: seq<CartLine>, id: string, delta: int, i: nat)
    requires FirstLineAt(cart, id, i)
    ensures cart[i].qty + delta <= 0 ==> ChangeLine(cart, id, delta) == RemoveLines(cart, id)
    ensures cart[i].qty + delta > 0 ==>
      ChangeLine(cart, id, delta) == cart[i := cart[i].(qty := cart[i].qty + delta)]
  {
    FirstIndexOf(cart, id, i);
  }

  lemma FirstIndexOf(cart: seq<CartLine>, id: string, i: nat)
    requires i < |cart| && cart[i].id == id
    requires forall j :: 0 <= j < i ==> cart[j].id != id
    ensures FirstIndex(cart, LineFor(id)) == Some(i)
  {
    assert LineFor(id)(cart[i]);
  }

  /** `QtyOf` is 0 exactly when no line has the id, in a valid cart. */
  lemma QtyOfValid(cart: seq<CartLine>, id: string)
    requires ValidCart(cart)
    ensures QtyOf(cart, id) == 0 <==> forall l :: l in cart ==> l.id != id
  {
    if FirstIndex(cart, LineFor(id)).None? {
      forall l | l in cart ensures l.id != id {
        var j :| 0 <= j < |cart| && cart[j] == l;
        assert !LineFor(id)(cart[j]);
      }
    }
  }

  // ---------------------------------------------------------------------------
  // addToCart

  /** No line has the id. */
  predicate NoLineFor(cart: seq<CartLine>, id: string)
  {
    forall l :: l in cart ==> l.id != id
  }

  /** Without a line for `id`, the search comes back empty. */
  lemma NoLineNoIndex(cart: seq<CartLine>, id: string)
    requires NoLineFor(cart, id)
    ensures FirstIndex(cart, LineFor(id)).None?
  {
    forall j | 0 <= j < |cart| ensures !LineFor(id)(cart[j]) {
      assert cart[j] in cart;
    }
  }

  /** Without a line for `id`, adding appends `{id, qty: 1}` at the end. */
  lemma AddLineAbsent(cart: seq<CartLine>, id: string)
    requires NoLineFor(cart, id)
    ensures AddLine(cart, id) == cart + [CartLine(id, 1)]
  {
    NoLineNoIndex(cart, id);
  }

  /** Adding raises the quantity for `id` by one (from 0 when it had no line). */
  lemma AddLineQty(cart: seq<CartLine>, id: string)
    ensures QtyOf(AddLine(cart, id), id) == QtyOf(cart, id) + 1
  {
    var r := AddLine(cart, id);
    match FirstIndex(cart, LineFor(id))
    case Some(i) =>
      FirstIndexOf(r, id, i);
    case None =>
      forall j | 0 <= j < |cart| ensures r[j].id != id {
        assert r[j] == cart[j] && !LineFor(id)(cart[j]);
      }
      FirstIndexOf(r, id, |cart|);
  }

  /** Adding leaves the other lines as they were, in the same order. */
  lemma AddLineOthers(cart: seq<CartLine>, id: string)
    ensures RemoveLines(AddLine(cart, id), id) == RemoveLines(cart, id)
  {
    var fi := FirstIndex(cart, LineFor(id));
    if fi.Some? {
      var i := fi.value;
      assert LineFor(id)(cart[i]);
      var v := cart[i].(qty := cart[i].qty + 1);
      assert AddLine(cart, id) == cart[i := v];
      FilterUpdateDropped(cart, i, v, OtherLine(id));
    } else {
      assert AddLine(cart, id) == cart + [CartLine(id, 1)];
      FilterSnoc(cart, CartLine(id, 1), OtherLine(id));
    }
  }

  /** Adding keeps a cart valid. */
  lemma AddLineValid(cart: seq<CartLine>, id: string)
    requires ValidCart(cart)
    ensures ValidCart(AddLine(cart, id))
  {
    var r := AddLine(cart, id);
    match FirstIndex(cart, LineFor(id))
    case Some(i) =>
      forall a, b | 0 <= a < b < |r| ensures DifferentIds()(r[a], r[b]) {
        assert DifferentIds()(cart[a], cart[b]);
      }
    case None =>
      forall a, b | 0 <= a < b < |r| ensures DifferentIds()(r[a], r[b]) {
        if b < |cart| {
          assert DifferentIds()(cart[a], cart[b]);
        } else {
          assert !LineFor(id)(cart[a]);
        }
      }
  }

  lemma AddThenDecrementPresent(cart: seq<CartLine>, id: string, i: nat)
    requires ValidCart(cart) && FirstLineAt(cart, id, i)
    ensures ChangeLine(AddLine(cart, id), id, -1) == cart
  {
    AddLineAt(cart, id, i);
    var v := cart[i].(qty := cart[i].qty + 1);
    var r := cart[i := v];
    assert cart[i] in cart;
    assert v.qty - 1 >= 1;
    FirstIndexOf(r, id, i);
    ChangeLineAt(r, id, -1, i);
    assert r[i := v.(qty := v.qty - 1)] == cart;
  }

  lemma AddThenDecrementAbsent(cart: seq<CartLine>, id: string)
    requires FirstIndex(cart, LineFor(id)).None?
    ensures ChangeLine(AddLine(cart, id), id, -1) == cart
  {
    var r := cart + [CartLine(id, 1)];
    assert AddLine(cart, id) == r;
    forall j | 0 <= j < |cart| ensures r[j].id != id {
      assert r[j] == cart[j] && !LineFor(id)(cart[j]);
    }
    FirstIndexOf(r, id, |cart|);
    assert ChangeLine(r, id, -1) == RemoveLines(r, id);
    AddLineOthers(cart, id);
    forall l | l in cart ensures OtherLine(id)(l) {
      var j :| 0 <= j < |cart| && cart[j] == l;
      assert !LineFor(id)(cart[j]);
    }
    FilterKeepsAll(cart, OtherLine(id));
  }

  /** `changeQty(id, -1)` undoes `addToCart(id)` on a valid cart. */
  lemma AddThenDecrement(cart: seq<CartLine>, id: string)
    requires ValidCart(cart)
    ensures ChangeLine(AddLine(cart, id), id, -1) == cart
  {
    var fi := FirstIndex(cart, LineFor(id));
    if fi.Some? {
      AddThenDecrementPresent(cart, id, fi.value);
    } else {
      AddThenDecrementAbsent(cart, id);
    }
  }

  /** Adding the first product twice to an empty cart gives one line of two. */
  lemma AddTwiceFromEmpty()
    ensures AddLine(AddLine([], "p1"), "p1") == [CartLine("p1", 2)]
  {
    assert AddLine([], "p1") == [CartLine("p1", 1)];
    FirstIndexOf([CartLine("p1", 1)], "p1", 0);
  }

  // ---------------------------------------------------------------------------
  // removeFromCart and changeQty

  /** After removal no line has the id; the others keep their order. */
  lemma RemoveLinesSpec(cart: seq<CartLine>, id: string)
    ensures QtyOf(RemoveLines(cart, id), id) == 0
    ensures forall l :: l in RemoveLines(cart, id) <==> l in cart && l.id != id
    ensures IsSubsequence(RemoveLines(cart, id), cart)
    ensures RemoveLines(RemoveLines(cart, id), id) == RemoveLines(cart, id)
  {
    var r := RemoveLines(cart, id);
    forall j | 0 <= j < |r| ensures !LineFor(id)(r[j]) {
      assert r[j] in r;
    }
    FilterIdempotent(cart, OtherLine(id));
  }

  /** Removal keeps a cart valid. */
  lemma RemoveLinesValid(cart: seq<CartLine>, id: string)
    requires ValidCart(cart)
    ensures ValidCart(RemoveLines(cart, id))
  {
    FilterPairwise(cart, OtherLine(id), DifferentIds());
  }

  /** Without a line for `id`, `changeQty` leaves the cart as it was,
      whatever the cart. */
  lemma ChangeLineAbsent(cart: seq<CartLine>, id: string, delta: int)
    requires NoLineFor(cart, id)
    ensures ChangeLine(cart, id, delta) == cart
  {
    NoLineNoIndex(cart, id);
  }

  /** What `changeQty` does to the quantity for `id`: nothing without a line,
      the new quantity when it stays positive, 0 (no line left) otherwise. */
  lemma ChangeLineQty(cart: seq<CartLine>, id: string, delta: int)
    ensures var q := QtyOf(cart, id);
      QtyOf(ChangeLine(cart, id, delta), id)
        == if FirstIndex(cart, LineFor(id)).None? then 0
           else if q + delta <= 0 then 0
           else q + delta
  {
    match FirstIndex(cart, LineFor(id))
    case None =>
    case Some(i) =>
      if cart[i].qty + delta <= 0 {
        RemoveLinesSpec(cart, id);
      } else {
        FirstIndexOf(ChangeLine(cart, id, delta), id, i);
      }
  }

  /** Changing a quantity leaves the other lines as they were, in order. */
  lemma ChangeLineOthers(cart: seq<CartLine>, id: string, delta: int)
    ensures RemoveLines(ChangeLine(cart, id, delta), id) == RemoveLines(cart, id)
  {
    var fi := FirstIndex(cart, LineFor(id));
    if fi.Some? {
      var i := fi.value;
      if cart[i].qty + delta <= 0 {
        assert ChangeLine(cart, id, delta) == RemoveLines(cart, id);
        FilterIdempotent(cart, OtherLine(id));
      } else {
        assert LineFor(id)(cart[i]);
        var v := cart[i].(qty := cart[i].qty + delta);
        assert ChangeLine(cart, id, delta) == cart[i := v];
        FilterUpdateDropped(cart, i, v, OtherLine(id));
      }
    }
  }

  /** Changing a quantity keeps a cart valid. */
  lemma ChangeLineValid(cart: seq<CartLine>, id: string, delta: int)
    requires ValidCart(cart)
    ensures ValidCart(ChangeLine(cart, id, delta))
  {
    var r := ChangeLine(cart, id, delta);
    match FirstIndex(cart, LineFor(id))
    case None =>
    case Some(i) =>
      if cart[i].qty + delta <= 0 {
        RemoveLinesValid(cart, id);
      } else {
        forall a, b | 0 <= a < b < |r| ensures DifferentIds()(r[a], r[b]) {
          assert DifferentIds()(cart[a], cart[b]);
        }
      }
  }

  // ---------------------------------------------------------------------------
  // toggleWishlist

  /** Toggling flips membership, so toggling twice restores it; removing
      always leaves the id out. */
  lemma ToggleWishMembership(wishlist: seq<string>, id: string)
    ensures id in ToggleWish(wishlist, id, true) <==> id !in wishlist
    ensures id in ToggleWish(ToggleWish(wishlist, id, true), id, true) <==> id in wishlist
    ensures id !in ToggleWish(wishlist, id, false)
  {
  }

  /** An absent id is appended at the end by a toggle, and removing it
      changes nothing. */
  lemma ToggleWishAbsent(wishlist: seq<string>, id: string)
    requires id !in wishlist
    ensures ToggleWish(wishlist, id, true) == wishlist + [id]
    ensures ToggleWish(wishlist, id, false) == wishlist
  {
    FilterKeepsAll(wishlist, OtherId(id));
  }

  /** The entries other than `id` are never touched, nor their order. */
  lemma ToggleWishOthers(wishlist: seq<string>, id: string, toggle: bool)
    ensures Filter(ToggleWish(wishlist, id, toggle), OtherId(id)) == Filter(wishlist, OtherId(id))
  {
    if toggle && id !in wishlist {
      FilterSnoc(wishlist, id, OtherId(id));
    } else {
      FilterIdempotent(wishlist, OtherId(id));
    }
  }

  /** Toggling an absent id twice gives back the very same list. */
  lemma ToggleTwiceAbsent(wishlist: seq<string>, id: string)
    requires id !in wishlist
    ensures ToggleWish(ToggleWish(wishlist, id, true), id, true) == wishlist
  {
    FilterSnoc(wishlist, id, OtherId(id));
    FilterKeepsAll(wishlist, OtherId(id));
  }

  /** Toggling keeps a wishlist free of repeats. */
  lemma ToggleWishValid(wishlist: seq<string>, id: string, toggle: bool)
    requires ValidWishlist(wishlist)
    ensures ValidWishlist(ToggleWish(wishlist, id, toggle))
  {
    if !(toggle && id !in wishlist) {
      var ne := (a: string, b: string) => a != b;
      assert Pairwise(wishlist, ne);
      FilterPairwise(wishlist, OtherId(id), ne);
    }
  }

  // ---------------------------------------------------------------------------
  // Subtotal

  lemma {:induction false} CartTotalConcat(products: seq<Product>, a: seq<CartLine>, b: seq<CartLine>)
    ensures CartTotal(products, a + b) == CartTotal(products, a) + CartTotal(products, b)
  {
    if a == [] {
      assert a + b == b;
    } else {
      assert (a + b)[0] == a[0];
      assert (a + b)[1..] == a[1..] + b;
      CartTotalConcat(products, a[1..], b);
    }
  }

  lemma {:induction false} CartTotalUpdate(products: seq<Product>, cart: seq<CartLine>, i: nat, l: CartLine)
    requires i < |cart|
    ensures CartTotal(products, cart[i := l])
      == CartTotal(products, cart) - LineTotal(products, cart[i]) + LineTotal(products, l)
  {
    if i > 0 {
      assert cart[i := l][1..] == cart[1..][i - 1 := l];
      CartTotalUpdate(products, cart[1..], i - 1, l);
    }
  }

  /** The price `addToCart(id)` adds to the subtotal: the product's price, or
      nothing for an id the catalogue does not have. */
  function PriceOf(products: seq<Product>, id: string): int
  {
    match FindProduct(products, id)
    case None => 0
    case Some(p) => p.price
  }

  /** A line's share is its quantity times the price of its id. */
  lemma LineTotalIs(products: seq<Product>, l: CartLine)
    ensures LineTotal(products, l) == l.qty * PriceOf(products, l.id)
  {
  }

  /** Moving a line's quantity by `d` moves its share by `d` times the price. */
  lemma LineTotalShift(products: seq<Product>, l: CartLine, d: int)
    ensures LineTotal(products, l.(qty := l.qty + d)) == LineTotal(products, l) + d * PriceOf(products, l.id)
  {
    match FindProduct(products, l.id)
    case None =>
    case Some(p) =>
      assert p.price * (l.qty + d) == p.price * l.qty + d * p.price;
  }

  /** Adding raises the subtotal by the product's price. */
  lemma AddLineTotal(products: seq<Product>, cart: seq<CartLine>, id: string)
    ensures CartTotal(products, AddLine(cart, id)) == CartTotal(products, cart) + PriceOf(products, id)
  {
    var fi := FirstIndex(cart, LineFor(id));
    if fi.Some? {
      var i := fi.value;
      assert LineFor(id)(cart[i]);
      var v := cart[i].(qty := cart[i].qty + 1);
      assert AddLine(cart, id) == cart[i := v];
      CartTotalUpdate(products, cart, i, v);
      LineTotalShift(products, cart[i], 1);
    } else {
      assert AddLine(cart, id) == cart + [CartLine(id, 1)];
      CartTotalConcat(products, cart, [CartLine(id, 1)]);
      assert CartTotal(products, [CartLine(id, 1)]) == LineTotal(products, CartLine(id, 1));
      LineTotalShift(products, CartLine(id, 0), 1);
    }
  }

  /** The subtotal is the lines for `id` plus the rest. */
  lemma {:induction false} CartTotalSplit(products: seq<Product>, cart: seq<CartLine>, id: string)
    ensures CartTotal(products, cart)
      == CartTotal(products, RemoveLines(cart, id)) + CartTotal(products, Filter(cart, LineFor(id)))
  {
    if cart != [] {
      assert cart == [cart[0]] + cart[1..];
      CartTotalSplit(products, cart[1..], id);
      FilterCons(cart[0], cart[1..], OtherLine(id));
      FilterCons(cart[0], cart[1..], LineFor(id));
      if cart[0].id == id {
        CartTotalConcat(products, [cart[0]], Filter(cart[1..], LineFor(id)));
      } else {
        CartTotalConcat(products, [cart[0]], RemoveLines(cart[1..], id));
      }
    }
  }

  lemma NoLineBefore(cart: seq<CartLine>, id: string, i: nat)
    requires FirstLineAt(cart, id, i)
    ensures Filter(cart[..i], LineFor(id)) == []
  {
    var pre := cart[..i];
    forall l | l in pre ensures !LineFor(id)(l) {
      var j :| 0 <= j < i && pre[j] == l;
      assert cart[j] == l;
    }
    FilterNone(pre, LineFor(id));
  }

  lemma NoLineAfter(cart: seq<CartLine>, id: string, i: nat)
    requires ValidCart(cart) && i < |cart| && cart[i].id == id
    ensures Filter(cart[i + 1..], LineFor(id)) == []
  {
    var post := cart[i + 1..];
    forall l | l in post ensures !LineFor(id)(l) {
      var j :| 0 <= j < |post| && post[j] == l;
      assert DifferentIds()(cart[i], cart[i + 1 + j]);
    }
    FilterNone(post, LineFor(id));
  }

  /** In a valid cart, the lines for an id that has one are that line alone. */
  lemma LinesForValid(cart: seq<CartLine>, id: string, i: nat)
    requires ValidCart(cart) && FirstLineAt(cart, id, i)
    ensures Filter(cart, LineFor(id)) == [cart[i]]
  {
    var keep := LineFor(id);
    var pre, post := cart[..i], cart[i + 1..];
    assert cart == pre + ([cart[i]] + post);
    assert keep(cart[i]);
    NoLineBefore(cart, id, i);
    NoLineAfter(cart, id, i);
    FilterConcat(pre, [cart[i]] + post, keep);
    FilterCons(cart[i], post, keep);
  }

  /** The share of the lines for `id` in a valid cart: its quantity times the price. */
  lemma LinesForTotal(products: seq<Product>, cart: seq<CartLine>, id: string)
    requires ValidCart(cart)
    ensures CartTotal(products, Filter(cart, LineFor(id))) == QtyOf(cart, id) * PriceOf(products, id)
  {
    var fi := FirstIndex(cart, LineFor(id));
    if fi.Some? {
      var l := cart[fi.value];
      assert LineFor(id)(l);
      LinesForValid(cart, id, fi.value);
      assert CartTotal(products, [l]) == LineTotal(products, l);
      LineTotalIs(products, l);
    } else {
      forall c | c in cart ensures !LineFor(id)(c) {
        var j :| 0 <= j < |cart| && cart[j] == c;
      }
      FilterNone(cart, LineFor(id));
    }
  }

  /** Removing the lines for `id` from a valid cart takes their price times
      quantity off the subtotal. */
  lemma RemoveLinesTotal(products: seq<Product>, cart: seq<CartLine>, id: string)
    requires ValidCart(cart)
    ensures CartTotal(products, RemoveLines(cart, id))
      == CartTotal(products, cart) - QtyOf(cart, id) * PriceOf(products, id)
  {
    CartTotalSplit(products, cart, id);
    LinesForTotal(products, cart, id);
  }

  lemma ChangeLineKeptTotal(products: seq<Product>, cart: seq<CartLine>, id: string, delta: int, i: nat)
    requires FirstLineAt(cart, id, i) && cart[i].qty + delta > 0
    ensures CartTotal(products, ChangeLine(cart, id, delta)) == CartTotal(products, cart) + delta * PriceOf(products, id)
  {
    assert LineFor(id)(cart[i]);
    var v := cart[i].(qty := cart[i].qty + delta);
    assert ChangeLine(cart, id, delta) == cart[i := v];
    CartTotalUpdate(products, cart, i, v);
    LineTotalShift(products, cart[i], delta);
  }

  /** What `changeQty` does to the subtotal of a valid cart: nothing without a
      line for `id`; `delta` times the price while the line stays; the
      line's whole share when it is dropped. */
  lemma ChangeLineTotal(products: seq<Product>, cart: seq<CartLine>, id: string, delta: int)
    requires ValidCart(cart)
    ensures FirstIndex(cart, LineFor(id)).None? ==>
      CartTotal(products, ChangeLine(cart, id, delta)) == CartTotal(products, cart)
    ensures FirstIndex(cart, LineFor(id)).Some? && QtyOf(cart, id) + delta <= 0 ==>
      CartTotal(products, ChangeLine(cart, id, delta)) == CartTotal(products, cart) - QtyOf(cart, id) * PriceOf(products, id)
    ensures FirstIndex(cart, LineFor(id)).Some? && QtyOf(cart, id) + delta > 0 ==>
      CartTotal(products, ChangeLine(cart, id, delta)) == CartTotal(products, cart) + delta * PriceOf(products, id)
  {
    var fi := FirstIndex(cart, LineFor(id));
    if fi.Some? {
      var i := fi.value;
      if cart[i].qty + delta <= 0 {
        assert ChangeLine(cart, id, delta) == RemoveLines(cart, id);
        RemoveLinesTotal(products, cart, id);
      } else {
        ChangeLineKeptTotal(products, cart, id, delta, i);
      }
    }
  }

  /** The demo session: two of the jacket come to 318. */
  lemma SeedSessionTotal()
    ensures CartTotal(SeedProducts(), AddLine(AddLine([], "p1"), "p1")) == 318
  {
    AddTwiceFromEmpty();
    assert FindProduct(SeedProducts(), "p1") == Some(P1());
  }
}
