/**
 The cart screen: it loads the stored cart into its state, shows the total of
 the prices, and removes an item by id on request, writing the shortened cart
 back and recomputing the total.
 */
module CartScreen {
  import opened Options
  import opened ShoppingCart

  /** The screen's state: the items it lists and the total it shows. */
  datatype ScreenState = ScreenState(cartItems: Cart, total: int)

  /** The shown total agrees with the listed items. */
  predicate Consistent(s: ScreenState)
  {
    s.total == PriceSum(s.cartItems)
  }

  /** Loading the screen from the stored blob; a missing blob is the empty
      cart with total 0. */
  function FetchCartItems(stored: Option<Cart>): (s: ScreenState)
    ensures Consistent(s)
    ensures stored.Some? ==> s.cartItems == stored.value
    ensures stored.None? ==> s.cartItems == [] && s.total == 0
  {
    var items := LoadOrEmpty(stored);
    ScreenState(items, Total(items))
  }

  /** What "Remove from Cart" does: the cart written to storage and the new
      screen state. */
  datatype RemoveEffect = RemoveEffect(written: Cart, state: ScreenState)

  /** Removing `item` (by its id) from the listed items. */
  function RemoveFromCart(s: ScreenState, item: Product): (r: RemoveEffect)
    ensures r.state.cartItems == r.written
    ensures Consistent(r.state)
    ensures !HasId(r.written, item.id)
    ensures forall x :: x in r.written <==> x in s.cartItems && x.id != item.id
    ensures |r.written| <= |s.cartItems|
  {
    var updated := Remove(s.cartItems, item.id);
    RemoveEffect(updated, ScreenState(updated, Total(updated)))
  }

  /** On a consistent screen whose items have distinct ids, removing a listed
      item lowers the shown total by that item's price. */
  lemma RemoveFromCartTotal(s: ScreenState, item: Product)
    requires Consistent(s)
    requires DistinctIds(s.cartItems)
    requires item in s.cartItems
    ensures RemoveFromCart(s, item).state.total == s.total - item.price
  {
    var i :| 0 <= i < |s.cartItems| && s.cartItems[i] == item;
    RemoveTotal(s.cartItems, i);
  }

  /** Removing the same item twice leaves what removing it once left. */
  lemma RemoveFromCartTwice(s: ScreenState, item: Product)
    ensures RemoveFromCart(RemoveFromCart(s, item).state, item) == RemoveFromCart(s, item)
  {
    RemoveIdempotent(s.cartItems, item.id);
  }

  /** Removing an item whose id is not listed writes back the same cart. */
  lemma RemoveAbsentItem(s: ScreenState, item: Product)
    requires !HasId(s.cartItems, item.id)
    ensures RemoveFromCart(s, item).written == s.cartItems
  {
    RemoveAbsent(s.cartItems, item.id);
  }

  /** Removal keeps the listed ids pairwise distinct. */
  lemma RemoveFromCartPreservesDistinct(s: ScreenState, item: Product)
    requires DistinctIds(s.cartItems)
    ensures DistinctIds(RemoveFromCart(s, item).written)
  {
    RemovePreservesDistinct(s.cartItems, item.id);
  }
}
