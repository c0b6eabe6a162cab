/**
 A sequence of cart actions taken across the two screens, seen through the
 stored cart blob. A remove acts on the cart screen as freshly loaded from the
 blob, which is what the screen's reload on focus provides.
 */
module Session {
  import opened Options
  import opened ShoppingCart
  import ProductDetailScreen
  import CartScreen

  datatype Action = AddProduct(product: Product) | RemoveItem(item: Product)

  /** The stored blob after one action. */
  function Step(stored: Option<Cart>, a: Action): (s: Option<Cart>)
    ensures s.Some?
    ensures a.AddProduct? ==> HasId(s.value, a.product.id)
    ensures a.RemoveItem? ==> !HasId(s.value, a.item.id)
  {
    match a
    case AddProduct(p) => ProductDetailScreen.StoredAfterAdd(stored, p)
    case RemoveItem(item) =>
      Some(CartScreen.RemoveFromCart(CartScreen.FetchCartItems(stored), item).written)
  }

  /** The stored blob after a sequence of actions, first action first. */
  function Run(stored: Option<Cart>, actions: seq<Action>): Option<Cart>
    decreases |actions|
  {
    if |actions| == 0 then stored else Run(Step(stored, actions[0]), actions[1..])
  }

  /** One action keeps the stored cart's ids pairwise distinct. */
  lemma StepPreservesDistinct(stored: Option<Cart>, a: Action)
    requires DistinctIds(LoadOrEmpty(stored))
    ensures DistinctIds(LoadOrEmpty(Step(stored, a)))
  {
    match a
    case AddProduct(p) =>
      ProductDetailScreen.AddToCartPreservesDistinct(stored, p);
    case RemoveItem(item) =>
      CartScreen.RemoveFromCartPreservesDistinct(CartScreen.FetchCartItems(stored), item);
  }

  /** Hence any sequence of actions keeps them pairwise distinct. */
  lemma {:induction false} RunPreservesDistinct(stored: Option<Cart>, actions: seq<Action>)
    requires DistinctIds(LoadOrEmpty(stored))
    ensures DistinctIds(LoadOrEmpty(Run(stored, actions)))
    decreases |actions|
  {
    if |actions| > 0 {
      StepPreservesDistinct(stored, actions[0]);
      RunPreservesDistinct(Step(stored, actions[0]), actions[1..]);
    }
  }

  /** Starting from no stored cart, no sequence of actions ever stores two
      items with the same id. */
  lemma RunFromNothingHasDistinctIds(actions: seq<Action>)
    ensures DistinctIds(LoadOrEmpty(Run(None, actions)))
  {
    RunPreservesDistinct(None, actions);
  }
}
