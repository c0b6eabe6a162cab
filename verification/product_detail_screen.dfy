/**
 The "Add to Cart" action of the product detail screen: read the stored cart
 blob, and write it back with the shown product appended unless an item with
 the same id is already there.
 */
module ProductDetailScreen {
  import opened Options
  import opened ShoppingCart

  /** What one press of "Add to Cart" does. `Added` carries the cart that is
      written back (the user sees "Product added to cart"); `AlreadyInCart`
      writes nothing (the user sees "Product is already in the cart"). */
  datatype AddOutcome = Added(written: Cart) | AlreadyInCart

  /** One press of "Add to Cart" for `product` against the stored blob. */
  function AddToCart(stored: Option<Cart>, product: Product): (r: AddOutcome)
    ensures r.Added? <==> !HasId(LoadOrEmpty(stored), product.id)
    ensures r.Added? ==> r.written == LoadOrEmpty(stored) + [product]
    ensures stored.None? ==> r == Added([product])
  {
    var cart := LoadOrEmpty(stored);
    if Find(cart, product.id).None? then Added(Add(cart, product)) else AlreadyInCart
  }

  /** The stored blob after the press: the written cart, or the old blob when
      nothing was written. */
  function StoredAfterAdd(stored: Option<Cart>, product: Product): (s: Option<Cart>)
    ensures s.Some?
    ensures s.value == Add(LoadOrEmpty(stored), product)
    ensures HasId(LoadOrEmpty(stored), product.id) ==> s == stored
  {
    match AddToCart(stored, product)
    case Added(c) => Some(c)
    case AlreadyInCart => stored
  }

  /** A second press for the same product reports it as already in the cart
      and leaves the stored blob as the first press left it. */
  lemma SecondPressChangesNothing(stored: Option<Cart>, product: Product)
    ensures AddToCart(StoredAfterAdd(stored, product), product) == AlreadyInCart
    ensures StoredAfterAdd(StoredAfterAdd(stored, product), product)
         == StoredAfterAdd(stored, product)
  {
  }

  /** A press keeps the stored cart's ids pairwise distinct. */
  lemma AddToCartPreservesDistinct(stored: Option<Cart>, product: Product)
    requires DistinctIds(LoadOrEmpty(stored))
    ensures DistinctIds(LoadOrEmpty(StoredAfterAdd(stored, product)))
  {
    AddPreservesDistinct(LoadOrEmpty(stored), product);
  }
}
