# Shopping cart of the storefront app, in Dafny

The storefront app has a product detail screen and a cart screen. Both share one
piece of persistent state: the cart, a JSON array of product records kept under
the `cartItems` storage key. This project models how the two screens read and
change that cart:

- `addToCart` on the product detail screen. It reads the blob and treats a
  missing blob as an empty cart. It looks the product up by `id` with `find`,
  and writes back the cart with the product appended only if no item has that id.
- `fetchCartItems` and `calculateTotal` on the cart screen. They load the blob
  the same way and compute the total as `reduce` over the prices, starting from 0.
- `removeFromCart` on the cart screen. It filters out every item whose `id`
  equals the removed item's id, writes the result back and recomputes the total.

Modules:

- `Options` holds the optional value of a storage read.
- `ShoppingCart` holds the product record, the cart as `seq<Product>`, and the
  pure operations `Find`, `Add`, `Remove` and `Total`, with their laws.
- `ProductDetailScreen` holds one press of "Add to Cart" against the stored blob.
- `CartScreen` holds the screen state (items plus shown total), loading it and
  removing an item.
- `Session` holds any sequence of add and remove actions on the stored blob. It
  shows that the ids in the cart stay distinct throughout.

The storage blob is modelled as `Option<Cart>`, where `None` means nothing is
stored. A JSON round trip is the identity on product records. Prices are
integers (cents), so every sum is exact.

The partner of each operation:

- `Add` has the distinct-ids invariant, idempotence, position preservation, and
  `Remove` as its inverse (`RemoveUndoesAdd`).
- `Remove` has three characterising laws: it distributes over concatenation,
  acts on singletons as stated, and is the identity when the id is absent.
  Idempotence and distinct-ids preservation follow from these.
- `Total`, the left fold that `reduce` performs, is proved equal to the
  head-first reference sum `PriceSum`.

## Model

| member | source | states |
|---|---|---|
| ShoppingCart.LoadOrEmpty | myapp/CartScreen.js:13 | a missing stored cart reads as the empty cart; a present one reads as itself |
| ShoppingCart.FindFrom | myapp/ProductDetailScreen.js:21 | the search returns an index whose item has the id with no earlier match at or after the start, or none when no item from the start on has the id |
| ShoppingCart.Find | myapp/ProductDetailScreen.js:21 | `find` by id succeeds exactly when some item has the id, and what it returns is an item of the cart with that id |
| ShoppingCart.Add | myapp/ProductDetailScreen.js:21-23 | an absent product is appended at the end, a present one leaves the cart unchanged; the length grows by 1 or 0 accordingly, the old cart is a prefix of the new one, and the new cart contains the id |
| ShoppingCart.Remove | myapp/CartScreen.js:39 | no item with the id remains; an item stays exactly when it was in the cart with a different id; the length never grows |
| ShoppingCart.Total | myapp/CartScreen.js:21-24 | the left fold from 0 equals the head-first sum of the prices (so the empty cart totals 0) |
| ShoppingCart.PriceSumAppend | myapp/CartScreen.js:22 | the price sum of a concatenation is the sum of the two price sums |
| ShoppingCart.TotalAppend | myapp/CartScreen.js:22 | the total of a concatenation is the sum of the two totals |
| ShoppingCart.AddPreservesDistinct | myapp/ProductDetailScreen.js:20-24 | if the cart's ids are pairwise distinct, they still are after an add |
| ShoppingCart.AddIdempotent | myapp/ProductDetailScreen.js:21-27 | adding the same product twice gives the same cart as adding it once |
| ShoppingCart.AddKeepsPositions | myapp/ProductDetailScreen.js:22-23 | every item already in the cart keeps its index after an add |
| ShoppingCart.AddTotal | myapp/ProductDetailScreen.js:22-23 | an add raises the total by the product's price when it was absent and by nothing otherwise |
| ShoppingCart.RemoveAppend | myapp/CartScreen.js:39 | the filter distributes over concatenation, so the kept items keep their original relative order |
| ShoppingCart.RemoveSingleton | myapp/CartScreen.js:39 | on a one-item cart the item is kept exactly when its id differs |
| ShoppingCart.RemoveAbsent | myapp/CartScreen.js:39 | removing an id that no item has leaves the cart unchanged |
| ShoppingCart.RemoveIdempotent | myapp/CartScreen.js:39 | removing the same id twice equals removing it once |
| ShoppingCart.RemovePreservesDistinct | myapp/CartScreen.js:39 | if the cart's ids are pairwise distinct, they still are after a removal |
| ShoppingCart.RemoveUndoesAdd | myapp/CartScreen.js:39 | adding a product whose id is absent and then removing that id gives back the original cart |
| ShoppingCart.RemoveDistinctDropsOne | myapp/CartScreen.js:39 | with distinct ids, removing the id of the item at index i yields the cart without exactly that item, all others in order |
| ShoppingCart.RemoveTotal | myapp/CartScreen.js:22 | with distinct ids, removing a present item's id lowers the total by exactly that item's price |
| ProductDetailScreen.AddToCart | myapp/ProductDetailScreen.js:16-33 | a write happens exactly when the loaded cart (missing blob = empty) has no item with the product's id, and it writes that cart with the product appended; with nothing stored it writes the one-item cart |
| ProductDetailScreen.StoredAfterAdd | myapp/ProductDetailScreen.js:22-27 | after a press the stored cart is the add-if-absent of the loaded cart, and the blob is untouched when the product was already there |
| ProductDetailScreen.SecondPressChangesNothing | myapp/ProductDetailScreen.js:21-27 | a second press for the same product reports it as already in the cart and leaves the stored blob as the first press left it |
| ProductDetailScreen.AddToCartPreservesDistinct | myapp/ProductDetailScreen.js:20-24 | a press keeps the stored cart's ids pairwise distinct |
| CartScreen.FetchCartItems | myapp/CartScreen.js:10-15 | the loaded state lists the stored cart (empty when nothing is stored, total 0 then) and shows the sum of its prices |
| CartScreen.RemoveFromCart | myapp/CartScreen.js:37-42 | the written cart and the listed items coincide, no item with the removed id remains, exactly the other items stay, and the shown total is recomputed to match |
| CartScreen.RemoveFromCartTotal | myapp/CartScreen.js:39-42 | on a consistent screen with distinct ids, removing a listed item lowers the shown total by its price |
| CartScreen.RemoveFromCartTwice | myapp/CartScreen.js:39-42 | removing the same item a second time changes neither the written cart nor the state |
| CartScreen.RemoveAbsentItem | myapp/CartScreen.js:39-40 | removing an item whose id is not listed writes back the same cart |
| CartScreen.RemoveFromCartPreservesDistinct | myapp/CartScreen.js:39-40 | removal keeps the listed ids pairwise distinct |
| Session.Step | myapp/CartScreen.js:31-42 | after adding a product the stored cart holds its id; after removing an item (on the freshly reloaded screen) it holds no item with that id |
| Session.StepPreservesDistinct | myapp/ProductDetailScreen.js:20-24 | every single add or remove keeps the stored ids pairwise distinct |
| Session.RunPreservesDistinct | myapp/ProductDetailScreen.js:20-24 | any sequence of adds and removes keeps the stored ids pairwise distinct |
| Session.RunFromNothingHasDistinctIds | myapp/ProductDetailScreen.js:18-24 | starting from no stored cart, no sequence of actions ever stores two items with the same id |

## Left out

- Rendering, styles and image assets of every screen: presentation only.
- The catalog HTTP requests (`axios.get` on the home and detail screens): network
  input. The product that is added is a parameter instead.
- AsyncStorage and JSON (de)serialisation. The blob is the cart value itself.
  A stored empty string, which is falsy and so also reads as an empty cart, is
  not distinguished from a missing blob. Blobs that fail to parse are not modelled.
- The `catch` branches, `console.error` and the alert texts. `AddOutcome`
  records which alert a press leads to, but not its wording.
- `useEffect` / `useFocusEffect` refresh timing and asynchronous interleaving.
  `Session` assumes that the cart screen reloads the blob before each removal,
  which the focus effect provides. A removal made from a stale screen state
  overwrites the blob (last write wins). That case is outside `Session`.
- ShoppingCart.Total: prices are integers (cents). JavaScript's floating-point
  summation and `toFixed(2)` formatting are not modelled.
- Product fields other than `id`, `title` and `price` (image, description). The
  cart never inspects them, and `title` stands for all of them.
- The home screen and the drawer navigator: a list view plus a network call,
  and third-party navigation configuration.
