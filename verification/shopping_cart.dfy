/**
 The shopping cart: a sequence of product records that is used as a set keyed
 by product id. Both screens share these three operations on it: add-if-absent,
 remove-by-id, and the price total.
 */
module ShoppingCart {
  import opened Options

  /** A product record as the catalog delivers it. `title` stands for the
      descriptive fields the cart carries along but never inspects; `price`
      is in whole cents so that sums are exact. */
  datatype Product = Product(id: int, title: string, price: int)

  type Cart = seq<Product>

  /** Some item of `c` has the given id. */
  predicate HasId(c: Cart, id: int)
  {
    exists i :: 0 <= i < |c| && c[i].id == id
  }

  /** No two items of `c` share an id: the cart is a set keyed by id. */
  predicate DistinctIds(c: Cart)
  {
    forall i, j :: 0 <= i < j < |c| ==> c[i].id != c[j].id
  }

  /** A stored cart blob, read the way both screens read it: a missing blob
      is the empty cart. */
  function LoadOrEmpty(stored: Option<Cart>): (c: Cart)
    ensures stored.None? ==> c == []
    ensures stored.Some? ==> c == stored.value
  {
    stored.GetOr([])
  }

  /** Linear search from index `from`: the first index at or after `from`
      whose item has the given id. */
  function FindFrom(c: Cart, id: int, from: nat): (r: Option<nat>)
    requires from <= |c|
    ensures r.Some? ==> from <= r.value < |c| && c[r.value].id == id
    ensures r.Some? ==> forall j :: from <= j < r.value ==> c[j].id != id
    ensures r.None? ==> forall j :: from <= j < |c| ==> c[j].id != id
    decreases |c| - from
  {
    if from == |c| then None
    else if c[from].id == id then Some(from)
    else FindFrom(c, id, from + 1)
  }

  /** The array `find` by id: the first item carrying `id`, if there is one. */
  function Find(c: Cart, id: int): (r: Option<Product>)
    ensures r.Some? <==> HasId(c, id)
    ensures r.Some? ==> r.value.id == id && r.value in c
  {
    match FindFrom(c, id, 0)
    case None => None
    case Some(i) => Some(c[i])
  }

  /** Add-if-absent: append `p` unless an item with its id is already there. */
  function Add(c: Cart, p: Product): (r: Cart)
    ensures HasId(c, p.id) ==> r == c
    ensures !HasId(c, p.id) ==> r == c + [p]
    ensures |r| == |c| + (if HasId(c, p.id) then 0 else 1)
    ensures r[..|c|] == c
    ensures HasId(r, p.id)
  {
    if Find(c, p.id).Some? then c
    else
      var r := c + [p];
      assert r[|c|].id == p.id;
      r
  }

  /** Remove-by-id: keep exactly the items whose id differs from `id`. */
  function Remove(c: Cart, id: int): (r: Cart)
    ensures !HasId(r, id)
    ensures |r| <= |c|
    ensures forall x :: x in r <==> x in c && x.id != id
  {
    if |c| == 0 then []
    else
      var rest := Remove(c[1..], id);
      assert c == [c[0]] + c[1..];
      if c[0].id == id then rest else [c[0]] + rest
  }

  /** Reference sum of the prices, taken head first. */
  function PriceSum(c: Cart): int
  {
    if |c| == 0 then 0 else c[0].price + PriceSum(c[1..])
  }

  /** The total as the screen computes it: a left fold that starts at 0 and
      adds each item's price in cart order. */
  function Total(c: Cart): (t: int)
    ensures t == PriceSum(c)
  {
    if |c| == 0 then 0
    else
      var init := c[..|c| - 1];
      assert init + [c[|c| - 1]] == c;
      PriceSumAppend(init, [c[|c| - 1]]);
      Total(init) + c[|c| - 1].price
  }

  lemma {:induction false} PriceSumAppend(a: Cart, b: Cart)
    ensures PriceSum(a + b) == PriceSum(a) + PriceSum(b)
  {
    if |a| == 0 {
      assert a + b == b;
    } else {
      assert (a + b)[1..] == a[1..] + b;
      PriceSumAppend(a[1..], b);
    }
  }

  /** The total of a concatenation is the sum of the totals. */
  lemma TotalAppend(a: Cart, b: Cart)
    ensures Total(a + b) == Total(a) + Total(b)
  {
    PriceSumAppend(a, b);
  }

  // ---------------------------------------------------------------------
  // Add

  /** Add keeps the ids of the cart pairwise distinct. */
  lemma AddPreservesDistinct(c: Cart, p: Product)
    requires DistinctIds(c)
    ensures DistinctIds(Add(c, p))
  {
    if !HasId(c, p.id) {
      var r := c + [p];
      forall i, j | 0 <= i < j < |r|
        ensures r[i].id != r[j].id
      {
        if j == |c| {
          assert r[i] == c[i];
        }
      }
    }
  }

  /** Adding the same product twice is adding it once. */
  lemma AddIdempotent(c: Cart, p: Product)
    ensures Add(Add(c, p), p) == Add(c, p)
  {
  }

  /** Every item already in the cart stays at its index after an add. */
  lemma AddKeepsPositions(c: Cart, p: Product)
    ensures forall i :: 0 <= i < |c| ==> Add(c, p)[i] == c[i]
  {
    var r := Add(c, p);
    assert r[..|c|] == c;
    forall i | 0 <= i < |c|
      ensures r[i] == c[i]
    {
      assert r[..|c|][i] == r[i];
    }
  }

  /** The total grows by the product's price exactly when it was absent. */
  lemma AddTotal(c: Cart, p: Product)
    ensures Total(Add(c, p)) == Total(c) + (if HasId(c, p.id) then 0 else p.price)
  {
    if !HasId(c, p.id) {
      TotalAppend(c, [p]);
    }
  }

  // ---------------------------------------------------------------------
  // Remove

  /** Removal distributes over concatenation: the kept items stay in their
      original relative order. Together with `RemoveSingleton` this
      determines `Remove` completely. */
  lemma {:induction false} RemoveAppend(a: Cart, b: Cart, id: int)
    ensures Remove(a + b, id) == Remove(a, id) + Remove(b, id)
  {
    if |a| == 0 {
      assert a + b == b;
    } else {
      assert (a + b)[0] == a[0];
      assert (a + b)[1..] == a[1..] + b;
      RemoveAppend(a[1..], b, id);
    }
  }

  /** Removal on a one-item cart keeps the item exactly when its id differs. */
  lemma RemoveSingleton(x: Product, id: int)
    ensures Remove([x], id) == if x.id == id then [] else [x]
  {
    assert [x][1..] == [];
  }

  /** Removing an id that is not in the cart leaves the cart unchanged. */
  lemma {:induction false} RemoveAbsent(c: Cart, id: int)
    requires !HasId(c, id)
    ensures Remove(c, id) == c
  {
    if |c| > 0 {
      assert c == [c[0]] + c[1..];
      assert !HasId(c[1..], id) by {
        forall i | 0 <= i < |c[1..]|
          ensures c[1..][i].id != id
        {
          assert c[1..][i] == c[i + 1];
        }
      }
      RemoveAbsent(c[1..], id);
    }
  }

  /** Removing the same id twice is removing it once. */
  lemma RemoveIdempotent(c: Cart, id: int)
    ensures Remove(Remove(c, id), id) == Remove(c, id)
  {
    RemoveAbsent(Remove(c, id), id);
  }

  /** A member of a cart makes its id present in that cart. */
  lemma MemberHasId(c: Cart, x: Product)
    requires x in c
    ensures HasId(c, x.id)
  {
    var k :| 0 <= k < |c| && c[k] == x;
  }

  /** The tail of a cart with distinct ids has distinct ids and lacks the
      head's id. */
  lemma DistinctTail(c: Cart)
    requires DistinctIds(c)
    requires |c| > 0
    ensures DistinctIds(c[1..])
    ensures !HasId(c[1..], c[0].id)
  {
    var tail := c[1..];
    forall i, j | 0 <= i < j < |tail|
      ensures tail[i].id != tail[j].id
    {
      assert tail[i] == c[i + 1] && tail[j] == c[j + 1];
    }
    forall k | 0 <= k < |tail|
      ensures tail[k].id != c[0].id
    {
      assert tail[k] == c[k + 1];
    }
  }

  /** Putting an item with a new id in front keeps the ids distinct. */
  lemma DistinctCons(x: Product, r: Cart)
    requires DistinctIds(r)
    requires !HasId(r, x.id)
    ensures DistinctIds([x] + r)
  {
    var s := [x] + r;
    forall i, j | 0 <= i < j < |s|
      ensures s[i].id != s[j].id
    {
      assert s[j] == r[j - 1];
      if i > 0 {
        assert s[i] == r[i - 1];
      }
    }
  }

  /** Removal keeps the ids of the cart pairwise distinct. */
  lemma {:induction false} RemovePreservesDistinct(c: Cart, id: int)
    requires DistinctIds(c)
    ensures DistinctIds(Remove(c, id))
  {
    if |c| > 0 {
      var tail := c[1..];
      DistinctTail(c);
      RemovePreservesDistinct(tail, id);
      var rest := Remove(tail, id);
      if c[0].id != id {
        forall k | 0 <= k < |rest|
          ensures rest[k].id != c[0].id
        {
          assert rest[k] in tail;
          MemberHasId(tail, rest[k]);
        }
        DistinctCons(c[0], rest);
      }
    }
  }

  /** Adding a product whose id is absent and then removing that id gives
      back the original cart. */
  lemma RemoveUndoesAdd(c: Cart, p: Product)
    requires !HasId(c, p.id)
    ensures Remove(Add(c, p), p.id) == c
  {
    RemoveAppend(c, [p], p.id);
    RemoveSingleton(p, p.id);
    RemoveAbsent(c, p.id);
  }

  /** With distinct ids, the id of the item at index `i` occurs neither
      before nor after it. */
  lemma DistinctIdOnlyAt(c: Cart, i: int)
    requires DistinctIds(c)
    requires 0 <= i < |c|
    ensures !HasId(c[..i], c[i].id)
    ensures !HasId(c[i + 1..], c[i].id)
  {
    var pre, post := c[..i], c[i + 1..];
    forall k | 0 <= k < |pre|
      ensures pre[k].id != c[i].id
    {
      assert pre[k] == c[k];
    }
    forall k | 0 <= k < |post|
      ensures post[k].id != c[i].id
    {
      assert post[k] == c[i + 1 + k];
    }
  }

  /** With distinct ids, removing the id of the item at index `i` drops exactly
      that item and keeps every other one in place. */
  lemma RemoveDistinctDropsOne(c: Cart, i: int)
    requires DistinctIds(c)
    requires 0 <= i < |c|
    ensures Remove(c, c[i].id) == c[..i] + c[i + 1..]
  {
    var id := c[i].id;
    var pre, post := c[..i], c[i + 1..];
    DistinctIdOnlyAt(c, i);
    assert c == (pre + [c[i]]) + post;
    RemoveAppend(pre + [c[i]], post, id);
    RemoveAppend(pre, [c[i]], id);
    RemoveSingleton(c[i], id);
    RemoveAbsent(pre, id);
    RemoveAbsent(post, id);
    assert Remove(pre + [c[i]], id) == pre;
  }

  /** With distinct ids, removing the id of the item at index `i` lowers the
      total by exactly that item's price. */
  lemma RemoveTotal(c: Cart, i: int)
    requires DistinctIds(c)
    requires 0 <= i < |c|
    ensures Total(Remove(c, c[i].id)) == Total(c) - c[i].price
  {
    var pre, post := c[..i], c[i + 1..];
    RemoveDistinctDropsOne(c, i);
    assert c == (pre + [c[i]]) + post;
    TotalAppend(pre + [c[i]], post);
    TotalAppend(pre, [c[i]]);
    assert Total([c[i]]) == c[i].price by {
      assert [c[i]][1..] == [];
    }
    assert Total(c) == Total(pre) + c[i].price + Total(post);
    TotalAppend(pre, post);
  }
}
