/** The cart reducer of src/context/CartContext.tsx: a sequence of
    (product, quantity) entries with two derived figures, the number of units
    and the amount due, recomputed from the entries after every action. */
module Cart {
  import opened Catalog

  datatype CartItem = CartItem(product: Product, quantity: int)

  datatype CartState = CartState(items: seq<CartItem>, itemCount: int, total: real)

  datatype Action =
    | AddToCart(product: Product)
    | RemoveFromCart(productId: string)
    | UpdateQuantity(productId: string, quantity: int)
    | ClearCart

  const InitialState := CartState([], 0, 0.0)

  /** `calculateItemCount`: the sum of the quantities, accumulated from the
      left. */
  function ItemCount(items: seq<CartItem>): int {
    if |items| == 0 then 0 else ItemCount(items[..|items| - 1]) + items[|items| - 1].quantity
  }

  /** With no negative quantity the unit count is never negative, and with no
      negative unit price either, neither is the total. */
  lemma {:induction false} SumsNonNegative(items: seq<CartItem>)
    requires forall k :: 0 <= k < |items| ==> items[k].quantity >= 0
    ensures ItemCount(items) >= 0
    ensures (forall k :: 0 <= k < |items| ==> EffectivePrice(items[k].product) >= 0.0) ==> Total(items) >= 0.0
    decreases |items|
  {
    if |items| > 0 {
      var last := items[|items| - 1];
      SumsNonNegative(items[..|items| - 1]);
      assert EffectivePrice(last.product) >= 0.0 ==> LineTotal(last) >= 0.0;
    }
  }

  /** With no negative quantity, the units held of one product are at most
      the cart's unit count. */
  lemma {:induction false} QuantityWithinCount(items: seq<CartItem>, id: string)
    requires forall k :: 0 <= k < |items| ==> items[k].quantity >= 0
    ensures 0 <= QuantityOf(items, id) <= ItemCount(items)
    decreases |items|
  {
    if |items| > 0 {
      QuantityWithinCount(items[..|items| - 1], id);
    }
  }

  /** What one entry contributes to the total: effective unit price times quantity. */
  function LineTotal(item: CartItem): real {
    EffectivePrice(item.product) * item.quantity as real
  }

  /** `calculateTotal`: the sum of the line totals, accumulated from the left. */
  function Total(items: seq<CartItem>): real {
    if |items| == 0 then 0.0 else Total(items[..|items| - 1]) + LineTotal(items[|items| - 1])
  }

  /** Units of one product held in the cart, over every entry carrying its id. */
  function QuantityOf(items: seq<CartItem>, id: string): int {
    if |items| == 0 then 0
    else QuantityOf(items[..|items| - 1], id)
         + (if items[|items| - 1].product.id == id then items[|items| - 1].quantity else 0)
  }

  /** The derived figures agree with the entries. */
  predicate Fresh(s: CartState) {
    s.itemCount == ItemCount(s.items) && s.total == Total(s.items)
  }

  /** At most one entry per product id. */
  predicate DistinctIds(items: seq<CartItem>) {
    forall i, j :: 0 <= i < j < |items| ==> items[i].product.id != items[j].product.id
  }

  predicate HasId(items: seq<CartItem>, id: string) {
    exists k :: 0 <= k < |items| && items[k].product.id == id
  }

  /** `findIndex`: the first position holding `id`, or -1. */
  function FindIndex(items: seq<CartItem>, id: string): (r: int)
    ensures -1 <= r < |items|
    ensures r == -1 <==> !HasId(items, id)
    ensures r >= 0 ==> items[r].product.id == id
    ensures r >= 0 ==> forall j :: 0 <= j < r ==> items[j].product.id != id
  {
    if |items| == 0 then -1
    else if items[0].product.id == id then 0
    else
      var k := FindIndex(items[1..], id);
      assert forall j :: 1 <= j < |items| ==> items[1..][j - 1] == items[j];
      if k == -1 then -1 else k + 1
  }

  /** The entries of every other product, in their order: an entry for `id`
      is dropped, any other entry is kept as many times as it occurs. */
  function Without(items: seq<CartItem>, id: string): (r: seq<CartItem>)
    ensures forall x :: x in r <==> x in items && x.product.id != id
    ensures |r| <= |items|
  {
    if |items| == 0 then []
    else if items[0].product.id == id then Without(items[1..], id)
    else [items[0]] + Without(items[1..], id)
  }

  /** Removal keeps each entry of another product as many times as it occurs. */
  lemma {:induction false} WithoutCounts(items: seq<CartItem>, id: string, x: CartItem)
    ensures multiset(Without(items, id))[x] == if x.product.id == id then 0 else multiset(items)[x]
    decreases |items|
  {
    if |items| > 0 {
      assert items == [items[0]] + items[1..];
      WithoutCounts(items[1..], id, x);
    }
  }

  /** Removal works part by part: removing from a concatenation removes from
      each part, so the kept entries stay in their order. */
  lemma {:induction false} WithoutAppend(a: seq<CartItem>, b: seq<CartItem>, id: string)
    ensures Without(a + b, id) == Without(a, id) + Without(b, id)
    decreases |a|
  {
    if |a| == 0 {
      assert a + b == b;
    } else {
      var rest := a[1..] + b;
      assert a + b == [a[0]] + rest;
      assert (a + b)[1..] == rest;
      WithoutAppend(a[1..], b, id);
    }
  }

  /** A single entry is dropped exactly when it carries `id`. */
  lemma WithoutSingle(x: CartItem, id: string)
    ensures Without([x], id) == if x.product.id == id then [] else [x]
  {
    assert [x][1..] == [];
  }

  /** The UPDATE map: every entry of that product takes quantity `q`, in its
      place; every other entry is untouched. */
  function WithQuantity(items: seq<CartItem>, id: string, q: int): (r: seq<CartItem>)
    ensures |r| == |items|
    ensures forall k :: 0 <= k < |items| ==> r[k].product == items[k].product
    ensures forall k :: 0 <= k < |items| && items[k].product.id == id ==> r[k].quantity == q
    ensures forall k :: 0 <= k < |items| && items[k].product.id != id ==> r[k] == items[k]
  {
    seq(|items|, k requires 0 <= k < |items| =>
      if items[k].product.id == id then items[k].(quantity := q) else items[k])
  }

  /** A state whose derived figures are computed from `items`. */
  function Recompute(items: seq<CartItem>): (r: CartState)
    ensures r.items == items && Fresh(r)
  {
    CartState(items, ItemCount(items), Total(items))
  }

  /** `cartReducer`. Every action leaves the derived figures in step with the entries. */
  function Reduce(s: CartState, a: Action): (r: CartState)
    ensures Fresh(r)
  {
    match a
    case AddToCart(p) =>
      var i := FindIndex(s.items, p.id);
      if i > -1 then
        Recompute(s.items[i := s.items[i].(quantity := s.items[i].quantity + 1)])
      else
        Recompute(s.items + [CartItem(p, 1)])
    case RemoveFromCart(id) => Recompute(Without(s.items, id))
    case UpdateQuantity(id, q) => Recompute(WithQuantity(s.items, id, q))
    case ClearCart => InitialState
  }

  // ---------------------------------------------------------------------------
  // Arithmetic of the derived figures

  lemma {:induction false} ItemCountAppend(items: seq<CartItem>, x: CartItem)
    ensures ItemCount(items + [x]) == ItemCount(items) + x.quantity
    ensures Total(items + [x]) == Total(items) + LineTotal(x)
  {
    assert (items + [x])[..|items|] == items;
  }

  /** Replacing one entry changes each sum by exactly the difference it makes. */
  lemma {:induction false} SumsAfterReplace(items: seq<CartItem>, i: int, x: CartItem, id: string)
    requires 0 <= i < |items|
    ensures ItemCount(items[i := x]) == ItemCount(items) - items[i].quantity + x.quantity
    ensures Total(items[i := x]) == Total(items) - LineTotal(items[i]) + LineTotal(x)
    ensures QuantityOf(items[i := x], id) ==
              QuantityOf(items, id)
              - (if items[i].product.id == id then items[i].quantity else 0)
              + (if x.product.id == id then x.quantity else 0)
    decreases |items|
  {
    var n := |items|;
    var u := items[i := x];
    if i == n - 1 {
      assert u[..n - 1] == items[..n - 1];
    } else {
      assert u[..n - 1] == items[..n - 1][i := x];
      SumsAfterReplace(items[..n - 1], i, x, id);
    }
  }

  lemma {:induction false} QuantityOfAppend(items: seq<CartItem>, x: CartItem, id: string)
    ensures QuantityOf(items + [x], id) == QuantityOf(items, id) + (if x.product.id == id then x.quantity else 0)
  {
    assert (items + [x])[..|items|] == items;
  }

  /** With no entry for `id`, it accounts for no units. */
  lemma {:induction false} QuantityOfAbsent(items: seq<CartItem>, id: string)
    requires !HasId(items, id)
    ensures QuantityOf(items, id) == 0
    decreases |items|
  {
    if |items| > 0 {
      var init := items[..|items| - 1];
      assert !HasId(init, id) by {
        forall k | 0 <= k < |init| ensures init[k].product.id != id {
          assert init[k] == items[k];
        }
      }
      QuantityOfAbsent(init, id);
    }
  }

  // ---------------------------------------------------------------------------
  // ADD_TO_CART

  /** Adding a product already in the cart bumps that entry by one, in place;
      every other entry stays as it was. */
  lemma AddExisting(s: CartState, p: Product)
    requires HasId(s.items, p.id)
    ensures var r := Reduce(s, AddToCart(p));
      var i := FindIndex(s.items, p.id);
      && |r.items| == |s.items|
      && r.items[i].product == s.items[i].product
      && r.items[i].quantity == s.items[i].quantity + 1
      && (forall j :: 0 <= j < |s.items| && j != i ==> r.items[j] == s.items[j])
  {
  }

  /** Adding a product with no entry appends one entry of quantity 1 at the end. */
  lemma AddNew(s: CartState, p: Product)
    requires !HasId(s.items, p.id)
    ensures Reduce(s, AddToCart(p)).items == s.items + [CartItem(p, 1)]
  {
  }

  /** One ADD_TO_CART puts exactly one more unit of that product in the cart:
      the unit count rises by one and the total by that entry's effective price;
      no other product's units change. */
  lemma {:induction false} AddCounts(s: CartState, p: Product)
    ensures var r := Reduce(s, AddToCart(p));
      && ItemCount(r.items) == ItemCount(s.items) + 1
      && QuantityOf(r.items, p.id) == QuantityOf(s.items, p.id) + 1
      && (forall other :: other != p.id ==> QuantityOf(r.items, other) == QuantityOf(s.items, other))
      && (HasId(s.items, p.id) ==>
            r.total == Total(s.items) + EffectivePrice(s.items[FindIndex(s.items, p.id)].product))
      && (!HasId(s.items, p.id) ==> r.total == Total(s.items) + EffectivePrice(p))
  {
    var r := Reduce(s, AddToCart(p));
    var i := FindIndex(s.items, p.id);
    if i > -1 {
      var x := s.items[i].(quantity := s.items[i].quantity + 1);
      SumsAfterReplace(s.items, i, x, p.id);
      forall other | other != p.id
        ensures QuantityOf(r.items, other) == QuantityOf(s.items, other)
      {
        SumsAfterReplace(s.items, i, x, other);
      }
      LineTotalBump(s.items[i]);
    } else {
      ItemCountAppend(s.items, CartItem(p, 1));
      QuantityOfAppend(s.items, CartItem(p, 1), p.id);
      forall other | other != p.id
        ensures QuantityOf(r.items, other) == QuantityOf(s.items, other)
      {
        QuantityOfAppend(s.items, CartItem(p, 1), other);
      }
      assert LineTotal(CartItem(p, 1)) == EffectivePrice(p);
    }
  }

  lemma LineTotalBump(item: CartItem)
    ensures LineTotal(item.(quantity := item.quantity + 1)) == LineTotal(item) + EffectivePrice(item.product)
  {
    var e := EffectivePrice(item.product);
    assert e * (item.quantity + 1) as real == e * item.quantity as real + e;
  }

  // ---------------------------------------------------------------------------
  // REMOVE_FROM_CART

  lemma {:induction false} WithoutAbsent(items: seq<CartItem>, id: string)
    requires !HasId(items, id)
    ensures Without(items, id) == items
    decreases |items|
  {
    if |items| > 0 {
      assert items[0].product.id != id;
      assert !HasId(items[1..], id) by {
        forall k | 0 <= k < |items[1..]| ensures items[1..][k].product.id != id {
          assert items[1..][k] == items[k + 1];
        }
      }
      WithoutAbsent(items[1..], id);
    }
  }

  /** REMOVE keeps exactly the entries with another id, each as often as
      before and in their order (cut the cart anywhere and the result is the
      kept entries of the front followed by those of the back), and removing
      an id the cart does not hold changes nothing at all. */
  lemma RemoveSpec(s: CartState, id: string)
    ensures var r := Reduce(s, RemoveFromCart(id));
      && (forall x :: x in r.items <==> x in s.items && x.product.id != id)
      && (forall x: CartItem :: x.product.id != id ==> multiset(r.items)[x] == multiset(s.items)[x])
      && (forall k :: 0 <= k <= |s.items| ==>
            r.items == Without(s.items[..k], id) + Without(s.items[k..], id))
      && !HasId(r.items, id)
      && QuantityOf(r.items, id) == 0
    ensures Fresh(s) && !HasId(s.items, id) ==> Reduce(s, RemoveFromCart(id)) == s
  {
    var r := Reduce(s, RemoveFromCart(id));
    forall x: CartItem | x.product.id != id
      ensures multiset(r.items)[x] == multiset(s.items)[x]
    {
      WithoutCounts(s.items, id, x);
    }
    forall k | 0 <= k <= |s.items|
      ensures r.items == Without(s.items[..k], id) + Without(s.items[k..], id)
    {
      assert s.items == s.items[..k] + s.items[k..];
      WithoutAppend(s.items[..k], s.items[k..], id);
    }
    assert !HasId(r.items, id) by {
      forall k | 0 <= k < |r.items| ensures r.items[k].product.id != id {
        assert r.items[k] in r.items;
      }
    }
    QuantityOfAbsent(r.items, id);
    if !HasId(s.items, id) {
      WithoutAbsent(s.items, id);
    }
  }

  // ---------------------------------------------------------------------------
  // UPDATE_QUANTITY

  /** UPDATE_QUANTITY stores the requested quantity verbatim (zero and negative
      included) on the entries for that id and touches nothing else; an unknown
      id changes no entry. */
  lemma UpdateSpec(s: CartState, id: string, q: int)
    ensures var r := Reduce(s, UpdateQuantity(id, q));
      && |r.items| == |s.items|
      && (forall j :: 0 <= j < |s.items| ==> r.items[j].product == s.items[j].product)
      && (forall j :: 0 <= j < |s.items| && s.items[j].product.id == id ==> r.items[j].quantity == q)
      && (forall j :: 0 <= j < |s.items| && s.items[j].product.id != id ==> r.items[j] == s.items[j])
    ensures Fresh(s) && !HasId(s.items, id) ==> Reduce(s, UpdateQuantity(id, q)) == s
  {
    if !HasId(s.items, id) {
      assert WithQuantity(s.items, id, q) == s.items;
    }
  }

  // ---------------------------------------------------------------------------
  // CLEAR_CART

  /** CLEAR returns the initial state whatever the cart held. */
  lemma ClearSpec(s: CartState)
    ensures var r := Reduce(s, ClearCart);
      r.items == [] && r.itemCount == 0 && r.total == 0.0 && r == InitialState
  {
  }

  // ---------------------------------------------------------------------------
  // One entry per product id

  lemma {:induction false} WithoutKeepsDistinct(items: seq<CartItem>, id: string)
    requires DistinctIds(items)
    ensures DistinctIds(Without(items, id))
    decreases |items|
  {
    if |items| > 0 {
      var tail := items[1..];
      assert DistinctIds(tail) by {
        forall i, j | 0 <= i < j < |tail| ensures tail[i].product.id != tail[j].product.id {
          assert tail[i] == items[i + 1] && tail[j] == items[j + 1];
        }
      }
      WithoutKeepsDistinct(tail, id);
      if items[0].product.id != id {
        var rest := Without(tail, id);
        var r := [items[0]] + rest;
        forall j | 0 <= j < |rest| ensures rest[j].product.id != items[0].product.id {
          assert rest[j] in tail;
          var k :| 0 <= k < |tail| && tail[k] == rest[j];
          assert tail[k] == items[k + 1];
        }
        forall i, j | 0 <= i < j < |r| ensures r[i].product.id != r[j].product.id {
          assert r[j] == rest[j - 1];
          if i > 0 {
            assert r[i] == rest[i - 1];
          }
        }
      }
    }
  }

  /** No action can introduce a second entry for a product id. */
  lemma ReduceKeepsDistinct(s: CartState, a: Action)
    requires DistinctIds(s.items)
    ensures DistinctIds(Reduce(s, a).items)
  {
    match a
    case AddToCart(p) =>
      if !HasId(s.items, p.id) {
        var r := s.items + [CartItem(p, 1)];
        forall i, j | 0 <= i < j < |r| ensures r[i].product.id != r[j].product.id {
          if j == |s.items| {
            assert r[i] == s.items[i];
          }
        }
      }
    case RemoveFromCart(id) => WithoutKeepsDistinct(s.items, id);
    case UpdateQuantity(id, q) =>
    case ClearCart =>
  }

  /** Repeated ADD_TO_CART of one product from an empty cart yields a single
      entry whose quantity is the number of adds. */
  lemma {:induction false} RepeatedAdds(p: Product, n: nat)
    requires n >= 1
    ensures var r := AddTimes(InitialState, p, n);
      r.items == [CartItem(p, n)] && r.itemCount == n
  {
    ItemCountAppend([], CartItem(p, n));
    if n > 1 {
      RepeatedAdds(p, n - 1);
      var s := AddTimes(InitialState, p, n - 1);
      assert FindIndex(s.items, p.id) == 0;
      assert s.items[0 := CartItem(p, n)] == [CartItem(p, n)];
    }
  }

  /** `n` successive ADD_TO_CART dispatches of the same product. */
  function AddTimes(s: CartState, p: Product, n: nat): CartState {
    if n == 0 then s else Reduce(AddTimes(s, p, n - 1), AddToCart(p))
  }
}
