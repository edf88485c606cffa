/**
 * The cart of the ordering front end (frontend/src/context/CartContext.tsx).
 * Each updater is a function from the previous cart to the next one, as the
 * `setCart(prev => ...)` callbacks are; prices are in cents.
 */
module Cart {
  import opened Common
  import opened Catalog

  predicate HasId(cart: seq<CartItem>, id: string) {
    exists k :: 0 <= k < |cart| && cart[k].item.id == id
  }

  ghost predicate UniqueIds(cart: seq<CartItem>) {
    forall i, j :: 0 <= i < j < |cart| ==> cart[i].item.id != cart[j].item.id
  }

  ghost predicate PositiveQuantities(cart: seq<CartItem>) {
    forall c :: c in cart ==> c.quantity >= 1
  }

  /** The invariant every cart operation keeps: one entry per id, every quantity at least 1. */
  ghost predicate WellFormed(cart: seq<CartItem>) {
    UniqueIds(cart) && PositiveQuantities(cart)
  }

  /** `prev.map(i => i.id === id ? { ...i, quantity: f(i.quantity) } : i)` */
  function MapQuantity(cart: seq<CartItem>, id: string, f: int -> int): seq<CartItem> {
    seq(|cart|, k requires 0 <= k < |cart| =>
      if cart[k].item.id == id then cart[k].(quantity := f(cart[k].quantity)) else cart[k])
  }

  /** `addToCart`: bump the entry with the item's id, or append the item with quantity 1. */
  function AddToCart(cart: seq<CartItem>, item: MenuItem): (r: seq<CartItem>)
    ensures HasId(r, item.id)
    ensures |r| == if HasId(cart, item.id) then |cart| else |cart| + 1
  {
    match FindFirst(cart, (i: CartItem) => i.item.id == item.id)
    case Some(k) =>
      var r := MapQuantity(cart, item.id, (q: int) => q + 1);
      assert r[k].item.id == item.id;
      r
    case None =>
      assert (cart + [CartItem(item, 1)])[|cart|].item.id == item.id;
      cart + [CartItem(item, 1)]
  }

  /** `updateQuantity`: the entries with that id get `Math.max(1, quantity + delta)`. */
  function UpdateQuantity(cart: seq<CartItem>, id: string, delta: int): (r: seq<CartItem>)
    ensures |r| == |cart|
    ensures forall c :: c in r && c.item.id == id ==> c.quantity >= 1
  {
    MapQuantity(cart, id, (q: int) => if 1 >= q + delta then 1 else q + delta)
  }

  /** The filter callback `i => i.id !== id`. */
  function OtherThan(id: string): CartItem -> bool {
    (i: CartItem) => i.item.id != id
  }

  /** `removeFromCart`: `prev.filter(i => i.id !== id)`. */
  function RemoveFromCart(cart: seq<CartItem>, id: string): (r: seq<CartItem>)
    ensures !HasId(r, id)
    ensures forall c :: c in r <==> c in cart && c.item.id != id
  {
    var r := Filter(cart, OtherThan(id));
    assert forall k :: 0 <= k < |r| ==> r[k] in r;
    r
  }

  /** `clearCart`: no entry is left, and the total and the count read zero. */
  function ClearCart(): (r: seq<CartItem>)
    ensures forall id :: !HasId(r, id)
    ensures WellFormed(r) && Total(r) == 0 && CartCount(r) == 0
  {
    []
  }

  // ---------------------------------------------------------------------------
  // Totals: `reduce` from the left, and a reference sum to compare it with
  // ---------------------------------------------------------------------------

  function Subtotal(c: CartItem): int {
    c.item.price * c.quantity
  }

  function Quantity(c: CartItem): int {
    c.quantity
  }

  /** `cart.reduce((s, i) => s + g(i), acc)` */
  function Reduce(cart: seq<CartItem>, g: CartItem -> int, acc: int): int
    decreases |cart|
  {
    if cart == [] then acc else Reduce(cart[1..], g, acc + g(cart[0]))
  }

  /** The sum of `g` over the entries, defined structurally. */
  function SumOf(cart: seq<CartItem>, g: CartItem -> int): int
    decreases |cart|
  {
    if cart == [] then 0 else g(cart[0]) + SumOf(cart[1..], g)
  }

  /** `total`, in cents: the sum of price times quantity. */
  function Total(cart: seq<CartItem>): (r: int)
    ensures r == SumOf(cart, Subtotal)
  {
    ReduceIsSum(cart, Subtotal, 0);
    Reduce(cart, Subtotal, 0)
  }

  /** `cartCount`: the sum of the quantities. */
  function CartCount(cart: seq<CartItem>): (r: int)
    ensures r == SumOf(cart, Quantity)
  {
    ReduceIsSum(cart, Quantity, 0);
    Reduce(cart, Quantity, 0)
  }

  lemma {:induction false} ReduceIsSum(cart: seq<CartItem>, g: CartItem -> int, acc: int)
    ensures Reduce(cart, g, acc) == acc + SumOf(cart, g)
    decreases |cart|
  {
    if cart != [] {
      ReduceIsSum(cart[1..], g, acc + g(cart[0]));
    }
  }

  lemma {:induction false} SumAppend(cart: seq<CartItem>, c: CartItem, g: CartItem -> int)
    ensures SumOf(cart + [c], g) == SumOf(cart, g) + g(c)
    decreases |cart|
  {
    if cart == [] {
      assert [] + [c] == [c];
      assert [c][1..] == [];
    } else {
      SumAppend(cart[1..], c, g);
      assert (cart + [c])[1..] == cart[1..] + [c];
    }
  }

  /** Two carts that differ only at position `k` differ in sum by what changed there. */
  lemma {:induction false} SumPointUpdate(a: seq<CartItem>, b: seq<CartItem>, k: nat, g: CartItem -> int)
    requires |a| == |b| && k < |a|
    requires forall j :: 0 <= j < |a| && j != k ==> a[j] == b[j]
    ensures SumOf(b, g) == SumOf(a, g) - g(a[k]) + g(b[k])
    decreases |a|
  {
    if k == 0 {
      assert a[1..] == b[1..];
    } else {
      SumPointUpdate(a[1..], b[1..], k - 1, g);
    }
  }

  /** With unique ids, mapping the quantity of one id changes one position only. */
  lemma MapQuantityAt(cart: seq<CartItem>, id: string, f: int -> int, k: nat)
    requires UniqueIds(cart) && k < |cart| && cart[k].item.id == id
    ensures forall j :: 0 <= j < |cart| && j != k ==> MapQuantity(cart, id, f)[j] == cart[j]
    ensures MapQuantity(cart, id, f)[k] == cart[k].(quantity := f(cart[k].quantity))
  {
  }

  lemma MapQuantityAbsent(cart: seq<CartItem>, id: string, f: int -> int)
    requires !HasId(cart, id)
    ensures MapQuantity(cart, id, f) == cart
  {
  }

  // ---------------------------------------------------------------------------
  // addToCart
  // ---------------------------------------------------------------------------

  /** A new id is appended at the end with quantity 1; the other entries are untouched. */
  lemma AddNewAppends(cart: seq<CartItem>, item: MenuItem)
    requires !HasId(cart, item.id)
    ensures AddToCart(cart, item) == cart + [CartItem(item, 1)]
  {
  }

  /**
   * A present id keeps the cart's length and raises only that entry's
   * quantity by one; the entry keeps its own fields, not the added item's.
   */
  lemma AddExistingIncrements(cart: seq<CartItem>, item: MenuItem, k: nat)
    requires UniqueIds(cart) && k < |cart| && cart[k].item.id == item.id
    ensures |AddToCart(cart, item)| == |cart|
    ensures AddToCart(cart, item)[k] == cart[k].(quantity := cart[k].quantity + 1)
    ensures forall j :: 0 <= j < |cart| && j != k ==> AddToCart(cart, item)[j] == cart[j]
  {
    var r := FindFirst(cart, (i: CartItem) => i.item.id == item.id);
    assert r.Some?;
    MapQuantityAt(cart, item.id, (q: int) => q + 1, k);
  }

  lemma AddPreservesWellFormed(cart: seq<CartItem>, item: MenuItem)
    requires WellFormed(cart)
    ensures WellFormed(AddToCart(cart, item))
  {
    var r := AddToCart(cart, item);
    if !HasId(cart, item.id) {
      AddNewAppends(cart, item);
      assert r == cart + [CartItem(item, 1)];
      forall c | c in r ensures c.quantity >= 1 {
        if c != CartItem(item, 1) {
          assert c in cart;
        }
      }
    } else {
      var k :| 0 <= k < |cart| && cart[k].item.id == item.id;
      AddExistingIncrements(cart, item, k);
      forall c | c in r ensures c.quantity >= 1 {
        var j :| 0 <= j < |r| && r[j] == c;
        if j != k {
          assert cart[j] in cart;
        } else {
          assert cart[k] in cart;
        }
      }
    }
  }

  /** Adding any item raises the item count by exactly one. */
  lemma AddCount(cart: seq<CartItem>, item: MenuItem)
    requires UniqueIds(cart)
    ensures CartCount(AddToCart(cart, item)) == CartCount(cart) + 1
  {
    if !HasId(cart, item.id) {
      SumAppend(cart, CartItem(item, 1), Quantity);
    } else {
      var k :| 0 <= k < |cart| && cart[k].item.id == item.id;
      AddExistingIncrements(cart, item, k);
      SumPointUpdate(cart, AddToCart(cart, item), k, Quantity);
    }
  }

  /**
   * Adding an item raises the total by one unit price: the price already in
   * the cart for that id, or the item's price when the id is new.
   */
  lemma AddTotal(cart: seq<CartItem>, item: MenuItem, price: int)
    requires UniqueIds(cart)
    requires HasId(cart, item.id) ==> exists k :: 0 <= k < |cart| && cart[k].item.id == item.id && cart[k].item.price == price
    requires !HasId(cart, item.id) ==> price == item.price
    ensures Total(AddToCart(cart, item)) == Total(cart) + price
  {
    if !HasId(cart, item.id) {
      SumAppend(cart, CartItem(item, 1), Subtotal);
    } else {
      var k :| 0 <= k < |cart| && cart[k].item.id == item.id && cart[k].item.price == price;
      AddExistingIncrements(cart, item, k);
      SumPointUpdate(cart, AddToCart(cart, item), k, Subtotal);
    }
  }

  // ---------------------------------------------------------------------------
  // updateQuantity
  // ---------------------------------------------------------------------------

  /** An id that is not in the cart leaves the cart as it was. */
  lemma UpdateAbsentUnchanged(cart: seq<CartItem>, id: string, delta: int)
    requires !HasId(cart, id)
    ensures UpdateQuantity(cart, id, delta) == cart
  {
    MapQuantityAbsent(cart, id, (q: int) => if 1 >= q + delta then 1 else q + delta);
  }

  /** The entry with the id gets `max(1, quantity + delta)`, the others are untouched. */
  lemma UpdateSetsQuantity(cart: seq<CartItem>, id: string, delta: int, k: nat)
    requires UniqueIds(cart) && k < |cart| && cart[k].item.id == id
    ensures UpdateQuantity(cart, id, delta)[k].item == cart[k].item
    ensures UpdateQuantity(cart, id, delta)[k].quantity == Max1(cart[k].quantity + delta)
    ensures forall j :: 0 <= j < |cart| && j != k ==> UpdateQuantity(cart, id, delta)[j] == cart[j]
  {
    MapQuantityAt(cart, id, (q: int) => if 1 >= q + delta then 1 else q + delta, k);
  }

  function Max1(q: int): int {
    if 1 >= q then 1 else q
  }

  lemma UpdatePreservesWellFormed(cart: seq<CartItem>, id: string, delta: int)
    requires WellFormed(cart)
    ensures WellFormed(UpdateQuantity(cart, id, delta))
  {
    var r := UpdateQuantity(cart, id, delta);
    forall c | c in r ensures c.quantity >= 1 {
      var j :| 0 <= j < |r| && r[j] == c;
      assert cart[j] in cart;
    }
  }

  /** The count moves by the difference between the new and the old quantity of that entry. */
  lemma UpdateCount(cart: seq<CartItem>, id: string, delta: int, k: nat)
    requires UniqueIds(cart) && k < |cart| && cart[k].item.id == id
    ensures CartCount(UpdateQuantity(cart, id, delta))
         == CartCount(cart) - cart[k].quantity + Max1(cart[k].quantity + delta)
  {
    var r := UpdateQuantity(cart, id, delta);
    UpdateSetsQuantity(cart, id, delta, k);
    SumPointUpdate(cart, r, k, Quantity);
  }

  // ---------------------------------------------------------------------------
  // removeFromCart and clearCart
  // ---------------------------------------------------------------------------

  /** The entries that remain keep their relative order. */
  lemma RemoveKeepsOrder(cart: seq<CartItem>, id: string)
    ensures SubseqOf(RemoveFromCart(cart, id), cart)
  {
    FilterIsSubseq(cart, OtherThan(id));
  }

  lemma RemoveIdempotent(cart: seq<CartItem>, id: string)
    ensures RemoveFromCart(RemoveFromCart(cart, id), id) == RemoveFromCart(cart, id)
  {
    FilterIdempotent(cart, OtherThan(id));
  }

  lemma {:induction false} FilterKeepsUniqueIds(cart: seq<CartItem>, p: CartItem -> bool)
    requires UniqueIds(cart)
    ensures UniqueIds(Filter(cart, p))
    decreases |cart|
  {
    if cart != [] {
      var rest := Filter(cart[1..], p);
      FilterKeepsUniqueIds(cart[1..], p);
      if p(cart[0]) {
        var r := [cart[0]] + rest;
        forall i, j | 0 <= i < j < |r| ensures r[i].item.id != r[j].item.id {
          if i == 0 {
            assert r[j] == rest[j - 1];
            assert rest[j - 1] in cart[1..];
          } else {
            assert r[i] == rest[i - 1] && r[j] == rest[j - 1];
          }
        }
      }
    }
  }

  lemma RemovePreservesWellFormed(cart: seq<CartItem>, id: string)
    requires WellFormed(cart)
    ensures WellFormed(RemoveFromCart(cart, id))
  {
    FilterKeepsUniqueIds(cart, OtherThan(id));
  }

  /** With unique ids, removing a present id lowers the count and the total by that entry's share. */
  lemma {:induction false} RemoveSums(cart: seq<CartItem>, id: string, k: nat, g: CartItem -> int)
    requires UniqueIds(cart) && k < |cart| && cart[k].item.id == id
    ensures SumOf(RemoveFromCart(cart, id), g) == SumOf(cart, g) - g(cart[k])
    decreases |cart|
  {
    var p := OtherThan(id);
    if k == 0 {
      forall i | 0 <= i < |cart[1..]| ensures p(cart[1..][i]) {
        assert cart[1..][i] == cart[i + 1];
      }
      FilterKeepsAll(cart[1..], p);
      assert !p(cart[0]);
      assert Filter(cart, p) == [] + Filter(cart[1..], p) == cart[1..];
    } else {
      RemoveSums(cart[1..], id, k - 1, g);
    }
  }

  lemma RemoveTotals(cart: seq<CartItem>, id: string, k: nat)
    requires UniqueIds(cart) && k < |cart| && cart[k].item.id == id
    ensures CartCount(RemoveFromCart(cart, id)) == CartCount(cart) - cart[k].quantity
    ensures Total(RemoveFromCart(cart, id)) == Total(cart) - cart[k].item.price * cart[k].quantity
  {
    RemoveSums(cart, id, k, Quantity);
    RemoveSums(cart, id, k, Subtotal);
  }

  /** After `clearCart` the cart starts over: the next add gives one entry with quantity 1. */
  lemma AddAfterClear(item: MenuItem)
    ensures AddToCart(ClearCart(), item) == [CartItem(item, 1)]
    ensures CartCount(AddToCart(ClearCart(), item)) == 1 && Total(AddToCart(ClearCart(), item)) == item.price
  {
    AddNewAppends(ClearCart(), item);
    assert [CartItem(item, 1)][1..] == [];
  }

  /** In a well-formed cart the count is at least the number of entries. */
  lemma {:induction false} CountAtLeastEntries(cart: seq<CartItem>)
    requires PositiveQuantities(cart)
    ensures CartCount(cart) >= |cart|
  {
    SumAtLeastLength(cart);
  }

  lemma {:induction false} SumAtLeastLength(cart: seq<CartItem>)
    requires PositiveQuantities(cart)
    ensures SumOf(cart, Quantity) >= |cart|
    decreases |cart|
  {
    if cart != [] {
      assert cart[0] in cart;
      assert forall c :: c in cart[1..] ==> c in cart;
      SumAtLeastLength(cart[1..]);
    }
  }
}
