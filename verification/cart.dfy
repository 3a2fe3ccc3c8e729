/** The cart of client/src/components/Cart.tsx: a list of items whose
    quantities the user changes. Prices and quantities are integers. */
module Cart {
  import opened Seqs

  datatype CartItem = CartItem(
    id: string, name: string, price: int, quantity: int, image: string, description: string)

  type Cart = seq<CartItem>

  /** `incrementQuantity(id)`. */
  function Increment(cart: Cart, id: string): (r: Cart)
    ensures |r| == |cart|
    ensures forall i :: 0 <= i < |cart| && cart[i].id == id ==>
      r[i] == cart[i].(quantity := cart[i].quantity + 1)
    ensures forall i :: 0 <= i < |cart| && cart[i].id != id ==> r[i] == cart[i]
    decreases |cart|
  {
    if |cart| == 0 then []
    else
      var head := if cart[0].id == id then cart[0].(quantity := cart[0].quantity + 1) else cart[0];
      [head] + Increment(cart[1..], id)
  }

  /** `decrementQuantity(id)`: a quantity of one is never lowered. */
  function Decrement(cart: Cart, id: string): (r: Cart)
    ensures |r| == |cart|
    ensures forall i :: 0 <= i < |cart| && cart[i].id == id && cart[i].quantity > 1 ==>
      r[i] == cart[i].(quantity := cart[i].quantity - 1)
    ensures forall i :: 0 <= i < |cart| && (cart[i].id != id || cart[i].quantity <= 1) ==> r[i] == cart[i]
    decreases |cart|
  {
    if |cart| == 0 then []
    else
      var head := if cart[0].id == id && cart[0].quantity > 1
                  then cart[0].(quantity := cart[0].quantity - 1) else cart[0];
      [head] + Decrement(cart[1..], id)
  }

  /** `removeItem(id)`: every item with the id is dropped, the rest keep
      their order. */
  function Remove(cart: Cart, id: string): (r: Cart)
    ensures forall i :: 0 <= i < |r| ==> r[i].id != id && r[i] in cart
    ensures forall i :: 0 <= i < |cart| && cart[i].id != id ==> cart[i] in r
    // each item without the id stays as often as it was there
    ensures forall x :: multiset(r)[x] == if x.id != id then multiset(cart)[x] else 0
    ensures IsSubsequence(r, cart)
  {
    FilterCounts(cart, (item: CartItem) => item.id != id);
    Filter(cart, (item: CartItem) => item.id != id)
  }

  /** `clearAll()`. */
  function ClearAll(): (r: Cart)
    ensures |r| == 0
    ensures Total(r) == 0
  {
    []
  }

  /** `cart.reduce((acc, item) => acc + item.price * item.quantity, 0)`. */
  function Total(cart: Cart): int
    decreases |cart|
  {
    if |cart| == 0 then 0 else cart[0].price * cart[0].quantity + Total(cart[1..])
  }

  /** Sum of the prices of the items carrying `id`. */
  function PriceOf(cart: Cart, id: string): int
    decreases |cart|
  {
    if |cart| == 0 then 0 else (if cart[0].id == id then cart[0].price else 0) + PriceOf(cart[1..], id)
  }

  /** Positive quantities stay positive under both buttons. */
  predicate AllPositive(cart: Cart) {
    forall i :: 0 <= i < |cart| ==> cart[i].quantity >= 1
  }

  lemma QuantitiesStayPositive(cart: Cart, id: string)
    requires AllPositive(cart)
    ensures AllPositive(Increment(cart, id))
    ensures AllPositive(Decrement(cart, id))
  {
  }

  /** Decrementing after incrementing the same id restores the cart. */
  lemma DecrementUndoesIncrement(cart: Cart, id: string)
    requires AllPositive(cart)
    ensures Decrement(Increment(cart, id), id) == cart
  {
    var up := Increment(cart, id);
    var down := Decrement(up, id);
    forall i | 0 <= i < |cart| ensures down[i] == cart[i] {
      if cart[i].id == id {
        assert up[i].quantity > 1;
      }
    }
  }

  /** One more of an item raises the total by the prices of the items with
      that id. */
  lemma {:induction false} IncrementTotal(cart: Cart, id: string)
    ensures Total(Increment(cart, id)) == Total(cart) + PriceOf(cart, id)
    decreases |cart|
  {
    if |cart| > 0 {
      IncrementTotal(cart[1..], id);
      assert Increment(cart, id)[1..] == Increment(cart[1..], id);
    }
  }

  /** With no negative price or quantity the total is never negative. */
  lemma {:induction false} TotalNonNegative(cart: Cart)
    requires forall i :: 0 <= i < |cart| ==> cart[i].price >= 0 && cart[i].quantity >= 0
    ensures Total(cart) >= 0
    decreases |cart|
  {
    if |cart| > 0 {
      assert forall i :: 0 <= i < |cart[1..]| ==> cart[1..][i] == cart[i + 1];
      TotalNonNegative(cart[1..]);
      assert cart[0].price * cart[0].quantity >= 0;
    }
  }

  /** The total is the sum over a split of the cart. */
  lemma {:induction false} TotalConcat(a: Cart, b: Cart)
    ensures Total(a + b) == Total(a) + Total(b)
    decreases |a|
  {
    if |a| > 0 {
      assert (a + b)[1..] == a[1..] + b;
      TotalConcat(a[1..], b);
    } else {
      assert a + b == b;
    }
  }

  /** Removing an id that is not in the cart changes nothing. */
  lemma RemoveUnknownId(cart: Cart, id: string)
    requires forall i :: 0 <= i < |cart| ==> cart[i].id != id
    ensures Remove(cart, id) == cart
  {
    FilterAll(cart, (item: CartItem) => item.id != id);
  }

  /** Removing an id takes its items out of the total and nothing else. */
  lemma {:induction false} RemoveTotal(cart: Cart, id: string)
    ensures Total(Remove(cart, id)) == Total(cart) - TotalOf(cart, id)
    decreases |cart|
  {
    if |cart| > 0 {
      RemoveTotal(cart[1..], id);
    }
  }

  /** Sum of price times quantity over the items carrying `id`. */
  function TotalOf(cart: Cart, id: string): int
    decreases |cart|
  {
    if |cart| == 0 then 0
    else (if cart[0].id == id then cart[0].price * cart[0].quantity else 0) + TotalOf(cart[1..], id)
  }
}
