/** The shopping cart as a value: an ordered sequence of line items kept in the
    browser's storage slot, the lookup by product id that both pages use, the two
    ways the pages change a cart, and the sums (order total, quantity per product)
    that the stock bookkeeping is stated in. */
module CartModel {

  type ProductId = int

  datatype Option<T> = None | Some(value: T)

  /** A product record as the server sends it. A cart line is the same record
      copied at add time, with `quantity` holding the amount in the cart instead
      of the stock. Prices are whole cents. */
  datatype Item = Item(
    id: ProductId,
    name: string,
    image: string,
    price: int,
    quantity: int,
    brand: string,
    condition: string,
    color: string,
    yearsUsed: int,
    description: string)

  type Cart = seq<Item>

  predicate HasId(cart: Cart, id: ProductId) {
    exists j :: 0 <= j < |cart| && cart[j].id == id
  }

  /** At most one line per product id. */
  predicate UniqueIds(cart: Cart) {
    forall i, j :: 0 <= i < j < |cart| ==> cart[i].id != cart[j].id
  }

  /** Every line holds at least one unit. */
  predicate PositiveQuantities(cart: Cart) {
    forall i :: 0 <= i < |cart| ==> cart[i].quantity >= 1
  }

  function Min(a: int, b: int): int {
    if a <= b then a else b
  }

  /** The index of the first line whose id is `id`, or -1 when there is none
      (JavaScript's `findIndex`; `find` returns the line at this index). */
  function FindIndex(cart: Cart, id: ProductId): (r: int)
    ensures -1 <= r < |cart|
    ensures r == -1 <==> !HasId(cart, id)
    ensures r >= 0 ==> cart[r].id == id && forall j :: 0 <= j < r ==> cart[j].id != id
  {
    if |cart| == 0 then -1
    else if cart[0].id == id then 0
    else
      var k := FindIndex(cart[1..], id);
      assert HasId(cart, id) ==> HasId(cart[1..], id) by {
        if HasId(cart, id) {
          var j :| 0 <= j < |cart| && cart[j].id == id;
          assert cart[1..][j - 1].id == id;
        }
      }
      if k == -1 then -1 else k + 1
  }

  /** The cart after a successful `addToCart` of `q` units of product `p`:
      the existing line for `p.id` grows by `q`, or a copy of `p` carrying
      quantity `q` is appended at the end. */
  function CartAfterAdd(cart: Cart, p: Item, q: int): (r: Cart)
    ensures HasId(r, p.id)
    ensures HasId(cart, p.id) ==> |r| == |cart|
    ensures !HasId(cart, p.id) ==> r == cart + [p.(quantity := q)]
    ensures forall j :: 0 <= j < |cart| && j != FindIndex(cart, p.id) ==> r[j] == cart[j]
    ensures HasId(cart, p.id) ==>
              var i := FindIndex(cart, p.id);
              r[i] == cart[i].(quantity := cart[i].quantity + q)
    ensures UniqueIds(cart) ==> UniqueIds(r)
    ensures PositiveQuantities(cart) && q >= 1 ==> PositiveQuantities(r)
  {
    var i := FindIndex(cart, p.id);
    if i >= 0 then
      var r := cart[i := cart[i].(quantity := cart[i].quantity + q)];
      assert r[i].id == p.id;
      r
    else
      var r := cart + [p.(quantity := q)];
      assert r[|cart|].id == p.id;
      r
  }

  /** The cart after `removeItem` has removed `q` units from line `i`: the line
      is dropped when `q` reaches its quantity, and is reduced by `q` otherwise. */
  function CartAfterRemove(cart: Cart, i: nat, q: int): (r: Cart)
    requires i < |cart|
    ensures q >= cart[i].quantity ==> |r| == |cart| - 1
    ensures q >= cart[i].quantity ==> forall j :: 0 <= j < i ==> r[j] == cart[j]
    ensures q >= cart[i].quantity ==> forall j :: i < j < |cart| ==> r[j - 1] == cart[j]
    ensures q < cart[i].quantity ==> |r| == |cart| && r[i].quantity == cart[i].quantity - q
    ensures q < cart[i].quantity ==> r[i] == cart[i].(quantity := r[i].quantity)
    ensures q < cart[i].quantity ==> forall j :: 0 <= j < |cart| && j != i ==> r[j] == cart[j]
    ensures UniqueIds(cart) ==> UniqueIds(r)
    ensures UniqueIds(cart) && q >= cart[i].quantity ==> !HasId(r, cart[i].id)
    ensures PositiveQuantities(cart) ==> PositiveQuantities(r)
  {
    if q >= cart[i].quantity then
      var r := cart[..i] + cart[i + 1..];
      assert forall j :: 0 <= j < |r| ==> r[j] == cart[if j < i then j else j + 1];
      r
    else
      cart[i := cart[i].(quantity := cart[i].quantity - q)]
  }

  /** The sum of `f` over the lines, left to right. */
  function Sum(cart: Cart, f: Item -> int): int {
    if |cart| == 0 then 0 else f(cart[0]) + Sum(cart[1..], f)
  }

  function LineTotal(line: Item): int {
    line.price * line.quantity
  }

  /** The cart's displayed total: the sum of price times quantity. An empty
      cart totals 0, and each further line adds its price times its quantity,
      as the running sum over the lines in order does. */
  function Total(cart: Cart): (r: int)
    ensures |cart| == 0 ==> r == 0
    ensures |cart| > 0 ==>
      var last := cart[|cart| - 1];
      r == Sum(cart[..|cart| - 1], LineTotal) + last.price * last.quantity
  {
    if |cart| == 0 then 0
    else
      SumExtend(cart, |cart| - 1, LineTotal);
      assert cart[..|cart|] == cart;
      Sum(cart, LineTotal)
  }

  function QuantityFor(id: ProductId): Item -> int {
    (line: Item) => if line.id == id then line.quantity else 0
  }

  /** How many units of product `id` the cart holds, over all its lines. */
  function QuantityOf(cart: Cart, id: ProductId): int {
    Sum(cart, QuantityFor(id))
  }

  lemma {:induction false} SumConcat(a: Cart, b: Cart, f: Item -> int)
    ensures Sum(a + b, f) == Sum(a, f) + Sum(b, f)
  {
    if |a| == 0 {
      assert a + b == b;
    } else {
      assert (a + b)[1..] == a[1..] + b;
      SumConcat(a[1..], b, f);
    }
  }

  /** Summing a prefix one more line further adds that line. */
  lemma SumExtend(cart: Cart, i: nat, f: Item -> int)
    requires i < |cart|
    ensures Sum(cart[..i + 1], f) == Sum(cart[..i], f) + f(cart[i])
  {
    assert cart[..i + 1] == cart[..i] + [cart[i]];
    SumConcat(cart[..i], [cart[i]], f);
  }

  lemma SumUpdate(cart: Cart, i: nat, x: Item, f: Item -> int)
    requires i < |cart|
    ensures Sum(cart[i := x], f) == Sum(cart, f) - f(cart[i]) + f(x)
  {
    assert cart == cart[..i] + ([cart[i]] + cart[i + 1..]);
    assert cart[i := x] == cart[..i] + ([x] + cart[i + 1..]);
    SumConcat(cart[..i], [cart[i]] + cart[i + 1..], f);
    SumConcat([cart[i]], cart[i + 1..], f);
    SumConcat(cart[..i], [x] + cart[i + 1..], f);
    SumConcat([x], cart[i + 1..], f);
  }

  lemma {:induction false} SumDelete(cart: Cart, i: nat, f: Item -> int)
    requires i < |cart|
    ensures Sum(cart[..i] + cart[i + 1..], f) == Sum(cart, f) - f(cart[i])
  {
    var r := cart[..i] + cart[i + 1..];
    if i == 0 {
      assert r == cart[1..];
    } else {
      var tail := cart[1..];
      assert r[0] == cart[0];
      assert r[1..] == tail[..i - 1] + tail[i..];
      SumDelete(tail, i - 1, f);
    }
  }

  /** Adding `q` units of `p` raises the cart's count of `p.id` by exactly `q`
      and leaves every other product's count alone, whether the line existed or not. */
  lemma AddQuantities(cart: Cart, p: Item, q: int, id: ProductId)
    ensures QuantityOf(CartAfterAdd(cart, p, q), id) == QuantityOf(cart, id) + (if id == p.id then q else 0)
  {
    var i := FindIndex(cart, p.id);
    if i >= 0 {
      SumUpdate(cart, i, cart[i].(quantity := cart[i].quantity + q), QuantityFor(id));
    } else {
      SumConcat(cart, [p.(quantity := q)], QuantityFor(id));
    }
  }

  /** Adding `q` units raises the total by `q` times the unit price of the line
      that received them: the price stored in the existing line, or the
      product's price for a new line. */
  lemma AddTotal(cart: Cart, p: Item, q: int)
    ensures var i := FindIndex(cart, p.id);
      Total(CartAfterAdd(cart, p, q)) == Total(cart) + q * (if i >= 0 then cart[i].price else p.price)
  {
    var i := FindIndex(cart, p.id);
    if i >= 0 {
      var line := cart[i];
      SumUpdate(cart, i, line.(quantity := line.quantity + q), LineTotal);
      assert line.price * (line.quantity + q) == line.price * line.quantity + q * line.price;
    } else {
      SumConcat(cart, [p.(quantity := q)], LineTotal);
      assert LineTotal(p.(quantity := q)) == q * p.price;
    }
  }

  /** Removing `q` units from line `i` lowers that product's count by
      `min(q, quantity of the line)`, and no other product's count changes. */
  lemma RemoveQuantities(cart: Cart, i: nat, q: int, id: ProductId)
    requires i < |cart|
    ensures QuantityOf(CartAfterRemove(cart, i, q), id)
      == QuantityOf(cart, id) - (if id == cart[i].id then Min(q, cart[i].quantity) else 0)
  {
    if q >= cart[i].quantity {
      SumDelete(cart, i, QuantityFor(id));
    } else {
      SumUpdate(cart, i, cart[i].(quantity := cart[i].quantity - q), QuantityFor(id));
    }
  }

  /** Removing `q` units from line `i` lowers the total by the line's unit
      price times the number of units that actually left the cart. */
  lemma RemoveTotal(cart: Cart, i: nat, q: int)
    requires i < |cart|
    ensures Total(CartAfterRemove(cart, i, q)) == Total(cart) - cart[i].price * Min(q, cart[i].quantity)
  {
    var line := cart[i];
    if q >= line.quantity {
      assert Min(q, line.quantity) == line.quantity;
      SumDelete(cart, i, LineTotal);
    } else {
      var shrunk := line.(quantity := line.quantity - q);
      assert CartAfterRemove(cart, i, q) == cart[i := shrunk];
      SumUpdate(cart, i, shrunk, LineTotal);
      assert LineTotal(shrunk) == LineTotal(line) - line.price * q by {
        assert line.price * (line.quantity - q) == line.price * line.quantity - line.price * q;
      }
    }
  }

  /** With non-negative prices and positive quantities the total is never negative. */
  lemma {:induction false} TotalNonNegative(cart: Cart)
    requires PositiveQuantities(cart)
    requires forall j :: 0 <= j < |cart| ==> cart[j].price >= 0
    ensures Total(cart) >= 0
  {
    if |cart| > 0 {
      assert LineTotal(cart[0]) >= 0;
      TotalNonNegative(cart[1..]);
    }
  }

  /** A product priced 10.00 with 5 in stock, used by `Walkthrough`. */
  const Ball := Item(1, "ball", "ball.png", 1000, 5, "", "", "", 0, "")

  /** A shopper adds 2 balls, adds 2 more (the page then holds 3 in stock),
      removes 1 and then asks to remove 10: the cart holds 2, 4, 3 and then
      no balls, and the totals follow. */
  lemma Walkthrough()
    ensures CartAfterAdd([], Ball, 2) == [Ball.(quantity := 2)]
    ensures Total([Ball.(quantity := 2)]) == 2000
    ensures CartAfterAdd([Ball.(quantity := 2)], Ball.(quantity := 3), 2) == [Ball.(quantity := 4)]
    ensures Total([Ball.(quantity := 4)]) == 4000
    ensures CartAfterRemove([Ball.(quantity := 4)], 0, 1) == [Ball.(quantity := 3)]
    ensures Total([Ball.(quantity := 3)]) == 3000
    ensures CartAfterRemove([Ball.(quantity := 3)], 0, 10) == []
  {
  }
}
