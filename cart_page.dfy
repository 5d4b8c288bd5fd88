/** The cart page: the two totals it shows, removing units of a line, and
    checkout. */
module CartPage {
  import opened CartModel
  import opened Browser

  datatype RemoveOutcome = NotInCart | FetchFailed | Updated

  datatype PurchaseOutcome = IncompleteForm | SubmitFailed | Purchased

  /** The order is submitted only when every field is non-empty. */
  predicate Complete(b: Buyer) {
    b.name != "" && b.email != "" && b.address != "" &&
    b.card != "" && b.expiration != "" && b.ccv != ""
  }

  /** The stock `removeItem` pushes (the fetched server count plus `q`) balances
      the units that left the cart exactly when `q` does not exceed the line's
      quantity; a larger `q` raises the server's count by the excess as well. */
  lemma RemovePushBalancesIff(cart: Cart, i: nat, q: int, serverStock: int)
    requires i < |cart|
    ensures var id := cart[i].id;
      var before := serverStock + QuantityOf(cart, id);
      var after := (serverStock + q) + QuantityOf(CartAfterRemove(cart, i, q), id);
      (after == before <==> q <= cart[i].quantity) &&
      (q > cart[i].quantity ==> after - before == q - cart[i].quantity)
  {
    RemoveQuantities(cart, i, q, cart[i].id);
  }

  class Page {
    const session: Session
    /** The totals shown in the cart view and in the checkout view. */
    var cartTotal: int
    var checkoutTotal: int
    /** The checkout form's fields. */
    var form: Buyer

    /** Both shown totals are the total of the stored cart. */
    predicate Valid()
      reads this, session
    {
      cartTotal == checkoutTotal == Total(session.StoredCart())
    }

    /** `init`: the page renders the stored cart on load. */
    constructor (session: Session, form: Buyer)
      ensures this.session == session && this.form == form
      ensures Valid()
    {
      this.session := session;
      this.form := form;
      new;
      LoadCartItems();
    }

    /** `loadCartItems`: accumulates price times quantity over the stored cart
        and writes the one sum to both views. */
    method LoadCartItems()
      modifies this`cartTotal, this`checkoutTotal
      ensures Valid()
      ensures cartTotal == Total(session.StoredCart())
    {
      var items := session.StoredCart();
      var total := 0;
      var i := 0;
      while i < |items|
        invariant 0 <= i <= |items|
        invariant total == Total(items[..i])
      {
        assert items[..i + 1][..i] == items[..i];
        total := total + items[i].price * items[i].quantity;
        i := i + 1;
      }
      assert items[..i] == items;
      cartTotal := total;
      checkoutTotal := total;
    }

    /** `removeItem`: a line that is not in the cart is ignored without a
        request. Otherwise the server's stock is fetched first; if that fails
        the cart is left as it was. If it succeeds, the line loses `q` units (or
        is dropped), the cart is saved and shown, and the server is told the
        fetched stock plus `q`. */
    method RemoveItem(itemId: ProductId, q: int, fetchOk: bool, pushOk: bool)
      returns (r: RemoveOutcome)
      requires Valid()
      modifies this`cartTotal, this`checkoutTotal, session
      ensures Valid() && form == old(form)
      ensures r == NotInCart <==> !HasId(old(session.StoredCart()), itemId)
      ensures r == NotInCart ==>
        session.slot == old(session.slot) && session.server == old(session.server) &&
        session.log == old(session.log)
      ensures r == FetchFailed <==>
        HasId(old(session.StoredCart()), itemId) && !(fetchOk && itemId in old(session.server))
      ensures r == FetchFailed ==>
        session.slot == old(session.slot) && session.server == old(session.server) &&
        session.log == old(session.log) + [ProductFetched(itemId, false)]
      ensures r == Updated ==>
        HasId(old(session.StoredCart()), itemId) && itemId in old(session.server)
      ensures r == Updated ==>
        var cart := CartAfterRemove(old(session.StoredCart()), FindIndex(old(session.StoredCart()), itemId), q);
        var pushed := old(session.server)[itemId] + q;
        session.slot == Some(cart) && session.StoredCart() == cart &&
        session.log == old(session.log) + [ProductFetched(itemId, true), CartSaved(cart), StockPushed(itemId, pushed, pushOk)] &&
        session.server == if pushOk then old(session.server)[itemId := pushed] else old(session.server)
    {
      var cart := session.StoredCart();
      var i := FindIndex(cart, itemId);
      if i == -1 {
        return NotInCart;
      }
      r := FetchThenUpdate(itemId, i, q, fetchOk, pushOk);
    }

    /** The part of `removeItem` for a line `i` that is in the cart: fetch the
        line's product first, and change nothing more if that fails. */
    method FetchThenUpdate(itemId: ProductId, i: nat, q: int, fetchOk: bool, pushOk: bool)
      returns (r: RemoveOutcome)
      requires Valid() && i < |session.StoredCart()| && session.StoredCart()[i].id == itemId
      modifies this`cartTotal, this`checkoutTotal, session
      ensures Valid()
      ensures r != NotInCart
      ensures r == FetchFailed <==> !(fetchOk && itemId in old(session.server))
      ensures r == FetchFailed ==>
        session.slot == old(session.slot) && session.server == old(session.server) &&
        session.log == old(session.log) + [ProductFetched(itemId, false)]
      ensures r == Updated ==>
        var cart := CartAfterRemove(old(session.StoredCart()), i, q);
        var pushed := old(session.server)[itemId] + q;
        itemId in old(session.server) &&
        session.slot == Some(cart) && session.StoredCart() == cart &&
        session.log == old(session.log) + [ProductFetched(itemId, true), CartSaved(cart), StockPushed(itemId, pushed, pushOk)] &&
        session.server == if pushOk then old(session.server)[itemId := pushed] else old(session.server)
    {
      var serverProduct := session.FetchProduct(itemId, fetchOk);
      if serverProduct.None? {
        return FetchFailed;
      }
      var updated := CartAfterRemove(session.StoredCart(), i, q);
      SaveThenPush(updated, itemId, serverProduct.value + q, pushOk);
      r := Updated;
    }

    /** The end of `removeItem`: store the edited cart, show it again, then
        push `quantity` as the server's stock of product `id`. */
    method SaveThenPush(cart: Cart, id: ProductId, quantity: int, pushOk: bool)
      modifies this`cartTotal, this`checkoutTotal, session
      ensures Valid()
      ensures session.slot == Some(cart) && session.StoredCart() == cart
      ensures session.log == old(session.log) + [CartSaved(cart), StockPushed(id, quantity, pushOk)]
      ensures session.server == if pushOk then old(session.server)[id := quantity] else old(session.server)
    {
      session.SaveCart(cart);
      LoadCartItems();
      session.PushStock(id, quantity, pushOk);
    }

    /** `completePurchase`: with every form field filled, posts the buyer, the
        stored cart and the checkout total. Only a successful post removes the
        stored cart, shows the empty cart and resets the form. */
    method CompletePurchase(postOk: bool) returns (r: PurchaseOutcome)
      requires Valid()
      modifies this`cartTotal, this`checkoutTotal, this`form, session
      ensures Valid()
      ensures r == IncompleteForm <==> !Complete(old(form))
      ensures r == IncompleteForm ==>
        form == old(form) && session.slot == old(session.slot) &&
        session.server == old(session.server) && session.log == old(session.log)
      // the submitted order carries exactly the stored cart, and its total is that cart's total
      ensures r != IncompleteForm ==>
        var order := Order(old(form), old(session.StoredCart()), old(checkoutTotal));
        order.total == Total(order.items) && session.server == old(session.server)
      ensures r == SubmitFailed <==> Complete(old(form)) && !postOk
      ensures r == SubmitFailed ==>
        var order := Order(old(form), old(session.StoredCart()), old(checkoutTotal));
        form == old(form) && session.slot == old(session.slot) &&
        session.log == old(session.log) + [OrderSubmitted(order, false)]
      ensures r == Purchased ==>
        var order := Order(old(form), old(session.StoredCart()), old(checkoutTotal));
        form == BlankForm && session.slot == None && session.StoredCart() == [] &&
        cartTotal == 0 && checkoutTotal == 0 &&
        session.log == old(session.log) + [OrderSubmitted(order, true), CartRemoved]
    {
      var buyer := form;
      var items := session.StoredCart();
      if !Complete(buyer) {
        return IncompleteForm;
      }
      var order := Order(buyer, items, checkoutTotal);
      session.SubmitOrder(order, postOk);
      if !postOk {
        return SubmitFailed;
      }
      session.RemoveCart();
      LoadCartItems();
      form := BlankForm;
      r := Purchased;
    }
  }
}
