/** What the pages share outside themselves: the browser's single `cart` storage
    slot, the server's stock counts, and the record of every storage write and
    request in the order they happen. Each request is atomic and its transport
    outcome is a parameter, so a call may fail wherever the network could. */
module Browser {
  import opened CartModel

  /** The six fields of the checkout form. */
  datatype Buyer = Buyer(
    name: string,
    email: string,
    address: string,
    card: string,
    expiration: string,
    ccv: string)

  const BlankForm := Buyer("", "", "", "", "", "")

  /** The body of `POST /submit-order`: the buyer, the stored cart and the
      total shown in the checkout view. */
  datatype Order = Order(buyer: Buyer, items: Cart, total: int)

  /** One storage write or one request, with whether the request succeeded. */
  datatype Event =
    | CatalogRequested(category: string, kind: string, ok: bool)
    | CartSaved(cart: Cart)
    | CartRemoved
    | ProductFetched(id: ProductId, ok: bool)
    | StockPushed(id: ProductId, quantity: int, ok: bool)
    | OrderSubmitted(order: Order, ok: bool)

  class Session {
    /** The `cart` storage key: absent, or the stored cart. */
    var slot: Option<Cart>
    /** The server's stock count per product. */
    var server: map<ProductId, int>
    /** Storage writes and requests, oldest first. */
    var log: seq<Event>

    constructor (stored: Option<Cart>, stock: map<ProductId, int>)
      ensures slot == stored && server == stock && log == []
    {
      slot := stored;
      server := stock;
      log := [];
    }

    /** The cart as the pages read it: an absent slot reads as empty. */
    function StoredCart(): Cart
      reads this
    {
      if slot.Some? then slot.value else []
    }

    /** `localStorage.setItem('cart', ...)`: replaces the stored cart. */
    method SaveCart(cart: Cart)
      modifies this
      ensures slot == Some(cart) && StoredCart() == cart
      ensures server == old(server) && log == old(log) + [CartSaved(cart)]
    {
      slot := Some(cart);
      log := log + [CartSaved(cart)];
    }

    /** `localStorage.removeItem('cart')`: the slot becomes absent. */
    method RemoveCart()
      modifies this
      ensures slot == None && StoredCart() == []
      ensures server == old(server) && log == old(log) + [CartRemoved]
    {
      slot := None;
      log := log + [CartRemoved];
    }

    /** `GET /products/{id}`: yields the server's stock count, or fails on a
        transport failure or when the server has no such product. */
    method FetchProduct(id: ProductId, transportOk: bool) returns (stock: Option<int>)
      modifies this
      ensures stock.Some? <==> transportOk && id in server
      ensures stock.Some? ==> stock.value == server[id]
      ensures slot == old(slot) && server == old(server)
      ensures log == old(log) + [ProductFetched(id, stock.Some?)]
    {
      if transportOk && id in server {
        stock := Some(server[id]);
      } else {
        stock := None;
      }
      log := log + [ProductFetched(id, stock.Some?)];
    }

    /** `updateServerQuantity`: `POST /update-product-quantity` sets the
        server's count for `id`; a failure is reported and nothing is undone. */
    method PushStock(id: ProductId, quantity: int, ok: bool)
      modifies this
      ensures server == if ok then old(server)[id := quantity] else old(server)
      ensures slot == old(slot) && log == old(log) + [StockPushed(id, quantity, ok)]
    {
      if ok {
        server := server[id := quantity];
      }
      log := log + [StockPushed(id, quantity, ok)];
    }

    /** `POST /submit-order`. */
    method SubmitOrder(order: Order, ok: bool)
      modifies this
      ensures slot == old(slot) && server == old(server)
      ensures log == old(log) + [OrderSubmitted(order, ok)]
    {
      log := log + [OrderSubmitted(order, ok)];
    }

    /** `GET /filtered-products?category=..&type=..`; the products it returns
        are only rendered. */
    method RequestCatalog(category: string, kind: string, ok: bool)
      modifies this
      ensures slot == old(slot) && server == old(server)
      ensures log == old(log) + [CatalogRequested(category, kind, ok)]
    {
      log := log + [CatalogRequested(category, kind, ok)];
    }
  }
}
