/** The items page: loading a category's products, and adding a product to the
    cart against the stock count the page holds for it. */
module ItemsPage {
  import opened CartModel
  import opened Browser

  /** The product object a listing was rendered from. `addToCart` lowers its
      `quantity`, the stock the page believes is left; the rest never changes. */
  class Product {
    const id: ProductId
    const name: string
    const image: string
    const price: int
    var quantity: int
    const brand: string
    const condition: string
    const color: string
    const yearsUsed: int
    const description: string

    constructor (record: Item)
      ensures Record() == record
    {
      id, name, image, price, quantity := record.id, record.name, record.image, record.price, record.quantity;
      brand, condition, color := record.brand, record.condition, record.color;
      yearsUsed, description := record.yearsUsed, record.description;
    }

    /** The object's current fields as a record (what `{...product}` copies). */
    function Record(): Item
      reads this
    {
      Item(id, name, image, price, quantity, brand, condition, color, yearsUsed, description)
    }
  }

  /** How `addToCart` ends. The two refusals differ only in their message:
      one for a product already in the cart, one for a new product. */
  datatype AddOutcome = Added | NotEnoughStock(alreadyInCart: bool)

  /** How `loadProducts` ends before rendering. */
  datatype LoadOutcome = MissingParameter | CatalogFailed | CatalogLoaded

  /** A query parameter counts as given when present and non-empty
      (`!category` is true for both `null` and `''`). */
  predicate Given(param: Option<string>) {
    param.Some? && param.value != ""
  }

  /** `loadProducts`: without both `category` and `type` the error path is
      taken and no request is made; otherwise the catalog is requested once. */
  method LoadProducts(session: Session, category: Option<string>, kind: Option<string>, ok: bool)
    returns (r: LoadOutcome)
    modifies session
    ensures r == MissingParameter <==> !(Given(category) && Given(kind))
    ensures r == MissingParameter ==> session.log == old(session.log)
    ensures r != MissingParameter ==>
      session.log == old(session.log) + [CatalogRequested(category.value, kind.value, ok)]
    ensures r != MissingParameter ==> (r == CatalogLoaded <==> ok)
    ensures session.slot == old(session.slot) && session.server == old(session.server)
  {
    if !Given(category) || !Given(kind) {
      return MissingParameter;
    }
    session.RequestCatalog(category.value, kind.value, ok);
    r := if ok then CatalogLoaded else CatalogFailed;
  }

  /** `addToCart`: checks `requested` against the page's stock count for the
      product, merges it into the stored cart, lowers the page's count, saves the
      cart and only then pushes the lowered count to the server. */
  method AddToCart(session: Session, product: Product, requested: int, pushOk: bool)
    returns (r: AddOutcome)
    modifies session, product
    // refused: nothing changes, and no request is made
    ensures r.NotEnoughStock? <==> requested > old(product.quantity)
    ensures r.NotEnoughStock? ==> r.alreadyInCart == HasId(old(session.StoredCart()), product.id)
    ensures r.NotEnoughStock? ==>
      product.quantity == old(product.quantity) && session.slot == old(session.slot) &&
      session.server == old(session.server) && session.log == old(session.log)
    // accepted: merged cart, lowered count, save before push
    ensures r == Added ==> product.quantity == old(product.quantity) - requested >= 0
    ensures r == Added ==>
      session.StoredCart() == CartAfterAdd(old(session.StoredCart()), old(product.Record()), requested)
    ensures r == Added ==>
      session.log == old(session.log) + [CartSaved(session.StoredCart()), StockPushed(product.id, product.quantity, pushOk)]
    ensures r == Added ==>
      session.server == if pushOk then old(session.server)[product.id := product.quantity] else old(session.server)
    // the units taken from the page's count are exactly the units put in the cart
    ensures r == Added ==>
      product.quantity + QuantityOf(session.StoredCart(), product.id)
        == old(product.quantity) + QuantityOf(old(session.StoredCart()), product.id)
  {
    var cart := session.StoredCart();
    ghost var before := product.Record();
    var i := FindIndex(cart, product.id);
    if i >= 0 {
      if requested > product.quantity {
        return NotEnoughStock(true);
      }
      cart := cart[i := cart[i].(quantity := cart[i].quantity + requested)];
    } else {
      if requested > product.quantity {
        return NotEnoughStock(false);
      }
      cart := cart + [product.Record().(quantity := requested)];
    }
    AddQuantities(session.StoredCart(), before, requested, product.id);
    product.quantity := product.quantity - requested;
    session.SaveCart(cart);
    session.PushStock(product.id, product.quantity, pushOk);
    r := Added;
  }
}
