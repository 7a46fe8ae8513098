/**
 * CartsController: resolving the session's cart, merging and removing line
 * items, recomputing the stored total, and the per-line snapshot rendered
 * after each action.
 */
module CartsController {
  import opened CartModel
  import opened LineItems
  import opened CartStore

  /** One entry of `products` in the rendered cart. */
  datatype ProductLine = ProductLine(id: ProductId, quantity: int, unitPrice: int, totalPrice: int)

  datatype CartResponse = CartResponse(id: CartId, products: seq<ProductLine>, totalPrice: int)

  function ProductLineOf(line: LineItem, catalog: Catalog): ProductLine
    requires line.product in catalog
  {
    var price := catalog[line.product];
    ProductLine(line.product, line.quantity, price, price * line.quantity)
  }

  /** The `map` over the cart's items in `cart_response`. */
  function ResponseLines(items: seq<LineItem>, catalog: Catalog): (r: seq<ProductLine>)
    requires Priced(items, catalog)
    ensures |r| == |items|
    ensures forall i :: 0 <= i < |r| ==>
              && r[i].id == items[i].product
              && r[i].quantity == items[i].quantity
              && r[i].unitPrice == catalog[items[i].product]
              && r[i].totalPrice == r[i].unitPrice * r[i].quantity
    decreases |items|
  {
    if |items| == 0 then []
    else ResponseLines(items[..|items| - 1], catalog) + [ProductLineOf(items[|items| - 1], catalog)]
  }

  function SumLineTotals(lines: seq<ProductLine>): int
    decreases |lines|
  {
    if |lines| == 0 then 0 else SumLineTotals(lines[..|lines| - 1]) + lines[|lines| - 1].totalPrice
  }

  /** `cart_response` for the cart `id`. */
  function CartResponseOf(store: Store, id: CartId): (r: CartResponse)
    reads store
    requires store.Valid() && id in store.carts
    ensures r.id == id && r.totalPrice == store.carts[id].totalPrice
    ensures SumLineTotals(r.products) == r.totalPrice
    ensures r.products == ResponseLines(store.carts[id].items, store.catalog)
    ensures |r.products| == |store.carts[id].items|
    ensures forall i, j :: 0 <= i < j < |r.products| ==> r.products[i].id != r.products[j].id
  {
    var cart := store.carts[id];
    ResponseLinesSumToTotal(cart.items, store.catalog);
    DistinctProducts(cart.items);
    CartResponse(id, ResponseLines(cart.items, store.catalog), cart.totalPrice)
  }

  /** The line totals of the snapshot add up to the cart total. */
  lemma {:induction false} ResponseLinesSumToTotal(items: seq<LineItem>, catalog: Catalog)
    requires Priced(items, catalog)
    ensures SumLineTotals(ResponseLines(items, catalog)) == Total(items, catalog)
    decreases |items|
  {
    if |items| > 0 {
      var lines := ResponseLines(items, catalog);
      assert lines[..|lines| - 1] == ResponseLines(items[..|items| - 1], catalog);
      ResponseLinesSumToTotal(items[..|items| - 1], catalog);
    }
  }

  /**
   * `set_cart`: the session's cart gets a fresh `last_interaction_at`, its
   * flag and items untouched; with no such cart a new one is created and its
   * id becomes the session's.
   */
  method SetCart(store: Store, session: Option<CartId>, now: int) returns (id: CartId)
    requires store.Valid()
    modifies store
    ensures store.Valid() && id in store.carts
    ensures store.carts == AfterSetCart(old(store.carts), session, id, now)
    ensures if session.Some? && session.value in old(store.carts)
            then id == session.value && store.nextId == old(store.nextId)
            else id !in old(store.carts) && id == old(store.nextId) && store.nextId == old(store.nextId) + 1
  {
    if session.Some? && session.value in store.carts {
      id := session.value;
      store.Touch(id, now);
    } else {
      id := store.Create(now);
    }
  }

  /** `update_cart_total`: store the sum of price * quantity over the cart's lines. */
  method UpdateCartTotal(store: Store, id: CartId)
    requires store.CurrentExcept(id) && id in store.carts
    modifies store
    ensures store.Valid()
    ensures store.nextId == old(store.nextId)
    ensures store.carts == old(store.carts)[id := old(store.carts)[id].(totalPrice := Total(old(store.carts)[id].items, store.catalog))]
  {
    var total := Total(store.carts[id].items, store.catalog);
    TotalNonNegative(store.carts[id].items, store.catalog);
    var saved := store.SetTotal(id, total);
  }

  /**
   * The body of `add_item` (and of `create`) on the resolved cart:
   * `Product.find`, `find_or_initialize_by`, `quantity ||= 0`,
   * `quantity += q`, `save!`, then `update_cart_total`.
   */
  method AddItem(store: Store, id: CartId, product: ProductId, q: int) returns (outcome: Outcome)
    requires store.Valid() && id in store.carts
    modifies store
    ensures store.Valid() && store.nextId == old(store.nextId)
    ensures match AddLine(old(store.carts)[id].items, store.catalog, product, q)
            case Ok(items) =>
              && outcome == Success
              && store.carts == old(store.carts)[id := old(store.carts)[id].(items := items, totalPrice := Total(items, store.catalog))]
            case Err(e) => outcome == Failure(e) && store.carts == old(store.carts)
  {
    ghost var items := store.carts[id].items;
    if product !in store.catalog {
      return Failure(ProductNotFound);
    }
    var quantity := QuantityOf(store.carts[id].items, product);
    quantity := quantity + q;
    ghost var before := store.carts;
    var saved := store.SaveLine(id, product, quantity);
    if !saved {
      return Failure(InvalidQuantity);
    }
    assert Merge(items, product, q) == Upsert(items, product, quantity);
    ghost var cart := before[id].(items := Upsert(items, product, quantity));
    UpdateCartTotal(store, id);
    OverwriteTwice(before, id, cart, cart.(totalPrice := Total(cart.items, store.catalog)));
    outcome := Success;
  }

  /**
   * Writing a cart's row twice leaves the second write. Proved on its own so
   * that the map-extensionality step stays out of `AddItem`'s and
   * `DestroyItem`'s proofs.
   */
  lemma OverwriteTwice(carts: map<CartId, Cart>, id: CartId, first: Cart, second: Cart)
    ensures carts[id := first][id := second] == carts[id := second]
  {
  }

  /**
   * The body of `destroy_item` on the resolved cart: `Product.find`,
   * `find_by`, and either "not in cart" or `destroy` and `update_cart_total`.
   */
  method DestroyItem(store: Store, id: CartId, product: ProductId) returns (outcome: Outcome)
    requires store.Valid() && id in store.carts
    modifies store
    ensures store.Valid() && store.nextId == old(store.nextId)
    ensures match RemoveFromCart(old(store.carts)[id].items, store.catalog, product)
            case Ok(items) =>
              && outcome == Success
              && store.carts == old(store.carts)[id := old(store.carts)[id].(items := items, totalPrice := Total(items, store.catalog))]
            case Err(e) => outcome == Failure(e) && store.carts == old(store.carts)
  {
    if product !in store.catalog {
      return Failure(ProductNotFound);
    }
    var found := FindLine(store.carts[id].items, product);
    if found.None? {
      return Failure(ProductNotInCart);
    }
    ghost var before := store.carts;
    store.DestroyLine(id, product);
    ghost var cart := before[id].(items := RemoveLine(before[id].items, product).value);
    UpdateCartTotal(store, id);
    OverwriteTwice(before, id, cart, cart.(totalPrice := Total(cart.items, store.catalog)));
    outcome := Success;
  }

  /** The lines of the session's cart before the action: none when `set_cart` has to create it. */
  function SessionItems(carts: map<CartId, Cart>, session: Option<CartId>): seq<LineItem> {
    if session.Some? && session.value in carts then carts[session.value].items else []
  }

  /** The carts table once `set_cart` has resolved the session to the cart `id`. */
  function AfterSetCart(carts: map<CartId, Cart>, session: Option<CartId>, id: CartId, now: int): map<CartId, Cart> {
    if session.Some? && session.value in carts
    then carts[session.value := Touched(carts[session.value], now)]
    else carts[id := NewCart(now)]
  }

  /**
   * The `add_item` action: `set_cart` runs first, so the session's cart is
   * created or touched even when the add itself then fails.
   */
  method AddItemAction(store: Store, session: Option<CartId>, now: int, product: ProductId, q: int)
      returns (id: CartId, response: Result<CartResponse>)
    requires store.Valid()
    modifies store
    ensures store.Valid() && id in store.carts
    ensures if session.Some? && session.value in old(store.carts)
            then id == session.value && store.nextId == old(store.nextId)
            else id !in old(store.carts) && id == old(store.nextId) && store.nextId == old(store.nextId) + 1
    ensures store.carts[id].lastInteractionAt == now
    ensures var expected := AddLine(SessionItems(old(store.carts), session), store.catalog, product, q);
            && (response.Ok? <==> expected.Ok?)
            && (response.Ok? ==> store.carts[id].items == expected.value && response.value == CartResponseOf(store, id))
            && (response.Err? ==> response.error == expected.error
                                  && store.carts[id].items == SessionItems(old(store.carts), session))
    ensures var resolved := AfterSetCart(old(store.carts), session, id, now);
            store.carts == match AddLine(SessionItems(old(store.carts), session), store.catalog, product, q)
                           case Ok(items) => resolved[id := resolved[id].(items := items, totalPrice := Total(items, store.catalog))]
                           case Err(_) => resolved
  {
    id := SetCart(store, session, now);
    var outcome := AddItem(store, id, product, q);
    if outcome.Success? {
      response := Ok(CartResponseOf(store, id));
    } else {
      response := Err(outcome.error);
    }
  }

  /** The `destroy_item` action: `set_cart`, then the removal or "not in cart". */
  method DestroyItemAction(store: Store, session: Option<CartId>, now: int, product: ProductId)
      returns (id: CartId, response: Result<CartResponse>)
    requires store.Valid()
    modifies store
    ensures store.Valid() && id in store.carts
    ensures if session.Some? && session.value in old(store.carts)
            then id == session.value && store.nextId == old(store.nextId)
            else id !in old(store.carts) && id == old(store.nextId) && store.nextId == old(store.nextId) + 1
    ensures store.carts[id].lastInteractionAt == now
    ensures var expected := RemoveFromCart(SessionItems(old(store.carts), session), store.catalog, product);
            && (response.Ok? <==> expected.Ok?)
            && (response.Ok? ==> store.carts[id].items == expected.value && response.value == CartResponseOf(store, id))
            && (response.Err? ==> response.error == expected.error
                                  && store.carts[id].items == SessionItems(old(store.carts), session))
    ensures var resolved := AfterSetCart(old(store.carts), session, id, now);
            store.carts == match RemoveFromCart(SessionItems(old(store.carts), session), store.catalog, product)
                           case Ok(items) => resolved[id := resolved[id].(items := items, totalPrice := Total(items, store.catalog))]
                           case Err(_) => resolved
  {
    id := SetCart(store, session, now);
    var outcome := DestroyItem(store, id, product);
    if outcome.Success? {
      response := Ok(CartResponseOf(store, id));
    } else {
      response := Err(outcome.error);
    }
  }
}
