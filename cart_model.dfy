/**
 * The records of the cart core: a read-only catalog of prices, line items,
 * carts with their stored total, abandoned flag and last interaction time,
 * and the total a cart's line items are worth.
 */
module CartModel {

  type CartId = nat
  type ProductId = nat

  /** Read-only catalog: product id to unit price in integer cents. */
  type Catalog = map<ProductId, int>

  /** Inactivity windows, in seconds: `3.hours` and `7.days`. */
  const AbandonAfter: int := 3 * 60 * 60
  const PurgeAfter: int := 7 * 24 * 60 * 60

  datatype Option<T> = None | Some(value: T)

  /**
   * The failures an action reports: `Product.find` raising, the quantity
   * validation of a line item refusing `save!`, and `destroy_item`'s
   * "Product not found in cart".
   */
  datatype Error = ProductNotFound | InvalidQuantity | ProductNotInCart

  datatype Result<T> = Ok(value: T) | Err(error: Error)

  datatype Outcome = Success | Failure(error: Error)

  /** One row of cart_items, seen from its cart. */
  datatype LineItem = LineItem(product: ProductId, quantity: int)

  datatype Cart = Cart(items: seq<LineItem>, totalPrice: int, abandoned: bool, lastInteractionAt: int)

  /** Every product has a positive price. */
  ghost predicate ValidCatalog(catalog: Catalog) {
    forall p :: p in catalog ==> catalog[p] > 0
  }

  predicate Priced(items: seq<LineItem>, catalog: Catalog) {
    forall i :: 0 <= i < |items| ==> items[i].product in catalog
  }

  /**
   * The product of line `i`. `UniqueProducts` is stated over it rather than
   * over `items[i].product` so that its pairwise quantifier is only
   * instantiated where a proof names `ProductAt` (see `DistinctProducts`),
   * not on every pair of line indices in every proof.
   */
  function ProductAt(items: seq<LineItem>, i: nat): ProductId
    requires i < |items|
  {
    items[i].product
  }

  /** The unique index on (cart_id, product_id). */
  predicate UniqueProducts(items: seq<LineItem>) {
    forall i, j :: 0 <= i < j < |items| ==> ProductAt(items, i) != ProductAt(items, j)
  }

  /** The line item validation: quantity is an integer greater than 0. */
  predicate PositiveQuantities(items: seq<LineItem>) {
    forall i :: 0 <= i < |items| ==> items[i].quantity > 0
  }

  predicate WellFormedItems(items: seq<LineItem>, catalog: Catalog) {
    Priced(items, catalog) && UniqueProducts(items) && PositiveQuantities(items)
  }

  /** The Cart validation: total_price >= 0. */
  predicate PassesValidation(c: Cart) {
    c.totalPrice >= 0
  }

  function LineTotal(line: LineItem, catalog: Catalog): int
    requires line.product in catalog
  {
    catalog[line.product] * line.quantity
  }

  /** The sum of price * quantity over the line items. */
  function Total(items: seq<LineItem>, catalog: Catalog): int
    requires Priced(items, catalog)
    decreases |items|
  {
    if |items| == 0 then 0
    else Total(items[..|items| - 1], catalog) + LineTotal(items[|items| - 1], catalog)
  }

  /** The stored total agrees with the line items. */
  ghost predicate TotalIsCurrent(c: Cart, catalog: Catalog) {
    Priced(c.items, catalog) && c.totalPrice == Total(c.items, catalog)
  }

  /** The record `Cart.create(total_price: 0, last_interaction_at: now, abandoned: false)`. */
  function NewCart(now: int): (r: Cart)
    ensures r.items == [] && !IsAbandoned(r) && r.lastInteractionAt == now && PassesValidation(r)
    ensures forall catalog: Catalog {:trigger Total(r.items, catalog)} :: Total(r.items, catalog) == r.totalPrice
  {
    Cart([], 0, false, now)
  }

  /** `abandoned?`: the flag is set. */
  predicate IsAbandoned(c: Cart) {
    c.abandoned == true
  }

  /** `update(last_interaction_at: now)`. */
  function Touched(c: Cart, now: int): Cart {
    c.(lastInteractionAt := now)
  }

  /** `mark_as_abandoned`: `update(abandoned: true)`. */
  function MarkedAbandoned(c: Cart): Cart {
    c.(abandoned := true)
  }

  /** The scope `inactive_for(window)`: last interaction at or before `now - window`. */
  predicate InactiveFor(c: Cart, now: int, window: int) {
    c.lastInteractionAt <= now - window
  }

  /** The condition of `remove_if_abandoned` and of the purge job's relation. */
  predicate DueForRemoval(c: Cart, now: int) {
    IsAbandoned(c) && InactiveFor(c, now, PurgeAfter)
  }

  lemma AppendPriced(items: seq<LineItem>, catalog: Catalog, line: LineItem)
    requires Priced(items, catalog) && line.product in catalog
    ensures Priced(items + [line], catalog)
    ensures Total(items + [line], catalog) == Total(items, catalog) + LineTotal(line, catalog)
  {
    assert (items + [line])[..|items|] == items;
  }

  /** A cart's total is never negative, and it is 0 exactly when the cart is empty. */
  lemma {:induction false} TotalNonNegative(items: seq<LineItem>, catalog: Catalog)
    requires ValidCatalog(catalog) && Priced(items, catalog) && PositiveQuantities(items)
    ensures Total(items, catalog) >= 0
    ensures Total(items, catalog) == 0 <==> |items| == 0
  {
    if |items| > 0 {
      var last := items[|items| - 1];
      TotalNonNegative(items[..|items| - 1], catalog);
      assert catalog[last.product] > 0 && last.quantity > 0;
      assert LineTotal(last, catalog) > 0;
    }
  }

  /** Replacing one line changes the total by the difference of the two lines. */
  lemma {:induction false} TotalUpdate(items: seq<LineItem>, catalog: Catalog, i: nat, line: LineItem)
    requires Priced(items, catalog) && i < |items| && line.product in catalog
    ensures Priced(items[i := line], catalog)
    ensures Total(items[i := line], catalog)
         == Total(items, catalog) - LineTotal(items[i], catalog) + LineTotal(line, catalog)
    decreases |items|
  {
    var n := |items|;
    if i < n - 1 {
      assert items[i := line][..n - 1] == items[..n - 1][i := line];
      TotalUpdate(items[..n - 1], catalog, i, line);
    } else {
      assert items[i := line][..n - 1] == items[..n - 1];
    }
  }

  /** Deleting one line lowers the total by exactly that line's worth. */
  lemma {:induction false} TotalRemove(items: seq<LineItem>, catalog: Catalog, i: nat)
    requires Priced(items, catalog) && i < |items|
    ensures Priced(items[..i] + items[i + 1..], catalog)
    ensures Total(items[..i] + items[i + 1..], catalog) == Total(items, catalog) - LineTotal(items[i], catalog)
    decreases |items|
  {
    var n := |items|;
    var rest := items[..i] + items[i + 1..];
    if i == n - 1 {
      assert rest == items[..n - 1];
    } else {
      var prefix := items[..n - 1];
      assert rest[..|rest| - 1] == prefix[..i] + prefix[i + 1..];
      assert rest[|rest| - 1] == items[n - 1];
      TotalRemove(prefix, catalog, i);
    }
  }

  /** A cart whose total is current passes the total_price validation. */
  lemma CurrentTotalPassesValidation(c: Cart, catalog: Catalog)
    requires ValidCatalog(catalog) && WellFormedItems(c.items, catalog) && TotalIsCurrent(c, catalog)
    ensures PassesValidation(c)
  {
    TotalNonNegative(c.items, catalog);
  }

  /** Marking is idempotent and changes nothing but the flag. */
  lemma MarkedAbandonedIdempotent(c: Cart)
    ensures IsAbandoned(MarkedAbandoned(c))
    ensures MarkedAbandoned(MarkedAbandoned(c)) == MarkedAbandoned(c)
    ensures MarkedAbandoned(c).items == c.items && MarkedAbandoned(c).totalPrice == c.totalPrice
    ensures MarkedAbandoned(c).lastInteractionAt == c.lastInteractionAt
  {
  }

  /** A cart that is not abandoned is never due for removal, whatever its age. */
  lemma ActiveCartNeverDue(c: Cart, now: int)
    requires !c.abandoned
    ensures !DueForRemoval(c, now)
  {
  }
}
