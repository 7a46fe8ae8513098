/**
 * The store of carts: the carts table keyed by id, each cart owning its
 * line items (`has_many :cart_items, dependent: :destroy`), the row writes
 * the controller and the jobs perform, and the Cart instance methods
 * `mark_as_abandoned` and `remove_if_abandoned`.
 */
module CartStore {
  import opened CartModel
  import opened LineItems

  /** One row of the cart_items table. */
  datatype Row = Row(cart: CartId, line: LineItem)

  /** The cart_items table: the line items of every cart in the store. */
  ghost function Rows(carts: map<CartId, Cart>): set<Row> {
    set id, i | id in carts && 0 <= i < |carts[id].items| :: Row(id, carts[id].items[i])
  }

  /** Destroying carts destroys exactly their rows and no row of another cart. */
  lemma RowsWithout(carts: map<CartId, Cart>, gone: set<CartId>)
    ensures Rows(carts - gone) == set r | r in Rows(carts) && r.cart !in gone
  {
    var kept := carts - gone;
    forall r | r in Rows(carts) && r.cart !in gone ensures r in Rows(kept) {
      var id, i :| id in carts && 0 <= i < |carts[id].items| && r == Row(id, carts[id].items[i]);
      assert kept[id] == carts[id];
    }
  }

  /** The rows of one cart, read from the table. */
  lemma RowsOfCart(carts: map<CartId, Cart>, id: CartId, line: LineItem)
    requires id in carts
    ensures Row(id, line) in Rows(carts) <==> line in carts[id].items
  {
    if line in carts[id].items {
      var i :| 0 <= i < |carts[id].items| && carts[id].items[i] == line;
      assert Row(id, carts[id].items[i]) in Rows(carts);
    }
  }

  class Store {
    const catalog: Catalog
    var carts: map<CartId, Cart>
    /** The next id the carts table hands out; ids are never reused. */
    var nextId: CartId

    /** Every stored row satisfies its validations. */
    ghost predicate WellFormed()
      reads this
    {
      && ValidCatalog(catalog)
      && forall id :: id in carts ==>
           id < nextId && WellFormedItems(carts[id].items, catalog) && PassesValidation(carts[id])
    }

    /** Well formed, and every cart's total is current except possibly `stale`'s. */
    ghost predicate CurrentExcept(stale: CartId)
      reads this
    {
      WellFormed() && forall id :: id in carts && id != stale ==> TotalIsCurrent(carts[id], catalog)
    }

    ghost predicate Valid()
      reads this
    {
      WellFormed() && forall id :: id in carts ==> TotalIsCurrent(carts[id], catalog)
    }

    constructor (catalog: Catalog)
      requires ValidCatalog(catalog)
      ensures Valid()
      ensures this.catalog == catalog && carts == map[] && nextId == 0
    {
      this.catalog := catalog;
      carts := map[];
      nextId := 0;
    }

    /** `Cart.create(total_price: 0, last_interaction_at: now, abandoned: false)`. */
    method Create(now: int) returns (id: CartId)
      requires Valid()
      modifies this
      ensures Valid()
      ensures id !in old(carts) && id == old(nextId) && nextId == old(nextId) + 1
      ensures carts == old(carts)[id := NewCart(now)]
    {
      id := nextId;
      carts := carts[id := NewCart(now)];
      nextId := nextId + 1;
    }

    /** `update(last_interaction_at: now)` on an existing cart. */
    method Touch(id: CartId, now: int)
      requires Valid() && id in carts
      modifies this
      ensures Valid()
      ensures carts == old(carts)[id := Touched(old(carts)[id], now)] && nextId == old(nextId)
    {
      carts := carts[id := Touched(carts[id], now)];
    }

    /**
     * `cart_item.save!` with the merged quantity: the line for `product` is
     * written (created when absent), unless the quantity validation refuses it.
     */
    method SaveLine(id: CartId, product: ProductId, quantity: int) returns (saved: bool)
      requires Valid() && id in carts && product in catalog
      modifies this
      ensures saved == (quantity > 0)
      ensures saved ==> CurrentExcept(id)
      ensures !saved ==> Valid()
      ensures nextId == old(nextId)
      ensures carts == if saved
                       then old(carts)[id := old(carts)[id].(items := Upsert(old(carts)[id].items, product, quantity))]
                       else old(carts)
    {
      saved := quantity > 0;
      if saved {
        var items := carts[id].items;
        UpsertQuantityOf(items, product, quantity);
        MergeWellFormed(items, catalog, product, quantity - QuantityOf(items, product));
        carts := carts[id := carts[id].(items := Upsert(items, product, quantity))];
      }
    }

    /** `cart_item.destroy` for the line of `product`. */
    method DestroyLine(id: CartId, product: ProductId)
      requires Valid() && id in carts && product in Products(carts[id].items)
      modifies this
      ensures CurrentExcept(id)
      ensures nextId == old(nextId)
      ensures RemoveLine(old(carts)[id].items, product).Some?
      ensures carts == old(carts)[id := old(carts)[id].(items := RemoveLine(old(carts)[id].items, product).value)]
    {
      var items := carts[id].items;
      RemoveLineWellFormed(items, catalog, product);
      carts := carts[id := carts[id].(items := RemoveLine(items, product).value)];
    }

    /** `update(total_price: total)`: refused by the validation when the total is negative. */
    method SetTotal(id: CartId, total: int) returns (saved: bool)
      requires CurrentExcept(id) && id in carts
      modifies this
      ensures saved == (total >= 0)
      ensures saved ==> WellFormed()
      ensures !saved ==> CurrentExcept(id)
      ensures nextId == old(nextId)
      ensures carts == if saved then old(carts)[id := old(carts)[id].(totalPrice := total)] else old(carts)
    {
      saved := total >= 0;
      if saved {
        carts := carts[id := carts[id].(totalPrice := total)];
      }
    }

    /** `mark_as_abandoned`: the flag is set; items, total and timestamp stay. */
    method MarkAsAbandoned(id: CartId)
      requires Valid() && id in carts
      modifies this
      ensures Valid()
      ensures carts == old(carts)[id := MarkedAbandoned(old(carts)[id])] && nextId == old(nextId)
      ensures IsAbandoned(carts[id])
    {
      carts := carts[id := MarkedAbandoned(carts[id])];
    }

    /** `destroy`, with `dependent: :destroy` taking the cart's line items along. */
    method Destroy(id: CartId)
      requires Valid() && id in carts
      modifies this
      ensures Valid()
      ensures carts == old(carts) - {id} && nextId == old(nextId)
      ensures Rows(carts) == set r | r in Rows(old(carts)) && r.cart != id
    {
      RowsWithout(carts, {id});
      carts := carts - {id};
    }

    /** `remove_if_abandoned`: destroy the cart iff it is abandoned and inactive for 7 days or more. */
    method RemoveIfAbandoned(id: CartId, now: int) returns (removed: bool)
      requires Valid() && id in carts
      modifies this
      ensures Valid()
      ensures removed == (IsAbandoned(old(carts)[id]) && old(carts)[id].lastInteractionAt <= now - PurgeAfter)
      ensures carts == if removed then old(carts) - {id} else old(carts)
      ensures nextId == old(nextId)
    {
      removed := DueForRemoval(carts[id], now);
      if removed {
        Destroy(id);
      }
    }
  }
}
