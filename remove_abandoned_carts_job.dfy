/**
 * RemoveAbandonedCartsJob: destroy, one record at a time, every abandoned
 * cart inactive for 7 days or more together with its line items, and count
 * the destroyed carts.
 */
module RemoveAbandonedCartsJob {
  import opened CartModel
  import opened CartStore
  import opened MarkCartAsAbandonedJob

  /** The relation `Cart.abandoned_carts.inactive_for(7.days)`. */
  function RemovalIds(carts: map<CartId, Cart>, now: int): set<CartId> {
    set id | id in carts && DueForRemoval(carts[id], now)
  }

  /** The carts table after `destroy_all` on that relation. */
  function PurgeAll(carts: map<CartId, Cart>, now: int): (r: map<CartId, Cart>)
    ensures forall id :: id in carts ==>
              (id in r <==> !(carts[id].abandoned && carts[id].lastInteractionAt <= now - PurgeAfter))
    ensures forall id :: id in r ==> id in carts && r[id] == carts[id]
  {
    carts - RemovalIds(carts, now)
  }

  /** Every removed cart's rows go, and every surviving cart's rows stay. */
  lemma PurgeAllCascades(carts: map<CartId, Cart>, now: int)
    ensures Rows(PurgeAll(carts, now)) == set r | r in Rows(carts) && r.cart !in RemovalIds(carts, now)
  {
    RowsWithout(carts, RemovalIds(carts, now));
  }

  /** A second run with the same `now` removes nothing. */
  lemma PurgeAllIdempotent(carts: map<CartId, Cart>, now: int)
    ensures RemovalIds(PurgeAll(carts, now), now) == {}
    ensures PurgeAll(PurgeAll(carts, now), now) == PurgeAll(carts, now)
  {
  }

  /**
   * Marking then purging with the same `now` leaves no cart inactive for
   * 7 days or more, whatever its flag was: 7 days exceed 3 hours.
   */
  lemma SweepLeavesNoStaleCart(carts: map<CartId, Cart>, now: int)
    ensures forall id :: id in PurgeAll(MarkAll(carts, now), now) ==>
              id in carts && carts[id].lastInteractionAt > now - PurgeAfter
  {
  }

  /** Running both jobs again right away marks 0 carts and removes 0 carts. */
  lemma SweepTwiceIsNoOp(carts: map<CartId, Cart>, now: int)
    ensures DueIds(PurgeAll(MarkAll(carts, now), now), now) == {}
    ensures RemovalIds(MarkAll(PurgeAll(MarkAll(carts, now), now), now), now) == {}
  {
  }

  /** `perform`: `destroy_all` destroys each selected record, and their number is reported. */
  method Perform(store: Store, now: int) returns (count: nat)
    requires store.Valid()
    modifies store
    ensures store.Valid()
    ensures store.carts == PurgeAll(old(store.carts), now) && store.nextId == old(store.nextId)
    ensures count == |RemovalIds(old(store.carts), now)|
    ensures Rows(store.carts) == set r | r in Rows(old(store.carts)) && r.cart !in RemovalIds(old(store.carts), now)
  {
    var doomed := RemovalIds(store.carts, now);
    var todo := doomed;
    count := 0;
    while todo != {}
      invariant todo <= doomed
      invariant store.Valid() && store.nextId == old(store.nextId)
      invariant store.carts == old(store.carts) - (doomed - todo)
      invariant count == |doomed| - |todo|
      decreases |todo|
    {
      var id :| id in todo;
      store.Destroy(id);
      todo := todo - {id};
      count := count + 1;
    }
    PurgeAllCascades(old(store.carts), now);
  }
}
