/**
 * MarkCartAsAbandonedJob: one bulk update setting the flag on every cart
 * that is not abandoned and has been inactive for 3 hours or more, and the
 * count of rows it changed.
 */
module MarkCartAsAbandonedJob {
  import opened CartModel
  import opened CartStore

  /** The relation `Cart.not_abandoned.inactive_for(3.hours)`. */
  predicate DueForAbandon(c: Cart, now: int) {
    !IsAbandoned(c) && InactiveFor(c, now, AbandonAfter)
  }

  function DueIds(carts: map<CartId, Cart>, now: int): set<CartId> {
    set id | id in carts && DueForAbandon(carts[id], now)
  }

  /** The carts table after `update_all(abandoned: true)` on that relation. */
  function MarkAll(carts: map<CartId, Cart>, now: int): (r: map<CartId, Cart>)
    ensures r.Keys == carts.Keys
    ensures forall id :: id in carts ==>
              && r[id].items == carts[id].items
              && r[id].totalPrice == carts[id].totalPrice
              && r[id].lastInteractionAt == carts[id].lastInteractionAt
    ensures forall id :: id in carts ==>
              (r[id].abandoned <==> carts[id].abandoned || carts[id].lastInteractionAt <= now - AbandonAfter)
  {
    map id | id in carts :: if DueForAbandon(carts[id], now) then MarkedAbandoned(carts[id]) else carts[id]
  }

  /** The reported count is the number of carts that went from active to abandoned. */
  lemma MarkCountIsTransitions(carts: map<CartId, Cart>, now: int)
    ensures DueIds(carts, now) == set id | id in carts && !carts[id].abandoned && MarkAll(carts, now)[id].abandoned
  {
  }

  /** A second run with the same `now` finds nothing to mark and changes nothing. */
  lemma MarkAllIdempotent(carts: map<CartId, Cart>, now: int)
    ensures DueIds(MarkAll(carts, now), now) == {}
    ensures MarkAll(MarkAll(carts, now), now) == MarkAll(carts, now)
  {
  }

  /** Marking touches no line item. */
  lemma MarkAllKeepsRows(carts: map<CartId, Cart>, now: int)
    ensures Rows(MarkAll(carts, now)) == Rows(carts)
  {
    var r := MarkAll(carts, now);
    assert forall id :: id in carts ==> r[id].items == carts[id].items;
  }

  /** A cart exactly 3 hours inactive is marked; one a second younger is not. */
  lemma MarkBoundary(c: Cart, now: int)
    requires !c.abandoned
    ensures c.lastInteractionAt == now - AbandonAfter ==> MarkAll(map[0 := c], now)[0].abandoned
    ensures c.lastInteractionAt == now - AbandonAfter + 1 ==> !MarkAll(map[0 := c], now)[0].abandoned
  {
  }

  /** `perform`: the bulk update and its count. */
  method Perform(store: Store, now: int) returns (count: nat)
    requires store.Valid()
    modifies store
    ensures store.Valid()
    ensures store.carts == MarkAll(old(store.carts), now) && store.nextId == old(store.nextId)
    ensures count == |DueIds(old(store.carts), now)|
  {
    var due := DueIds(store.carts, now);
    store.carts := MarkAll(store.carts, now);
    count := |due|;
  }
}
