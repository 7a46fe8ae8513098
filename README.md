# Cart lifecycle and mutation engine, modelled in Dafny

This project models the cart core of a small Rails shopping-cart API. Carts live in a keyed
store. Each cart holds line items (one per product, positive quantities), a stored
`total_price`, an `abandoned` flag and a `last_interaction_at` timestamp. The model covers:

- the controller's cart resolution (`set_cart`);
- the merge of a quantity onto a line (`add_item`, `create`) and the removal of a whole line
  (`destroy_item`);
- the recomputation of the stored total (`update_cart_total`);
- the per-line snapshot (`cart_response`);
- the Cart model's `mark_as_abandoned`, `remove_if_abandoned`, `abandoned?`, the
  `dependent: :destroy` cascade and the `total_price >= 0` validation;
- the two background jobs: mark every active cart inactive for 3 hours or more, and destroy
  every abandoned cart inactive for 7 days or more.

Files and modules:

- `cart_model.dfy` (`CartModel`): ids, the catalog (product id to positive integer price in
  cents), `LineItem`, `Cart`, the errors, `Total` (sum of price × quantity) and its lemmas.
- `line_items.dfy` (`LineItems`): `find_by` / `find_or_initialize_by` as `FindLine`, the
  `||= 0` default as `QuantityOf`, the merge (`Upsert`, `Merge`, `AddLine`) and the removal
  (`RemoveLine`, `RemoveFromCart`). They are specified against the product-to-quantity view
  `Quantities`.
- `cart_store.dfy` (`CartStore`): class `Store` holding the read-only catalog, the carts table
  `carts: map<CartId, Cart>` and the auto-increment `nextId`. It also holds the row writes and
  the Cart instance methods. `Rows` is the cart_items table seen as a set of (cart, line) rows.
- `carts_controller.dfy` (`CartsController`): the controller's private helpers, the bodies of
  `add_item` and `destroy_item`, and the two actions with `set_cart` running before them.
- `mark_cart_as_abandoned_job.dfy` and `remove_abandoned_carts_job.dfy`: the two jobs. Each is
  a specification function on the carts table and a `Perform` method proved against it.

Store invariants (`Store.Valid()`):

- every cart id is below `nextId`;
- every line's product is in the catalog;
- there is at most one line per product;
- every quantity is positive;
- `total_price >= 0`;
- every stored total equals `Total` of the cart's lines.

Between `save!` of a line and `update_cart_total`, only the touched cart's total may be stale
(`Store.CurrentExcept`).

Inputs the source takes from its environment are parameters:

- `now` is an integer number of seconds, so `3.hours` is 10800 and `7.days` is 604800.
- The session is an optional cart id. The action returns the id it stored in the session.
- The quantity has already been through `to_i`.

The scopes `not_abandoned`, `abandoned_carts` and `inactive_for(d)` are used but not defined
in `app/models/cart.rb`. They are read as `abandoned == false`, `abandoned == true` and
`last_interaction_at <= now - d`, as `remove_if_abandoned` writes the last one.

Behaviour of the code that the model keeps deliberately:

- A non-positive quantity is not rejected up front. `add_item` adds it to the existing quantity
  (0 for a new line), and only `save!` validates the merged line (quantity > 0). So a negative
  quantity lowers an existing line, and the add fails only when the merged quantity is not
  positive. `AddLine` models this, and `NonPositiveNewLineRejected` covers a new line.
- `set_cart` touches or creates the cart before the action body runs, so the cart is touched or
  created even when the add or remove then fails. `AddItemAction` and `DestroyItemAction` state
  this.
- `set_cart` always resolves a cart, so add and remove have no cart-not-found error.
- Touching an abandoned cart does not clear its flag. It only moves `last_interaction_at`, which
  postpones its removal.

## Model

| member | source | states |
|---|---|---|
| `CartModel.IsAbandoned` | app/models/cart.rb:16-18 | holds exactly when the flag is `true` |
| `CartModel.Total` | app/controllers/carts_controller.rb:58 | the sum of price × quantity over the cart's lines, the SQL sum of `update_cart_total`; its properties are the lemmas below |
| `CartModel.NewCart` | app/controllers/carts_controller.rb:50 | the created cart has no lines, is not abandoned, has timestamp `now`, passes the `>= 0` validation, and its total 0 is current under every catalog |
| `CartModel.DueForRemoval` | app/models/cart.rb:13 | the guard of `remove_if_abandoned`: abandoned and last interaction at or before `now - 604800` |
| `CartModel.Touched` | app/controllers/carts_controller.rb:53 | `update(last_interaction_at: now)`: only the timestamp changes |
| `CartModel.MarkedAbandoned` | app/models/cart.rb:8-10 | `update(abandoned: true)`: only the flag changes, to true |
| `CartModel.InactiveFor` | app/models/cart.rb:13 | the `inactive_for(window)` scope, read as `last_interaction_at <= now - window` |
| `CartModel.AbandonAfter` | app/sidekiq/mark_cart_as_abandoned_job.rb:6 | the `3.hours` window of the mark job, 10800 seconds |
| `CartModel.PurgeAfter` | app/models/cart.rb:13 | the `7.days` window of `remove_if_abandoned` and of the purge job, 604800 seconds |
| `CartModel.ValidCatalog` | spec/models/product_spec.rb:9 | the Product validation: every catalog price is greater than 0 |
| `CartModel.UniqueProducts` | spec/models/cart_item_spec.rb:50 | the unique index on (cart_id, product_id): no two lines of a cart name the same product |
| `CartModel.PositiveQuantities` | spec/models/cart_item_spec.rb:8 | the CartItem validation that `save!` applies: every line's quantity is an integer greater than 0 |
| `CartModel.PassesValidation` | app/models/cart.rb:6 | `validates_numericality_of :total_price, greater_than_or_equal_to: 0`: the stored total is at least 0 |
| `CartModel.LineTotal` | app/controllers/carts_controller.rb:71 | one line's worth, `price * quantity`, the term summed at line 58 and rendered at line 71 |
| `CartModel.TotalNonNegative` | app/models/cart.rb:6 | with positive prices and quantities the total is never negative, and it is 0 exactly when the cart has no lines |
| `CartModel.CurrentTotalPassesValidation` | app/models/cart.rb:6 | a cart whose stored total is current always passes the `total_price >= 0` validation |
| `CartModel.TotalUpdate` | app/controllers/carts_controller.rb:57-60 | replacing one line changes the recomputed total by new line's worth minus old line's worth |
| `CartModel.TotalRemove` | app/controllers/carts_controller.rb:57-60 | deleting one line lowers the recomputed total by exactly that line's price × quantity |
| `CartModel.AppendPriced` | app/controllers/carts_controller.rb:57-60 | appending a new line adds its price × quantity to the total |
| `CartModel.MarkedAbandonedIdempotent` | app/models/cart.rb:8-10 | marking sets the flag, is idempotent, and keeps items, total and timestamp |
| `CartModel.ActiveCartNeverDue` | app/models/cart.rb:13 | a cart that is not abandoned is never due for removal, whatever its age |
| `LineItems.FindLine` | app/controllers/carts_controller.rb:33 | returns the position of the first line for the product, and nothing exactly when the cart has no line for it |
| `LineItems.QuantityOf` | app/controllers/carts_controller.rb:22-23 | the quantity of the product's line, 0 when absent; positive exactly when the product has a line |
| `LineItems.Upsert` | app/controllers/carts_controller.rb:22-25 | writing a line keeps one line per product, adds the product to the cart's products, and leaves every other line in place |
| `LineItems.Merge` | app/controllers/carts_controller.rb:22-24 | the merged lines still hold at most one line per product |
| `LineItems.AddLine` | app/controllers/carts_controller.rb:21-25 | ProductNotFound when the product is not in the catalog (checked first), otherwise InvalidQuantity when old quantity + q <= 0, otherwise the merged lines, which stay well formed |
| `LineItems.RemoveLine` | app/controllers/carts_controller.rb:33-36 | there is nothing to remove exactly when the cart has no line for the product; removal drops exactly one line |
| `LineItems.RemoveFromCart` | app/controllers/carts_controller.rb:32-41 | ProductNotFound for a product outside the catalog, ProductNotInCart for one without a line, otherwise exactly `RemoveLine`'s result, which keeps the lines well formed |
| `LineItems.UpsertQuantityOf` | app/controllers/carts_controller.rb:22-25 | after writing quantity n for p, p's quantity is n and every other product's quantity is unchanged |
| `LineItems.UpsertQuantities` | app/controllers/carts_controller.rb:22-25 | the product-to-quantity view after the write is the old view with p set to n |
| `LineItems.MergeQuantities` | app/controllers/carts_controller.rb:22-24 | the merge accumulates: p's quantity becomes old quantity (0 if absent) + q, other products unchanged |
| `LineItems.MergeWellFormed` | app/controllers/carts_controller.rb:25 | when the merged quantity is positive, the lines keep catalog products, one line per product and positive quantities |
| `LineItems.MergeTwice` | app/controllers/carts_controller.rb:22-25 | two adds of p with q1 then q2 yield the same lines as one add of q1 + q2, so there is no second line |
| `LineItems.RemoveLineQuantities` | app/controllers/carts_controller.rb:35-36 | removal takes p out of the view entirely (no partial decrement) and leaves every other product's quantity unchanged |
| `LineItems.RemoveLineWellFormed` | app/controllers/carts_controller.rb:36 | removal keeps the lines well formed |
| `LineItems.RemoveLineKeepsOrder` | app/controllers/carts_controller.rb:36 | the lines after removal are the old lines in order with exactly the line for p taken out |
| `LineItems.RemoveUndoesNewLine` | app/controllers/carts_controller.rb:22-36 | removing the line an add has just created gives back the lines from before the add |
| `LineItems.TotalOfMerge` | app/controllers/carts_controller.rb:22-27 | after merging q of p the recomputed total rises by price(p) × q |
| `LineItems.TotalOfRemoveLine` | app/controllers/carts_controller.rb:35-37 | after removing p's line the recomputed total falls by price(p) × its quantity |
| `LineItems.NonPositiveNewLineRejected` | app/controllers/carts_controller.rb:22-25 | an add of q <= 0 for a product not yet in the cart fails |
| `LineItems.TotalScenario` | spec/models/cart_spec.rb:52-61 | the recomputed `Total` of lines 1000 × 2 and 2000 × 1 is 4000, and of no lines 0 (the test reads the stored column; the model's stored total is `Total` once `update_cart_total` has run) |
| `LineItems.RemoveScenario` | app/controllers/carts_controller.rb:31-42 | removing the first of lines 1000 × 2 and 2000 × 1 leaves only the second, worth 2000 |
| `LineItems.RepeatAddScenario` | app/controllers/carts_controller.rb:22-25 | adding one unit of a product twice to an empty cart gives one line of quantity 2 |
| `CartStore.Rows` | app/models/cart.rb:3 | the cart_items table: one row per cart and line, derived from the carts so that it follows `dependent: :destroy` |
| `CartStore.RowsWithout` | app/models/cart.rb:3 | destroying a set of carts removes exactly their line-item rows and no row of another cart |
| `CartStore.RowsOfCart` | app/models/cart.rb:3 | a cart's rows in the line-item table are exactly its lines |
| `CartStore.Store.Create` | app/controllers/carts_controller.rb:50 | a new cart with a fresh id, no lines, total 0, not abandoned, last interaction now; other carts untouched |
| `CartStore.Store.Touch` | app/controllers/carts_controller.rb:53 | only `last_interaction_at` of that cart changes |
| `CartStore.Store.SaveLine` | app/controllers/carts_controller.rb:25 | the line is written iff the quantity is positive; otherwise nothing changes |
| `CartStore.Store.DestroyLine` | app/controllers/carts_controller.rb:36 | the cart's lines become the lines without p; nothing else changes |
| `CartStore.Store.SetTotal` | app/controllers/carts_controller.rb:59 | the total is stored iff it passes the `>= 0` validation; otherwise nothing changes |
| `CartStore.Store.MarkAsAbandoned` | app/models/cart.rb:8-10 | only the flag of that cart changes, to true |
| `CartStore.Store.Destroy` | app/models/cart.rb:3 | the cart leaves the store and its rows leave the line-item table; every other cart and row stays |
| `CartStore.Store.RemoveIfAbandoned` | app/models/cart.rb:12-14 | the cart is destroyed iff it is abandoned and `last_interaction_at <= now - 7 days` (inclusive); otherwise the store is unchanged |
| `CartsController.ResponseLines` | app/controllers/carts_controller.rb:65-73 | one snapshot entry per line, in order, with the product id, quantity, unit price and unit price × quantity |
| `CartsController.ProductLineOf` | app/controllers/carts_controller.rb:66-72 | the hash rendered for one line: product id, quantity, unit price and unit price × quantity |
| `CartsController.ResponseLinesSumToTotal` | app/controllers/carts_controller.rb:62-75 | the snapshot's line totals add up to the sum of price × quantity over the cart's lines |
| `CartsController.CartResponseOf` | app/controllers/carts_controller.rb:62-76 | the snapshot carries the cart id and stored total, its entries are `ResponseLines` of the cart's lines (one per line), no product twice, and line totals summing to the stored total |
| `CartsController.SetCart` | app/controllers/carts_controller.rb:46-55 | with a stored session cart, only its `last_interaction_at` changes; otherwise a new empty, active cart with total 0 and timestamp now is created under the fresh id `nextId`, which then advances |
| `CartsController.SessionItems` | app/controllers/carts_controller.rb:46-55 | the lines of the cart `set_cart` resolves: the stored session cart's lines, or none for a cart it has to create |
| `CartsController.AfterSetCart` | app/controllers/carts_controller.rb:46-55 | the carts table after `set_cart`: the stored session cart touched, or `NewCart(now)` added under the resolved id; `SetCart` ensures exactly this table |
| `CartsController.UpdateCartTotal` | app/controllers/carts_controller.rb:57-60 | the stored total becomes the sum of price × quantity over the cart's lines, and every total in the store is current again |
| `CartsController.AddItem` | app/controllers/carts_controller.rb:20-29 | on success the lines are the `AddLine` result and the total is their sum; on failure the error is reported and the store is unchanged |
| `CartsController.DestroyItem` | app/controllers/carts_controller.rb:31-42 | on success the line is gone and the total is recomputed; for a product not in the cart, ProductNotInCart and an unchanged store |
| `CartsController.AddItemAction` | app/controllers/carts_controller.rb:20-29 | after `set_cart` the session's cart is touched, or a new cart is created under a fresh id (`nextId`, which advances) that overwrites no existing cart; the response is the snapshot exactly when `AddLine` succeeds on the session cart's lines, else the error; the whole new table is given: only the resolved cart changes (timestamp, and on success lines and total), its flag and every other cart stay |
| `CartsController.DestroyItemAction` | app/controllers/carts_controller.rb:31-42 | after `set_cart` the session's cart is touched, or a new cart is created under a fresh id (`nextId`, which advances) that overwrites no existing cart; the response is the snapshot exactly when the removal succeeds, else the error; the whole new table is given: only the resolved cart changes (timestamp, and on success lines and total), its flag and every other cart stay |
| `MarkCartAsAbandonedJob.DueForAbandon` | app/sidekiq/mark_cart_as_abandoned_job.rb:6 | membership in `Cart.not_abandoned.inactive_for(3.hours)`: not abandoned and inactive for 10800 s or more |
| `MarkCartAsAbandonedJob.DueIds` | app/sidekiq/mark_cart_as_abandoned_job.rb:6 | the ids of the carts in that relation |
| `MarkCartAsAbandonedJob.MarkAll` | app/sidekiq/mark_cart_as_abandoned_job.rb:6 | no cart is deleted; items, totals and timestamps are unchanged; a cart is abandoned afterwards iff it was abandoned or `last_interaction_at <= now - 3h` |
| `MarkCartAsAbandonedJob.MarkCountIsTransitions` | app/sidekiq/mark_cart_as_abandoned_job.rb:6-7 | the carts counted are exactly those that went from not abandoned to abandoned |
| `MarkCartAsAbandonedJob.MarkAllIdempotent` | app/sidekiq/mark_cart_as_abandoned_job.rb:6 | a second run with the same now counts 0 carts and changes nothing |
| `MarkCartAsAbandonedJob.MarkAllKeepsRows` | app/sidekiq/mark_cart_as_abandoned_job.rb:6 | the line-item table is unchanged by the mark job |
| `MarkCartAsAbandonedJob.MarkBoundary` | spec/sidekiq/mark_cart_as_abandoned_job_spec.rb:56-62 | a cart exactly 3 hours inactive is marked; one a second younger is not |
| `MarkCartAsAbandonedJob.Perform` | app/sidekiq/mark_cart_as_abandoned_job.rb:4-8 | the store becomes `MarkAll` of the old store; the returned count is the number of due carts |
| `RemoveAbandonedCartsJob.RemovalIds` | app/sidekiq/remove_abandoned_carts_job.rb:5 | the ids of the carts in `Cart.abandoned_carts.inactive_for(7.days)`: those `DueForRemoval` |
| `RemoveAbandonedCartsJob.PurgeAll` | app/sidekiq/remove_abandoned_carts_job.rb:5 | a cart survives iff it is not abandoned or its `last_interaction_at > now - 7 days`; survivors are unchanged |
| `RemoveAbandonedCartsJob.PurgeAllCascades` | app/sidekiq/remove_abandoned_carts_job.rb:5 | the rows of removed carts are gone, and the rows of surviving carts are all kept |
| `RemoveAbandonedCartsJob.PurgeAllIdempotent` | app/sidekiq/remove_abandoned_carts_job.rb:5 | a second run with the same now removes 0 carts |
| `RemoveAbandonedCartsJob.SweepLeavesNoStaleCart` | app/sidekiq/remove_abandoned_carts_job.rb:5 | running the mark job then the purge job with the same now leaves no cart inactive for 7 days or more |
| `RemoveAbandonedCartsJob.SweepTwiceIsNoOp` | app/sidekiq/remove_abandoned_carts_job.rb:5 | after both jobs, running them again marks 0 carts and removes 0 carts |
| `RemoveAbandonedCartsJob.Perform` | app/sidekiq/remove_abandoned_carts_job.rb:4-7 | destroying the due carts one by one leaves `PurgeAll` of the old store, with their rows gone; the count is the number of carts destroyed |

## Left out

- AddLine: column widths are not modelled. Quantities are unbounded `int`s, so a merged quantity
  of 2^31 or more is accepted, while `save!` on a 4-byte `integer` column would raise.
- Total: the SQL product `products.price * cart_items.quantity` and its sum are unbounded here. On
  a 4-byte SQL integer they can overflow (price 50000 × quantity 50000), and `update_cart_total`
  would then fail after `save!` has stored the line.
- HTTP rendering, status codes and JSON formatting are not modelled. This includes the decimal
  string totals such as `"0.0"`. Actions return a `Result` of the snapshot or an error.
- The `show` action is not modelled as a method of its own. It is `SetCart` followed by
  `CartResponseOf`.
- The product name shown in the snapshot is not modelled. The catalog maps an id to a price only.
- Session storage is not modelled. The session is an optional cart id argument, and the
  resolved id is returned.
- `create` is not covered by `before_action :set_cart`, so in the source `@cart` is unset when
  its body runs. The model does not invent a behaviour for that. Its body is the same merge as
  `add_item` on an already-resolved cart (`CartsController.AddItem`).
- Parsing of the request parameters (`to_i`) is not modelled. The quantity is already an integer.
- The CartItem model file is not part of this model. Its validations (integer quantity > 0,
  one line per cart and product) are taken from its tests.
- The `abandoned` column is a `bool`. A `nil` flag, which `abandoned?` would read as false, is
  not modelled.
- `last_interaction_at` is always an integer. A cart without one (as test factories can build)
  is not modelled: `remove_if_abandoned` would raise on an abandoned one (an active one
  short-circuits at `abandoned? &&`), and the `inactive_for` scope would never select it.
- Line items live inside their `Cart`, so a line-item row without its cart cannot be represented.
  The cascade of `dependent: :destroy` (`RowsWithout`, `Store.Destroy`, `PurgeAllCascades`) holds
  by construction of the table as `Rows`, rather than by deleting rows one by one.
- The database order of `cart_items` is not modelled. Lines keep insertion order, and new lines
  go at the end.
- Product deletion and its cascade, `ProductsController`, and the catalog's own CRUD are not
  modelled. The catalog is a read-only parameter with positive integer prices.
- Decimal prices are not modelled. Prices are integer cents.
- Wall-clock time is not modelled. `now` is an integer number of seconds passed in.
- Sidekiq queueing, scheduling and `Rails.logger` are not modelled. The jobs only return their
  counts, and `update_all` is modelled as a single map update.
- Concurrency is not modelled. The model is sequential, so the read-modify-write race between
  concurrent adds of the same product cannot appear in it.
