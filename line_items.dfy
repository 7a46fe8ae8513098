/**
 * The line-item logic of CartsController: `find_or_initialize_by(product:)`
 * and `find_by(product:)`, the `||= 0` / `+=` merge of a quantity, the
 * quantity validation of `save!`, and the removal of a whole line.
 */
module LineItems {
  import opened CartModel

  function Products(items: seq<LineItem>): set<ProductId> {
    set i | 0 <= i < |items| :: items[i].product
  }

  /** The unique index, read pairwise on the lines themselves (unwraps `ProductAt`). */
  lemma DistinctProducts(items: seq<LineItem>)
    requires UniqueProducts(items)
    ensures forall i, j :: 0 <= i < j < |items| ==> items[i].product != items[j].product
  {
    forall i, j | 0 <= i < j < |items| ensures items[i].product != items[j].product {
      assert ProductAt(items, i) != ProductAt(items, j);
    }
  }

  /** Under the unique index, line `k` is the only line with its product. */
  lemma OnlyLineFor(items: seq<LineItem>, k: nat)
    requires k < |items|
    ensures UniqueProducts(items) ==>
              forall i :: 0 <= i < |items| && items[i].product == items[k].product ==> i == k
  {
    if UniqueProducts(items) {
      DistinctProducts(items);
    }
  }

  /** Lines with the same products, position by position, keep the unique index. */
  lemma SameProductsUnique(items: seq<LineItem>, r: seq<LineItem>)
    requires UniqueProducts(items) && |r| == |items|
    requires forall k :: 0 <= k < |r| ==> r[k].product == items[k].product
    ensures UniqueProducts(r)
  {
    forall a, b | 0 <= a < b < |r| ensures ProductAt(r, a) != ProductAt(r, b) {
      assert ProductAt(items, a) != ProductAt(items, b);
    }
  }

  /** A new last line for a product not yet in the cart keeps the unique index. */
  lemma AppendUnique(items: seq<LineItem>, line: LineItem)
    requires UniqueProducts(items) && line.product !in Products(items)
    ensures UniqueProducts(items + [line])
  {
    var r := items + [line];
    forall a, b | 0 <= a < b < |r| ensures ProductAt(r, a) != ProductAt(r, b) {
      if b < |items| {
        assert ProductAt(items, a) != ProductAt(items, b);
      } else {
        assert r[a].product in Products(items);
      }
    }
  }

  /** Cutting out one line keeps the unique index. */
  lemma CutUnique(items: seq<LineItem>, i: nat)
    requires UniqueProducts(items) && i < |items|
    ensures UniqueProducts(items[..i] + items[i + 1..])
  {
    var r := items[..i] + items[i + 1..];
    forall a, b | 0 <= a < b < |r| ensures ProductAt(r, a) != ProductAt(r, b) {
      var a', b' := if a < i then a else a + 1, if b < i then b else b + 1;
      assert r[a] == items[a'] && r[b] == items[b'];
      assert ProductAt(items, a') != ProductAt(items, b');
    }
  }

  /** The abstract view of a cart's lines: product to quantity. */
  function Quantities(items: seq<LineItem>): map<ProductId, int> {
    map p | p in Products(items) :: QuantityOf(items, p)
  }

  /** `find_by(product: p)`: the position of the first line for `p`, if any. */
  function FindLine(items: seq<LineItem>, p: ProductId): (r: Option<nat>)
    ensures r.Some? ==> r.value < |items| && items[r.value].product == p
    ensures r.Some? ==> forall j :: 0 <= j < r.value ==> items[j].product != p
    ensures r.None? <==> p !in Products(items)
  {
    FindLineFrom(items, p, 0)
  }

  /** The scan behind `FindLine`, from position `from` onwards. */
  function FindLineFrom(items: seq<LineItem>, p: ProductId, from: nat): (r: Option<nat>)
    requires from <= |items|
    ensures r.Some? ==> from <= r.value < |items| && items[r.value].product == p
    ensures r.Some? ==> forall j :: from <= j < r.value ==> items[j].product != p
    ensures r.None? ==> forall j :: from <= j < |items| ==> items[j].product != p
    decreases |items| - from
  {
    if from == |items| then None
    else if items[from].product == p then Some(from)
    else FindLineFrom(items, p, from + 1)
  }

  /** The quantity of the line for `p`, 0 when there is none (`quantity ||= 0`). */
  function QuantityOf(items: seq<LineItem>, p: ProductId): (q: int)
    ensures p !in Products(items) ==> q == 0
    ensures UniqueProducts(items) ==>
              forall i :: 0 <= i < |items| && items[i].product == p ==> q == items[i].quantity
    ensures PositiveQuantities(items) ==> (q > 0 <==> p in Products(items))
  {
    match FindLine(items, p)
    case None => 0
    case Some(i) => OnlyLineFor(items, i); items[i].quantity
  }

  /** Write `quantity` into the line for `p`, creating the line at the end when absent. */
  function Upsert(items: seq<LineItem>, p: ProductId, quantity: int): (r: seq<LineItem>)
    requires UniqueProducts(items)
    ensures UniqueProducts(r)
    ensures Products(r) == Products(items) + {p}
    ensures |r| == if p in Products(items) then |items| else |items| + 1
    ensures forall i :: 0 <= i < |items| && items[i].product != p ==> r[i] == items[i]
  {
    match FindLine(items, p)
    case Some(i) =>
      var r := items[i := LineItem(p, quantity)];
      assert forall k :: 0 <= k < |r| ==> r[k].product == items[k].product;
      SameProductsUnique(items, r);
      assert Products(r) == Products(items) by {
        forall x | x in Products(items) ensures x in Products(r) {
          var j :| 0 <= j < |items| && items[j].product == x;
          assert r[j].product == x;
        }
      }
      r
    case None =>
      var r := items + [LineItem(p, quantity)];
      AppendUnique(items, LineItem(p, quantity));
      assert Products(r) == Products(items) + {p} by {
        assert r[|items|].product == p;
        forall x | x in Products(items) ensures x in Products(r) {
          var j :| 0 <= j < |items| && items[j].product == x;
          assert r[j].product == x;
        }
      }
      r
  }

  /** The lines after `find_or_initialize_by`, `quantity ||= 0` and `quantity += q`. */
  function Merge(items: seq<LineItem>, p: ProductId, q: int): (r: seq<LineItem>)
    requires UniqueProducts(items)
    ensures UniqueProducts(r)
  {
    Upsert(items, p, QuantityOf(items, p) + q)
  }

  /**
   * `add_item`: `Product.find` fails for a product missing from the catalog;
   * `save!` fails when the merged quantity is not positive; otherwise the merge.
   */
  function AddLine(items: seq<LineItem>, catalog: Catalog, p: ProductId, q: int): (r: Result<seq<LineItem>>)
    requires WellFormedItems(items, catalog)
    ensures p !in catalog ==> r == Err(ProductNotFound)
    ensures p in catalog && QuantityOf(items, p) + q <= 0 ==> r == Err(InvalidQuantity)
    ensures r.Ok? <==> p in catalog && QuantityOf(items, p) + q > 0
    ensures r.Ok? ==> r.value == Merge(items, p, q) && WellFormedItems(r.value, catalog)
  {
    if p !in catalog then Err(ProductNotFound)
    else if QuantityOf(items, p) + q <= 0 then Err(InvalidQuantity)
    else
      var merged := Merge(items, p, q);
      MergeWellFormed(items, catalog, p, q);
      Ok(merged)
  }

  /** Delete the whole line for `p`; `None` when the cart has no such line. */
  function RemoveLine(items: seq<LineItem>, p: ProductId): (r: Option<seq<LineItem>>)
    requires UniqueProducts(items)
    ensures r.None? <==> p !in Products(items)
    ensures r.Some? ==> UniqueProducts(r.value) && |r.value| == |items| - 1
  {
    match FindLine(items, p)
    case None => None
    case Some(i) => CutUnique(items, i); Some(items[..i] + items[i + 1..])
  }

  /** `destroy_item`: `Product.find` first, then "not in cart", then the removal. */
  function RemoveFromCart(items: seq<LineItem>, catalog: Catalog, p: ProductId): (r: Result<seq<LineItem>>)
    requires WellFormedItems(items, catalog)
    ensures r.Err? && p in catalog ==> r.error == ProductNotInCart
    ensures r.Err? && p !in catalog ==> r.error == ProductNotFound
    ensures r.Ok? <==> p in catalog && p in Products(items)
    ensures r.Ok? ==> RemoveLine(items, p) == Some(r.value) && WellFormedItems(r.value, catalog)
  {
    if p !in catalog then Err(ProductNotFound)
    else
      match RemoveLine(items, p)
      case None => Err(ProductNotInCart)
      case Some(rest) =>
        RemoveLineQuantities(items, p);
        RemoveLineWellFormed(items, catalog, p);
        Ok(rest)
  }

  // ---------------------------------------------------------------------------
  // Lemmas

  /** Writing a quantity sets that product's quantity and leaves every other one alone. */
  lemma UpsertQuantityOf(items: seq<LineItem>, p: ProductId, quantity: int)
    requires UniqueProducts(items)
    ensures QuantityOf(Upsert(items, p, quantity), p) == quantity
    ensures forall p' :: p' != p ==> QuantityOf(Upsert(items, p, quantity), p') == QuantityOf(items, p')
  {
    var r := Upsert(items, p, quantity);
    var i := FindLine(r, p).value;
    if FindLine(items, p).Some? {
      FindLineAt(r, p, FindLine(items, p).value);
    } else {
      assert i == |items|;
    }
    forall p' | p' != p ensures QuantityOf(r, p') == QuantityOf(items, p') {
      if p' in Products(items) {
        var j := FindLine(items, p').value;
        assert r[j] == items[j];
      }
    }
  }

  /** The same, on the product-to-quantity view. */
  lemma UpsertQuantities(items: seq<LineItem>, p: ProductId, quantity: int)
    requires UniqueProducts(items)
    ensures Quantities(Upsert(items, p, quantity)) == Quantities(items)[p := quantity]
  {
    UpsertQuantityOf(items, p, quantity);
  }

  /** A merge accumulates: the new quantity is the old quantity (0 if absent) plus `q`. */
  lemma MergeQuantities(items: seq<LineItem>, p: ProductId, q: int)
    requires UniqueProducts(items)
    ensures Quantities(Merge(items, p, q)) == Quantities(items)[p := QuantityOf(items, p) + q]
    ensures QuantityOf(Merge(items, p, q), p) == QuantityOf(items, p) + q
    ensures forall p' :: p' != p ==> QuantityOf(Merge(items, p, q), p') == QuantityOf(items, p')
    ensures Products(Merge(items, p, q)) == Products(items) + {p}
  {
    var quantity := QuantityOf(items, p) + q;
    assert Merge(items, p, q) == Upsert(items, p, quantity);
    UpsertQuantityOf(items, p, quantity);
    UpsertQuantities(items, p, quantity);
  }

  /** The merged lines keep the stored shape when the merged quantity is positive. */
  lemma MergeWellFormed(items: seq<LineItem>, catalog: Catalog, p: ProductId, q: int)
    requires WellFormedItems(items, catalog) && p in catalog && QuantityOf(items, p) + q > 0
    ensures WellFormedItems(Merge(items, p, q), catalog)
  {
    var r := Merge(items, p, q);
    forall i | 0 <= i < |r| ensures r[i].product in catalog && r[i].quantity > 0 {
      if i < |items| && items[i].product != p {
        assert r[i] == items[i];
      } else {
        assert r[i].product == p by {
          assert r[i].product in Products(r);
          if i < |items| {
            assert items[i].product == p;
            var k := FindLine(items, p).value;
            OnlyLineFor(items, k);
          } else {
            assert p !in Products(items);
          }
        }
        assert QuantityOf(r, p) == r[i].quantity;
        MergeQuantities(items, p, q);
      }
    }
  }

  /** Two adds of the same product are one add of the sum: no second line appears. */
  lemma MergeTwice(items: seq<LineItem>, p: ProductId, q1: int, q2: int)
    requires UniqueProducts(items)
    ensures Merge(Merge(items, p, q1), p, q2) == Merge(items, p, q1 + q2)
  {
    var q0 := QuantityOf(items, p);
    var once := q0 + q1;
    var sum := once + q2;
    assert Merge(items, p, q1) == Upsert(items, p, once);
    MergeAfterUpsert(items, p, once, q2, sum);
    assert Merge(items, p, q1 + q2) == Upsert(items, p, sum);
  }

  /** Merging into freshly written lines accumulates onto the written quantity. */
  lemma MergeAfterUpsert(items: seq<LineItem>, p: ProductId, quantity: int, q: int, total: int)
    requires UniqueProducts(items) && total == quantity + q
    ensures Merge(Upsert(items, p, quantity), p, q) == Upsert(items, p, total)
  {
    UpsertQuantityOf(items, p, quantity);
    assert Merge(Upsert(items, p, quantity), p, q) == Upsert(Upsert(items, p, quantity), p, total);
    UpsertTwice(items, p, quantity, total);
  }

  /** The second write to a product's line overrides the first. */
  lemma UpsertTwice(items: seq<LineItem>, p: ProductId, a: int, b: int)
    requires UniqueProducts(items)
    ensures Upsert(Upsert(items, p, a), p, b) == Upsert(items, p, b)
  {
    var once := Upsert(items, p, a);
    match FindLine(items, p)
    case Some(i) =>
      assert once == items[i := LineItem(p, a)];
      FindLineAt(once, p, i);
      assert Upsert(once, p, b) == once[i := LineItem(p, b)];
      assert once[i := LineItem(p, b)] == items[i := LineItem(p, b)];
    case None =>
      assert once == items + [LineItem(p, a)];
      assert forall j :: 0 <= j < |items| ==> once[j] == items[j];
      FindLineAt(once, p, |items|);
      assert Upsert(once, p, b) == once[|items| := LineItem(p, b)];
      assert once[|items| := LineItem(p, b)] == items + [LineItem(p, b)];
  }

  /** The first line for `p` is the one `find_by` returns. */
  lemma FindLineAt(items: seq<LineItem>, p: ProductId, i: nat)
    requires i < |items| && items[i].product == p
    requires forall j :: 0 <= j < i ==> items[j].product != p
    ensures FindLine(items, p) == Some(i)
  {
    assert p in Products(items);
  }

  /** Removing a line takes exactly that product out of the view. */
  lemma RemoveLineQuantities(items: seq<LineItem>, p: ProductId)
    requires UniqueProducts(items) && p in Products(items)
    ensures RemoveLine(items, p).Some?
    ensures Quantities(RemoveLine(items, p).value) == Quantities(items) - {p}
    ensures Products(RemoveLine(items, p).value) == Products(items) - {p}
    ensures forall p' :: p' != p ==> QuantityOf(RemoveLine(items, p).value, p') == QuantityOf(items, p')
  {
    var i := FindLine(items, p).value;
    var r := RemoveLine(items, p).value;
    RemoveLineProducts(items, p);
    forall p' | p' != p ensures QuantityOf(r, p') == QuantityOf(items, p') {
      if p' in Products(r) {
        var j := FindLine(r, p').value;
        if j < i { assert r[j] == items[j]; } else { assert r[j] == items[j + 1]; }
      }
    }
    assert Quantities(r) == Quantities(items) - {p};
  }

  lemma RemoveLineProducts(items: seq<LineItem>, p: ProductId)
    requires UniqueProducts(items) && p in Products(items)
    ensures RemoveLine(items, p).Some?
    ensures var i := FindLine(items, p).value;
            RemoveLine(items, p).value == items[..i] + items[i + 1..]
    ensures Products(RemoveLine(items, p).value) == Products(items) - {p}
  {
    ProductsWithout(items, FindLine(items, p).value);
  }

  /** Under the unique index, cutting out line `i` takes exactly its product away. */
  lemma ProductsWithout(items: seq<LineItem>, i: nat)
    requires UniqueProducts(items) && i < |items|
    ensures Products(items[..i] + items[i + 1..]) == Products(items) - {items[i].product}
  {
    var prefix, suffix := items[..i], items[i + 1..];
    ProductsConcat(prefix, suffix);
    assert items == prefix + [items[i]] + suffix;
    ProductsConcat(prefix + [items[i]], suffix);
    ProductsConcat(prefix, [items[i]]);
    assert Products([items[i]]) == {items[i].product};
    OnlyLineFor(items, i);
    assert items[i].product !in Products(prefix) by {
      forall k | 0 <= k < |prefix| ensures prefix[k].product != items[i].product {
        assert prefix[k] == items[k];
      }
    }
    assert items[i].product !in Products(suffix) by {
      forall k | 0 <= k < |suffix| ensures suffix[k].product != items[i].product {
        assert suffix[k] == items[i + 1 + k];
      }
    }
  }

  lemma ProductsConcat(a: seq<LineItem>, b: seq<LineItem>)
    ensures Products(a + b) == Products(a) + Products(b)
  {
    forall x | x in Products(a + b) ensures x in Products(a) + Products(b) {
      var j :| 0 <= j < |a + b| && (a + b)[j].product == x;
      if j < |a| { assert a[j].product == x; } else { assert b[j - |a|].product == x; }
    }
    forall x | x in Products(b) ensures x in Products(a + b) {
      var j :| 0 <= j < |b| && b[j].product == x;
      assert (a + b)[|a| + j].product == x;
    }
    forall x | x in Products(a) ensures x in Products(a + b) {
      var j :| 0 <= j < |a| && a[j].product == x;
      assert (a + b)[j].product == x;
    }
  }

  /** Removing a line keeps the stored shape. */
  lemma RemoveLineWellFormed(items: seq<LineItem>, catalog: Catalog, p: ProductId)
    requires WellFormedItems(items, catalog) && p in Products(items)
    ensures RemoveLine(items, p).Some?
    ensures WellFormedItems(RemoveLine(items, p).value, catalog)
  {
    var i := FindLine(items, p).value;
    var r := RemoveLine(items, p).value;
    assert forall k :: 0 <= k < |r| ==> r[k] == (if k < i then items[k] else items[k + 1]);
  }

  /** The lines after a removal are the old lines in the old order, minus the one for `p`. */
  lemma RemoveLineKeepsOrder(items: seq<LineItem>, p: ProductId)
    requires UniqueProducts(items) && p in Products(items)
    ensures exists i :: 0 <= i < |items| && items[i].product == p
              && RemoveLine(items, p) == Some(items[..i] + items[i + 1..])
  {
    var i := FindLine(items, p).value;
    assert items[i].product == p && RemoveLine(items, p) == Some(items[..i] + items[i + 1..]);
  }

  /** Removing a line that an add has just created gives back the lines before the add. */
  lemma RemoveUndoesNewLine(items: seq<LineItem>, p: ProductId, q: int)
    requires UniqueProducts(items) && p !in Products(items)
    ensures RemoveLine(Merge(items, p, q), p) == Some(items)
  {
    var r := Merge(items, p, q);
    assert r == items + [LineItem(p, q)];
    var k := FindLine(r, p).value;
    assert k == |items|;
    assert r[..k] + r[k + 1..] == items;
  }

  /** The total moves by price * q when a merge adds `q` of `p`. */
  lemma TotalOfMerge(items: seq<LineItem>, catalog: Catalog, p: ProductId, q: int)
    requires UniqueProducts(items) && Priced(items, catalog) && p in catalog
    ensures Priced(Merge(items, p, q), catalog)
    ensures Total(Merge(items, p, q), catalog) == Total(items, catalog) + catalog[p] * q
  {
    var old_q := QuantityOf(items, p);
    assert Merge(items, p, q) == Upsert(items, p, old_q + q);
    match FindLine(items, p)
    case Some(i) =>
      assert Upsert(items, p, old_q + q) == items[i := LineItem(p, old_q + q)];
      TotalUpdate(items, catalog, i, LineItem(p, old_q + q));
      assert catalog[p] * (old_q + q) == catalog[p] * old_q + catalog[p] * q;
    case None =>
      AppendPriced(items, catalog, LineItem(p, old_q + q));
  }

  /** Removing the line for `p` lowers the total by price * quantity of that line. */
  lemma TotalOfRemoveLine(items: seq<LineItem>, catalog: Catalog, p: ProductId)
    requires UniqueProducts(items) && Priced(items, catalog) && p in Products(items) && p in catalog
    ensures RemoveLine(items, p).Some?
    ensures Priced(RemoveLine(items, p).value, catalog)
    ensures Total(RemoveLine(items, p).value, catalog) == Total(items, catalog) - catalog[p] * QuantityOf(items, p)
  {
    var i := FindLine(items, p).value;
    TotalRemove(items, catalog, i);
  }

  /** An add that would create a line with a quantity that is not positive fails. */
  lemma NonPositiveNewLineRejected(items: seq<LineItem>, catalog: Catalog, p: ProductId, q: int)
    requires WellFormedItems(items, catalog) && p !in Products(items) && q <= 0
    ensures AddLine(items, catalog, p, q).Err?
  {
  }

  /** Two lines worth 1000 x 2 and 2000 x 1 total 4000, and an empty cart totals 0. */
  lemma TotalScenario()
    ensures var catalog := map[1 := 1000, 2 := 2000];
            && Total([LineItem(1, 2), LineItem(2, 1)], catalog) == 4000
            && Total([], catalog) == 0
  {
  }

  /** Removing the first of two lines leaves the other, and the total drops to its worth. */
  lemma RemoveScenario()
    ensures var catalog := map[1 := 1000, 2 := 2000];
            var items := [LineItem(1, 2), LineItem(2, 1)];
            && RemoveLine(items, 1) == Some([LineItem(2, 1)])
            && Total([LineItem(2, 1)], catalog) == 2000
  {
    var items := [LineItem(1, 2), LineItem(2, 1)];
    assert FindLine(items, 1) == Some(0);
    assert items[..0] + items[1..] == [LineItem(2, 1)];
  }

  /** Adding one unit of a product twice gives one line of quantity 2. */
  lemma RepeatAddScenario(p: ProductId)
    ensures Merge(Merge([], p, 1), p, 1) == [LineItem(p, 2)]
  {
    MergeTwice([], p, 1, 1);
    assert FindLine([], p) == None;
  }
}
