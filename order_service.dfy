/** Order fulfilment: `createOrder`, `updateOrder`, `changeStatus` and the
    per-item `deductStock` / `restoreStock` they are built from, plus
    `deductStockForOrder` and `processOrderMovements`.

    The stock column is read and decremented as `quantity` but incremented as
    `stock`; the model keeps one counter per row for both names. */
module OrderService {
  import opened Model
  import opened Ledger

  /** The stock table and the movements written by a run of deductions. */
  datatype Deduction = Deduction(stock: map<Key, int>, log: seq<Movement>)

  /** The movement `deductStock` writes: the negated quantity and the count
      read before the change. */
  function DecreaseMovement(p: ProductId, w: WarehouseId, q: int, previous: Option<int>): (m: Movement)
  {
    Movement(p, w, -q, Decrease, previous)
  }

  /** `decrement` on the rows matching `k`: no row matches when it is absent. */
  function Decremented(stock: map<Key, int>, k: Key, q: int): (r: map<Key, int>)
  {
    if k in stock then stock[k := stock[k] - q] else stock
  }

  /** `increment` on the rows matching `k`: no row matches when it is absent. */
  function Incremented(stock: map<Key, int>, k: Key, q: int): (r: map<Key, int>)
  {
    if k in stock then stock[k := stock[k] + q] else stock
  }

  /** The total count of `p` over `items`. */
  function SumFor(items: seq<Item>, p: ProductId): (total: int)
    decreases |items|
  {
    if items == [] then 0
    else SumFor(items[..|items| - 1], p) + (if items[|items| - 1].product == p then items[|items| - 1].count else 0)
  }

  /** `deductStock` on each item in turn at warehouse `w`: the resulting table
      and log, or `None` as soon as one item finds too little stock. */
  function DeductItems(stock: map<Key, int>, w: WarehouseId, items: seq<Item>): (r: Option<Deduction>)
    decreases |items|
  {
    if items == [] then Some(Deduction(stock, []))
    else
      var last := items[|items| - 1];
      var k := (last.product, w);
      match DeductItems(stock, w, items[..|items| - 1])
      case None => None
      case Some(d) =>
        if Insufficient(Lookup(d.stock, k), last.count) then None
        else Some(Deduction(
          Decremented(d.stock, k, last.count),
          d.log + [DecreaseMovement(last.product, w, last.count, Lookup(d.stock, k))]))
  }

  /** `restoreStock` on each item in turn at warehouse `w`. */
  function RestoreItems(stock: map<Key, int>, w: WarehouseId, items: seq<Item>): (r: map<Key, int>)
    decreases |items|
  {
    if items == [] then stock
    else
      var last := items[|items| - 1];
      Incremented(RestoreItems(stock, w, items[..|items| - 1]), (last.product, w), last.count)
  }

  ghost predicate PositiveCounts(items: seq<Item>)
  {
    forall i :: 0 <= i < |items| ==> items[i].count > 0
  }

  /** For every item, the stock of its product covers the total requested. */
  ghost predicate Covers(stock: map<Key, int>, w: WarehouseId, items: seq<Item>)
  {
    forall i :: 0 <= i < |items| ==> SumFor(items, items[i].product) <= Count(stock, (items[i].product, w))
  }

  /** Item `j` is the one a run of deductions stops at: the items before it
      all pass, and it fails the check against the table they leave. */
  ghost predicate FirstShortItem(stock: map<Key, int>, w: WarehouseId, items: seq<Item>, j: int)
  {
    && 0 <= j < |items|
    && DeductItems(stock, w, items[..j]).Some?
    && Insufficient(Lookup(DeductItems(stock, w, items[..j]).value.stock, (items[j].product, w)), items[j].count)
  }

  /** The customer replacement `updateOrder` performs when one is supplied. */
  function WithCustomer(o: Order, customer: Option<string>): (r: Order)
  {
    if customer.Some? then o.(customer := customer.value) else o
  }

  /** The statuses `changeStatus` accepts. */
  function StatusOf(s: string): (r: Option<Status>)
    ensures r == Some(Active) <==> s == "active"
    ensures r == Some(Completed) <==> s == "completed"
    ensures r == Some(Canceled) <==> s == "canceled"
    ensures r.None? <==> s != "active" && s != "completed" && s != "canceled"
  {
    if s == "active" then Some(Active)
    else if s == "completed" then Some(Completed)
    else if s == "canceled" then Some(Canceled)
    else None
  }

  // ---------------------------------------------------------------------
  // Properties of the deduction and restoration runs

  /** One passed check lowers the count of `k` by exactly `q`, leaves it at
      or above 0, and touches no other row. */
  lemma DecrementedWhenSufficient(stock: map<Key, int>, k: Key, q: int)
    requires !Insufficient(Lookup(stock, k), q)
    ensures Decremented(stock, k, q).Keys == stock.Keys
    ensures Count(Decremented(stock, k, q), k) == Count(stock, k) - q
    ensures Count(Decremented(stock, k, q), k) >= 0
    ensures forall k' :: k' != k ==> Lookup(Decremented(stock, k, q), k') == Lookup(stock, k')
  {
  }

  /** Once a prefix of the items fails, the whole run fails. */
  lemma {:induction false} DeductPrefixFails(stock: map<Key, int>, w: WarehouseId, items: seq<Item>, n: nat)
    requires n <= |items|
    requires DeductItems(stock, w, items[..n]).None?
    ensures DeductItems(stock, w, items).None?
    decreases |items| - n
  {
    if n < |items| {
      var pre := items[..|items| - 1];
      assert pre[..n] == items[..n];
      DeductPrefixFails(stock, w, pre, n);
    } else {
      assert items[..n] == items;
    }
  }

  /** A successful run creates no row, lowers the count of every product at
      `w` by its total over the items, leaves other warehouses alone, and
      logs one decrease movement per item, in order. */
  lemma {:induction false} DeductItemsEffect(stock: map<Key, int>, w: WarehouseId, items: seq<Item>)
    requires DeductItems(stock, w, items).Some?
    ensures var d := DeductItems(stock, w, items).value;
      && d.stock.Keys == stock.Keys
      && (forall p :: Count(d.stock, (p, w)) == Count(stock, (p, w)) - SumFor(items, p))
      && (forall k: Key :: k.1 != w ==> Lookup(d.stock, k) == Lookup(stock, k))
      && |d.log| == |items|
      && (forall i :: 0 <= i < |items| ==>
            d.log[i].product == items[i].product && d.log[i].warehouse == w &&
            d.log[i].quantity == -items[i].count && d.log[i].kind == Decrease)
    decreases |items|
  {
    if items != [] {
      var n := |items|;
      var pre, last := items[..n - 1], items[n - 1];
      var k := (last.product, w);
      DeductItemsEffect(stock, w, pre);
      var d0 := DeductItems(stock, w, pre).value;
      var d := DeductItems(stock, w, items).value;
      DecrementedWhenSufficient(d0.stock, k, last.count);
      assert d.stock == Decremented(d0.stock, k, last.count);
      forall p ensures Count(d.stock, (p, w)) == Count(stock, (p, w)) - SumFor(items, p) {
        if p != last.product {
          assert Lookup(d.stock, (p, w)) == Lookup(d0.stock, (p, w));
        }
      }
      forall k': Key | k'.1 != w ensures Lookup(d.stock, k') == Lookup(stock, k') {
        assert Lookup(d.stock, k') == Lookup(d0.stock, k');
      }
      forall i | 0 <= i < n
        ensures d.log[i].product == items[i].product && d.log[i].warehouse == w
        ensures d.log[i].quantity == -items[i].count && d.log[i].kind == Decrease
      {
        if i < n - 1 { assert pre[i] == items[i]; }
      }
    }
  }

  /** A successful run keeps a non-negative table non-negative. */
  lemma {:induction false} DeductItemsKeepsNonNegative(stock: map<Key, int>, w: WarehouseId, items: seq<Item>)
    requires NonNegative(stock)
    requires DeductItems(stock, w, items).Some?
    ensures NonNegative(DeductItems(stock, w, items).value.stock)
    decreases |items|
  {
    if items != [] {
      var n := |items|;
      var pre, last := items[..n - 1], items[n - 1];
      var k := (last.product, w);
      DeductItemsKeepsNonNegative(stock, w, pre);
      var d0 := DeductItems(stock, w, pre).value;
      SufficientKeepsNonNegative(d0.stock, k, last.count);
      var s' := DeductItems(stock, w, items).value.stock;
      forall k' | k' in s' ensures s'[k'] >= 0 {
        if k' != k { assert s'[k'] == d0.stock[k']; }
      }
    }
  }

  /** A run stops at one item only: at most one index is the first short
      item, so the error and the deducted prefix of a failed run are
      determined by the inputs. */
  lemma FirstShortItemUnique(stock: map<Key, int>, w: WarehouseId, items: seq<Item>, i: int, j: int)
    requires FirstShortItem(stock, w, items, i)
    requires FirstShortItem(stock, w, items, j)
    ensures i == j
  {
    if i != j {
      var lo, hi := if i < j then i else j, if i < j then j else i;
      var pre := items[..hi];
      assert pre[..lo] == items[..lo];
      assert pre[..lo + 1][..lo] == items[..lo];
      assert pre[..lo + 1][lo] == items[lo];
      assert DeductItems(stock, w, pre[..lo + 1]).None?;
      DeductPrefixFails(stock, w, pre, lo + 1);
      assert false;
    }
  }

  /** With positive counts, a run of deductions succeeds exactly when, for
      every product ordered, the stock at `w` covers the total ordered. */
  lemma {:induction false} DeductItemsSucceedsIff(stock: map<Key, int>, w: WarehouseId, items: seq<Item>)
    requires PositiveCounts(items)
    ensures DeductItems(stock, w, items).Some? <==> Covers(stock, w, items)
    decreases |items|
  {
    if items != [] {
      var n := |items|;
      var pre, last := items[..n - 1], items[n - 1];
      var k := (last.product, w);
      forall i | 0 <= i < |pre| ensures pre[i].count > 0 {
        assert pre[i] == items[i];
      }
      DeductItemsSucceedsIff(stock, w, pre);
      forall i | 0 <= i < n - 1
        ensures SumFor(items, items[i].product) >= SumFor(pre, pre[i].product)
        ensures items[i].product != last.product ==> SumFor(items, items[i].product) == SumFor(pre, pre[i].product)
      {
        assert pre[i] == items[i];
      }
      if DeductItems(stock, w, pre).Some? {
        DeductItemsEffect(stock, w, pre);
        var d0 := DeductItems(stock, w, pre).value;
        InsufficientAgainstCount(d0.stock, k, last.count);
        assert Count(d0.stock, k) == Count(stock, k) - SumFor(pre, last.product);
        if Covers(stock, w, items) {
          assert SumFor(items, items[n - 1].product) <= Count(stock, (items[n - 1].product, w));
          assert DeductItems(stock, w, items).Some?;
        }
        if DeductItems(stock, w, items).Some? {
          forall i | 0 <= i < n
            ensures SumFor(items, items[i].product) <= Count(stock, (items[i].product, w))
          {
            if i < n - 1 && items[i].product != last.product {
              assert pre[i] == items[i];
            }
          }
        }
      } else {
        var j :| 0 <= j < |pre| && SumFor(pre, pre[j].product) > Count(stock, (pre[j].product, w));
        assert pre[j] == items[j];
        assert SumFor(items, items[j].product) > Count(stock, (items[j].product, w));
      }
    }
  }

  /** Restoring increments every existing row at `w` by that product's total
      over the items; absent rows stay absent and other warehouses are not
      touched. */
  lemma {:induction false} RestoreItemsEffect(stock: map<Key, int>, w: WarehouseId, items: seq<Item>)
    ensures var r := RestoreItems(stock, w, items);
      && r.Keys == stock.Keys
      && (forall p :: (p, w) in stock ==> r[(p, w)] == stock[(p, w)] + SumFor(items, p))
      && (forall k: Key :: k in stock && k.1 != w ==> r[k] == stock[k])
    decreases |items|
  {
    if items != [] {
      var pre := items[..|items| - 1];
      RestoreItemsEffect(stock, w, pre);
    }
  }

  /** Restoring a set of items and deducting the same items again gives back
      the original table, provided each item's row exists with a non-negative
      count and every count is positive. */
  lemma RestoreThenDeductIsNoOp(stock: map<Key, int>, w: WarehouseId, items: seq<Item>)
    requires PositiveCounts(items)
    requires forall i :: 0 <= i < |items| ==> (items[i].product, w) in stock && stock[(items[i].product, w)] >= 0
    ensures DeductItems(RestoreItems(stock, w, items), w, items).Some?
    ensures DeductItems(RestoreItems(stock, w, items), w, items).value.stock == stock
  {
    var r := RestoreItems(stock, w, items);
    RestoreItemsEffect(stock, w, items);
    forall i | 0 <= i < |items|
      ensures SumFor(items, items[i].product) <= Count(r, (items[i].product, w))
    {
      assert r[(items[i].product, w)] == stock[(items[i].product, w)] + SumFor(items, items[i].product);
    }
    DeductItemsSucceedsIff(r, w, items);
    DeductItemsEffect(r, w, items);
    var d := DeductItems(r, w, items).value;
    forall k | k in stock ensures d.stock[k] == stock[k] {
      if k.1 == w {
        assert Count(d.stock, (k.0, w)) == Count(r, (k.0, w)) - SumFor(items, k.0);
      } else {
        assert Lookup(d.stock, k) == Lookup(r, k);
      }
    }
  }

  /** The stock effect of `updateOrder` with items: each existing row at the
      order's warehouse ends at its old count plus the old items' total minus
      the new items' total; nothing else changes. */
  lemma UpdateNetEffect(stock: map<Key, int>, w: WarehouseId, oldItems: seq<Item>, newItems: seq<Item>)
    requires DeductItems(RestoreItems(stock, w, oldItems), w, newItems).Some?
    ensures var s' := DeductItems(RestoreItems(stock, w, oldItems), w, newItems).value.stock;
      && s'.Keys == stock.Keys
      && (forall p :: (p, w) in stock ==> s'[(p, w)] == stock[(p, w)] + SumFor(oldItems, p) - SumFor(newItems, p))
      && (forall k: Key :: k in stock && k.1 != w ==> s'[k] == stock[k])
  {
    var r := RestoreItems(stock, w, oldItems);
    RestoreItemsEffect(stock, w, oldItems);
    DeductItemsEffect(r, w, newItems);
    var s' := DeductItems(r, w, newItems).value.stock;
    forall p | (p, w) in stock
      ensures s'[(p, w)] == stock[(p, w)] + SumFor(oldItems, p) - SumFor(newItems, p)
    {
      assert Count(s', (p, w)) == Count(r, (p, w)) - SumFor(newItems, p);
    }
    forall k: Key | k in stock && k.1 != w ensures s'[k] == stock[k] {
      assert Lookup(s', k) == Lookup(r, k);
    }
  }

  // ---------------------------------------------------------------------
  // Worked examples

  /** Order creation against stock {p1: 10, p2: 2} with items [p1 x 5, p2 x 3]
      fails as a whole. */
  lemma CreateRejectsShortItem()
    ensures DeductItems(map[(1, 1) := 10, (2, 1) := 2], 1, [Item(1, 5), Item(2, 3)]).None?
  {
    var items := [Item(1, 5), Item(2, 3)];
    assert items[..1] == [Item(1, 5)];
    assert [Item(1, 5)][..0] == [];
  }

  /** Deducting [p1 x 5, p2 x 3] against {p1: 10, p2: 2} passes the first
      item and stops at the second, after p1 has dropped to 5. */
  lemma DeductionStopsAtSecondItem()
    ensures FirstShortItem(map[(1, 1) := 10, (2, 1) := 2], 1, [Item(1, 5), Item(2, 3)], 1)
    ensures DeductItems(map[(1, 1) := 10, (2, 1) := 2], 1, [Item(1, 5), Item(2, 3)][..1]).value.stock
      == map[(1, 1) := 5, (2, 1) := 2]
  {
    var items := [Item(1, 5), Item(2, 3)];
    assert items[..1] == [Item(1, 5)];
    assert [Item(1, 5)][..0] == [];
    assert map[(1, 1) := 10, (2, 1) := 2][(1, 1) := 5] == map[(1, 1) := 5, (2, 1) := 2];
  }

  /** Stock 10, an order of 5 leaves 5; updating the order to 2 leaves 8. */
  lemma UpdateReplacesDeduction()
    ensures DeductItems(map[(1, 1) := 10], 1, [Item(1, 5)]).Some?
    ensures DeductItems(map[(1, 1) := 10], 1, [Item(1, 5)]).value.stock == map[(1, 1) := 5]
    ensures DeductItems(RestoreItems(map[(1, 1) := 5], 1, [Item(1, 5)]), 1, [Item(1, 2)]).Some?
    ensures DeductItems(RestoreItems(map[(1, 1) := 5], 1, [Item(1, 5)]), 1, [Item(1, 2)]).value.stock == map[(1, 1) := 8]
  {
    assert [Item(1, 5)][..0] == [];
    assert [Item(1, 2)][..0] == [];
    assert RestoreItems(map[(1, 1) := 5], 1, [Item(1, 5)]) == map[(1, 1) := 10];
  }

  // ---------------------------------------------------------------------
  // The service

  /** `deductStock`: reads the row, throws when it is smaller than the request,
      otherwise logs a decrease movement with the count read and decrements. */
  method DeductStock(db: Database, p: ProductId, w: WarehouseId, q: int) returns (r: Outcome)
    modifies db`stock, db`movements
    ensures Insufficient(Lookup(old(db.stock), (p, w)), q) ==>
      r == Fail(InsufficientStock(p)) && db.stock == old(db.stock) && db.movements == old(db.movements)
    ensures !Insufficient(Lookup(old(db.stock), (p, w)), q) ==>
      && r == Pass
      && db.stock == Decremented(old(db.stock), (p, w), q)
      && db.movements == old(db.movements) + [DecreaseMovement(p, w, q, Lookup(old(db.stock), (p, w)))]
  {
    var k := (p, w);
    var current := Lookup(db.stock, k);
    if Insufficient(current, q) {
      return Fail(InsufficientStock(p));
    }
    db.movements := db.movements + [DecreaseMovement(p, w, q, current)];
    if k in db.stock {
      db.stock := db.stock[k := db.stock[k] - q];
    }
    r := Pass;
  }

  /** The `foreach` over `deductStock` shared by `createOrder`, `updateOrder`,
      `deductStockForOrder` and `processOrderMovements`. It does not roll
      back: on a failure at item `done`, items 0..done-1 stay deducted and
      logged. */
  method DeductEach(db: Database, w: WarehouseId, items: seq<Item>) returns (r: Outcome, ghost done: nat)
    modifies db`stock, db`movements
    ensures done <= |items|
    ensures DeductItems(old(db.stock), w, items[..done]).Some?
    ensures db.stock == DeductItems(old(db.stock), w, items[..done]).value.stock
    ensures db.movements == old(db.movements) + DeductItems(old(db.stock), w, items[..done]).value.log
    ensures r.Pass? <==> DeductItems(old(db.stock), w, items).Some?
    ensures r.Pass? ==> done == |items|
    ensures r.Fail? ==>
      && done < |items|
      && r.error == InsufficientStock(items[done].product)
      && FirstShortItem(old(db.stock), w, items, done)
  {
    ghost var stock0 := db.stock;
    var i := 0;
    while i < |items|
      invariant 0 <= i <= |items|
      invariant DeductItems(stock0, w, items[..i]).Some?
      invariant db.stock == DeductItems(stock0, w, items[..i]).value.stock
      invariant db.movements == old(db.movements) + DeductItems(stock0, w, items[..i]).value.log
    {
      assert items[..i + 1][..i] == items[..i];
      r := DeductStock(db, items[i].product, w, items[i].count);
      if r.Fail? {
        DeductPrefixFails(stock0, w, items, i + 1);
        done := i;
        return;
      }
      i := i + 1;
    }
    assert items[..i] == items;
    done := i;
    r := Pass;
  }

  /** `restoreStock`: increments each item's row; writes no movement. */
  method RestoreStock(db: Database, w: WarehouseId, items: seq<Item>)
    modifies db`stock
    ensures db.stock == RestoreItems(old(db.stock), w, items)
  {
    ghost var stock0 := db.stock;
    var i := 0;
    while i < |items|
      invariant 0 <= i <= |items|
      invariant db.stock == RestoreItems(stock0, w, items[..i])
    {
      assert items[..i + 1][..i] == items[..i];
      var k := (items[i].product, w);
      if k in db.stock {
        db.stock := db.stock[k := db.stock[k] + items[i].count];
      }
      i := i + 1;
    }
    assert items[..i] == items;
  }

  /** `createOrder`: in one transaction, inserts the order as active with its
      items and deducts every item; any insufficiency rolls everything back. */
  method CreateOrder(db: Database, customer: string, w: WarehouseId, items: seq<Item>) returns (r: Result<OrderId>)
    requires db.Valid()
    modifies db
    ensures db.Valid()
    ensures DeductItems(old(db.stock), w, items).None? ==>
      && r.Failure?
      && (exists j :: 0 <= j < |items| && FirstShortItem(old(db.stock), w, items, j)
            && r.error == InsufficientStock(items[j].product))
      && db.stock == old(db.stock) && db.movements == old(db.movements)
      && db.orders == old(db.orders) && db.nextOrderId == old(db.nextOrderId)
    ensures DeductItems(old(db.stock), w, items).Some? ==>
      var d := DeductItems(old(db.stock), w, items).value;
      && r == Success(old(db.nextOrderId))
      && r.value !in old(db.orders)
      && db.orders == old(db.orders)[r.value := Order(customer, w, Active, items)]
      && db.stock == d.stock
      && db.movements == old(db.movements) + d.log
      && db.nextOrderId == old(db.nextOrderId) + 1
  {
    var stock0, log0, orders0, next0 := db.stock, db.movements, db.orders, db.nextOrderId;
    var id := db.nextOrderId;
    db.orders := db.orders[id := Order(customer, w, Active, items)];
    db.nextOrderId := id + 1;
    var outcome, done := DeductEach(db, w, items);
    if outcome.Fail? {
      assert FirstShortItem(stock0, w, items, done);
      // The transaction rolls back.
      db.stock, db.movements, db.orders, db.nextOrderId := stock0, log0, orders0, next0;
      return Failure(outcome.error);
    }
    assert items[..done] == items;
    r := Success(id);
  }

  /** `updateOrder`: in one transaction, replaces the customer when supplied
      and, when items are supplied, restores the old items, replaces them and
      deducts the new ones; any insufficiency rolls everything back. */
  method UpdateOrder(db: Database, id: OrderId, customer: Option<string>, items: Option<seq<Item>>) returns (r: Outcome)
    requires id in db.orders
    modifies db`stock, db`movements, db`orders
    ensures items.None? ==>
      && r == Pass
      && db.stock == old(db.stock) && db.movements == old(db.movements)
      && db.orders == old(db.orders)[id := WithCustomer(old(db.orders)[id], customer)]
    ensures items.Some? ==>
      var o := old(db.orders)[id];
      match DeductItems(RestoreItems(old(db.stock), o.warehouse, o.items), o.warehouse, items.value)
      case None =>
        && r.Fail?
        && (exists j :: 0 <= j < |items.value|
              && FirstShortItem(RestoreItems(old(db.stock), o.warehouse, o.items), o.warehouse, items.value, j)
              && r.error == InsufficientStock(items.value[j].product))
        && db.stock == old(db.stock) && db.movements == old(db.movements) && db.orders == old(db.orders)
      case Some(d) =>
        && r == Pass
        && db.stock == d.stock
        && db.movements == old(db.movements) + d.log
        && db.orders == old(db.orders)[id := WithCustomer(o, customer).(items := items.value)]
  {
    var stock0, log0, orders0 := db.stock, db.movements, db.orders;
    if customer.Some? {
      db.orders := db.orders[id := db.orders[id].(customer := customer.value)];
    }
    if items.Some? {
      var order := db.orders[id];
      RestoreStock(db, order.warehouse, order.items);
      db.orders := db.orders[id := order.(items := [])];
      db.orders := db.orders[id := db.orders[id].(items := items.value)];
      var outcome, done := DeductEach(db, order.warehouse, items.value);
      if outcome.Fail? {
        assert FirstShortItem(RestoreItems(stock0, order.warehouse, order.items), order.warehouse, items.value, done);
        // The transaction rolls back.
        db.stock, db.movements, db.orders := stock0, log0, orders0;
        return outcome;
      }
      assert items.value[..done] == items.value;
    }
    r := Pass;
  }

  /** `deductStockForOrder`: deducts every item of the order, without a
      transaction of its own. */
  method DeductStockForOrder(db: Database, id: OrderId) returns (r: Outcome, ghost done: nat)
    requires id in db.orders
    modifies db`stock, db`movements
    ensures var o := db.orders[id];
      && done <= |o.items|
      && DeductItems(old(db.stock), o.warehouse, o.items[..done]).Some?
      && db.stock == DeductItems(old(db.stock), o.warehouse, o.items[..done]).value.stock
      && db.movements == old(db.movements) + DeductItems(old(db.stock), o.warehouse, o.items[..done]).value.log
      && (r.Pass? <==> DeductItems(old(db.stock), o.warehouse, o.items).Some?)
      && (r.Pass? ==> done == |o.items|)
      && (r.Fail? ==>
            && done < |o.items|
            && FirstShortItem(old(db.stock), o.warehouse, o.items, done)
            && r.error == InsufficientStock(o.items[done].product))
  {
    var order := db.orders[id];
    r, done := DeductEach(db, order.warehouse, order.items);
  }

  /** `changeStatus`: "active" restores the order's items (no movement);
      "completed" and "canceled" touch no stock; anything else throws before
      any change. The status is then stored. There is no transaction. */
  method ChangeStatus(db: Database, id: OrderId, status: string) returns (r: Outcome)
    requires id in db.orders
    modifies db`stock, db`orders
    ensures StatusOf(status).None? ==>
      r == Fail(InvalidStatus) && db.stock == old(db.stock) && db.orders == old(db.orders)
    ensures StatusOf(status).Some? ==>
      var o := old(db.orders)[id];
      && r == Pass
      && db.orders == old(db.orders)[id := o.(status := StatusOf(status).value)]
      && db.stock == (if status == "active" then RestoreItems(old(db.stock), o.warehouse, o.items) else old(db.stock))
  {
    var order := db.orders[id];
    var s: Status;
    if status == "active" {
      RestoreStock(db, order.warehouse, order.items);
      s := Active;
    } else if status == "completed" || status == "canceled" {
      if order.status == Canceled && status == "active" {
        // The re-deduction of a reactivated order; the outer test already
        // excludes "active", so the verifier shows this branch is dead.
        assert false;
      }
      s := if status == "completed" then Completed else Canceled;
    } else {
      return Fail(InvalidStatus);
    }
    db.orders := db.orders[id := order.(status := s)];
    r := Pass;
  }

  /** `processOrderMovements`: the same check, log and decrement per item at
      the order's warehouse, with no enclosing transaction, so a failure at
      item `done` keeps the deductions of the items before it. */
  method ProcessOrderMovements(db: Database, id: OrderId, items: seq<Item>) returns (r: Outcome, ghost done: nat)
    requires id in db.orders
    modifies db`stock, db`movements
    ensures var w := db.orders[id].warehouse;
      && done <= |items|
      && DeductItems(old(db.stock), w, items[..done]).Some?
      && db.stock == DeductItems(old(db.stock), w, items[..done]).value.stock
      && db.movements == old(db.movements) + DeductItems(old(db.stock), w, items[..done]).value.log
      && (r.Pass? <==> DeductItems(old(db.stock), w, items).Some?)
      && (r.Pass? ==> done == |items|)
      && (r.Fail? ==>
            && done < |items|
            && FirstShortItem(old(db.stock), w, items, done)
            && r.error == InsufficientStock(items[done].product))
  {
    r, done := DeductEach(db, db.orders[id].warehouse, items);
  }
}
