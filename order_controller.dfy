/** The one controller path with logic of its own: storing an order calls
    `createOrder` and then `processOrderMovements` on the same items, so the
    items are deducted twice and the second pass runs outside any
    transaction. */
module OrderController {
  import opened Model
  import opened Ledger
  import opened OrderService

  /** `store`: create the order, then process its movements. A failure of the
      second pass is an exception for the caller, but the order and the first
      pass are already committed. */
  method Store(db: Database, customer: string, w: WarehouseId, items: seq<Item>) returns (r: Result<OrderId>, ghost done: nat)
    requires db.Valid()
    modifies db
    ensures db.Valid()
    ensures DeductItems(old(db.stock), w, items).None? ==>
      && r.Failure?
      && (exists j :: 0 <= j < |items| && FirstShortItem(old(db.stock), w, items, j)
            && r.error == InsufficientStock(items[j].product))
      && db.stock == old(db.stock) && db.movements == old(db.movements) && db.orders == old(db.orders)
      && db.nextOrderId == old(db.nextOrderId)
    ensures DeductItems(old(db.stock), w, items).Some? ==>
      var d1 := DeductItems(old(db.stock), w, items).value;
      var id := old(db.nextOrderId);
      && id !in old(db.orders)
      && db.orders == old(db.orders)[id := Order(customer, w, Active, items)]
      && db.nextOrderId == id + 1
      && done <= |items|
      && DeductItems(d1.stock, w, items[..done]).Some?
      && db.stock == DeductItems(d1.stock, w, items[..done]).value.stock
      && db.movements == old(db.movements) + d1.log + DeductItems(d1.stock, w, items[..done]).value.log
      && (r.Success? <==> DeductItems(d1.stock, w, items).Some?)
      && (r.Success? ==> r.value == id && done == |items|)
      && (r.Failure? ==>
            && done < |items|
            && FirstShortItem(d1.stock, w, items, done)
            && r.error == InsufficientStock(items[done].product))
  {
    done := 0;
    r := CreateOrder(db, customer, w, items);
    if r.Failure? {
      return;
    }
    var outcome;
    outcome, done := ProcessOrderMovements(db, r.value, items);
    if outcome.Fail? {
      r := Failure(outcome.error);
    }
  }

  /** When both passes of `store` succeed, every product at the order's
      warehouse has lost twice its ordered total, and each pass logs one
      decrease movement per item, in item order. */
  lemma StoreDeductsTwice(stock: map<Key, int>, w: WarehouseId, items: seq<Item>)
    requires DeductItems(stock, w, items).Some?
    requires DeductItems(DeductItems(stock, w, items).value.stock, w, items).Some?
    ensures var d1 := DeductItems(stock, w, items).value;
      var d2 := DeductItems(d1.stock, w, items).value;
      && (forall p :: Count(d2.stock, (p, w)) == Count(stock, (p, w)) - 2 * SumFor(items, p))
      && |d1.log| == |items| && |d2.log| == |items|
      && (forall i :: 0 <= i < |items| ==>
            && d1.log[i].product == items[i].product && d2.log[i].product == items[i].product
            && d1.log[i].quantity == -items[i].count && d2.log[i].quantity == -items[i].count
            && d1.log[i].kind == Decrease && d2.log[i].kind == Decrease)
  {
    var d1 := DeductItems(stock, w, items).value;
    DeductItemsEffect(stock, w, items);
    DeductItemsEffect(d1.stock, w, items);
  }

  /** With positive counts, an order that the first pass accepts but that
      takes more than half of some product's stock makes the second pass
      fail: the request errors although the order and its first deduction
      persist. */
  lemma StoreSecondPassFails(stock: map<Key, int>, w: WarehouseId, items: seq<Item>, i: nat)
    requires PositiveCounts(items)
    requires DeductItems(stock, w, items).Some?
    requires i < |items| && Count(stock, (items[i].product, w)) < 2 * SumFor(items, items[i].product)
    ensures DeductItems(DeductItems(stock, w, items).value.stock, w, items).None?
  {
    var d1 := DeductItems(stock, w, items).value;
    DeductItemsEffect(stock, w, items);
    DeductItemsSucceedsIff(d1.stock, w, items);
    assert Count(d1.stock, (items[i].product, w)) < SumFor(items, items[i].product);
  }
}
