/** Stock corrections outside orders: `adjustStock`, `recordMovement` and
    `getStock`. */
module StockService {
  import opened Model
  import opened Ledger

  /** The adjustment types `adjustStock` accepts. */
  function AdjustmentTypeOf(s: string): (r: Option<MovementType>)
    ensures r == Some(Increase) <==> s == "increase"
    ensures r == Some(Decrease) <==> s == "decrease"
    ensures r.None? <==> s != "increase" && s != "decrease"
  {
    if s == "increase" then Some(Increase)
    else if s == "decrease" then Some(Decrease)
    else None
  }

  /** The stock table after a committed adjustment of `k` by `q`, or `None`
      when the transaction rolls back. The row is first created at 0 when
      absent; the insufficiency check of a decrease compares against the
      in-memory attribute, which is null for a row just created. */
  function Adjusted(stock: map<Key, int>, k: Key, q: int, t: MovementType): (r: Option<map<Key, int>>)
  {
    if t == Decrease && Insufficient(Lookup(stock, k), q) then None
    else if t == Increase then Some(stock[k := Count(stock, k) + q])
    else Some(stock[k := Count(stock, k) - q])
  }

  /** The movement `recordMovement` writes: the unsigned quantity, the type, and
      no previous stock. */
  function AdjustmentMovement(p: ProductId, w: WarehouseId, q: int, t: MovementType): (m: Movement)
  {
    Movement(p, w, q, t, None)
  }

  /** An adjustment touches the row of `k` only, moves its count by exactly
      `q` in the direction of `t`, and fails only for an insufficient
      decrease. */
  lemma AdjustedChangesOnlyKey(stock: map<Key, int>, k: Key, q: int, t: MovementType)
    ensures Adjusted(stock, k, q, t).None? <==> t == Decrease && Insufficient(Lookup(stock, k), q)
    ensures Adjusted(stock, k, q, t).Some? ==>
      var s' := Adjusted(stock, k, q, t).value;
      && s'.Keys == stock.Keys + {k}
      && s'[k] == (if t == Increase then Count(stock, k) + q else Count(stock, k) - q)
      && forall k' :: k' in stock && k' != k ==> s'[k'] == stock[k']
  {
  }

  /** A committed decrease, and an increase by a non-negative quantity, keep
      every count non-negative. */
  lemma AdjustedKeepsNonNegative(stock: map<Key, int>, k: Key, q: int, t: MovementType)
    requires NonNegative(stock)
    requires t == Increase ==> q >= 0
    requires Adjusted(stock, k, q, t).Some?
    ensures NonNegative(Adjusted(stock, k, q, t).value)
  {
    var s' := Adjusted(stock, k, q, t).value;
    if t == Decrease {
      SufficientKeepsNonNegative(stock, k, q);
    }
    forall k' | k' in s' ensures s'[k'] >= 0 {
      if k' != k { assert s'[k'] == stock[k']; }
    }
  }

  /** An increase followed by a decrease of the same quantity commits exactly
      when the row did not hold a negative count, and then gives back the
      original counts (with the row now present). */
  lemma IncreaseThenDecrease(stock: map<Key, int>, k: Key, q: int)
    ensures Adjusted(stock, k, q, Increase).Some?
    ensures var s1 := Adjusted(stock, k, q, Increase).value;
      && (Adjusted(s1, k, q, Decrease).Some? <==> Count(stock, k) >= 0)
      && (Count(stock, k) >= 0 ==> Adjusted(s1, k, q, Decrease).value == stock[k := Count(stock, k)])
  {
    var s1 := Adjusted(stock, k, q, Increase).value;
    assert Lookup(s1, k) == Some(Count(stock, k) + q);
    if Count(stock, k) >= 0 {
      assert s1[k := Count(s1, k) - q] == stock[k := Count(stock, k)];
    }
  }

  /** `recordMovement`: appends one row to the movement log. */
  method RecordMovement(db: Database, p: ProductId, w: WarehouseId, q: int, t: MovementType)
    modifies db`movements
    ensures db.movements == old(db.movements) + [AdjustmentMovement(p, w, q, t)]
  {
    db.movements := db.movements + [AdjustmentMovement(p, w, q, t)];
  }

  /** `adjustStock`: validates the type, then in one transaction first-or-creates
      the row, increments it, or checks and decrements it, and records the
      movement. A failure inside the transaction rolls the row creation back. */
  method AdjustStock(db: Database, p: ProductId, w: WarehouseId, q: int, kind: string) returns (r: Outcome)
    modifies db
    ensures db.orders == old(db.orders) && db.nextOrderId == old(db.nextOrderId)
    ensures AdjustmentTypeOf(kind).None? ==>
      r == Fail(InvalidAdjustmentType) && db.stock == old(db.stock) && db.movements == old(db.movements)
    ensures AdjustmentTypeOf(kind).Some? ==>
      var t := AdjustmentTypeOf(kind).value;
      match Adjusted(old(db.stock), (p, w), q, t)
      case None =>
        r == Fail(NotEnoughStock) && db.stock == old(db.stock) && db.movements == old(db.movements)
      case Some(s') =>
        r == Pass && db.stock == s' && db.movements == old(db.movements) + [AdjustmentMovement(p, w, q, t)]
  {
    if kind != "increase" && kind != "decrease" {
      return Fail(InvalidAdjustmentType);
    }
    var before := db.stock;
    var k := (p, w);
    // The model's `stock` attribute: the stored count, or null for a new row.
    var current := Lookup(db.stock, k);
    if k !in db.stock {
      db.stock := db.stock[k := 0];
    }
    if kind == "increase" {
      db.stock := db.stock[k := db.stock[k] + q];
    } else {
      if Insufficient(current, q) {
        db.stock := before;
        return Fail(NotEnoughStock);
      }
      db.stock := db.stock[k := db.stock[k] - q];
    }
    RecordMovement(db, p, w, q, if kind == "increase" then Increase else Decrease);
    r := Pass;
  }

  /** `getStock`: the stored count, or 0 when there is no row. */
  method GetStock(db: Database, p: ProductId, w: WarehouseId) returns (r: int)
    ensures (p, w) in db.stock ==> r == db.stock[(p, w)]
    ensures (p, w) !in db.stock ==> r == 0
  {
    var k := (p, w);
    if k in db.stock {
      r := db.stock[k];
    } else {
      r := 0;
    }
  }
}
