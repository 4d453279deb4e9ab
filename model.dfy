/** The records of the warehouse database: stock rows, movement rows, orders
    with their items, and the database object that holds the three tables. */
module Model {

  type ProductId = int
  type WarehouseId = int
  type OrderId = nat

  /** A stock row is identified by the pair (product, warehouse). */
  type Key = (ProductId, WarehouseId)

  datatype Option<T> = None | Some(value: T)

  /** The `type` column of a movement. */
  datatype MovementType = Increase | Decrease

  /** One row of the movement log. `previousStock` is the nullable
      `previous_stock` column. */
  datatype Movement = Movement(
    product: ProductId,
    warehouse: WarehouseId,
    quantity: int,
    kind: MovementType,
    previousStock: Option<int>)

  /** One order item: a product and the requested count. */
  datatype Item = Item(product: ProductId, count: int)

  datatype Status = Active | Completed | Canceled

  datatype Order = Order(
    customer: string,
    warehouse: WarehouseId,
    status: Status,
    items: seq<Item>)

  /** The exceptions the services throw. */
  datatype Error =
    | InvalidAdjustmentType        // adjustStock: type is not increase/decrease
    | NotEnoughStock               // adjustStock: decrease beyond the stock
    | InsufficientStock(product: ProductId)  // deductStock / processOrderMovements
    | InvalidStatus                // changeStatus: unknown status

  /** A call that either returns normally or throws. */
  datatype Outcome = Pass | Fail(error: Error)

  /** A call that returns a value or throws. */
  datatype Result<T> = Success(value: T) | Failure(error: Error)

  /** The persistent store shared by both services: the `stocks`,
      `movements` and `orders` (with `order_items`) tables. */
  class Database {
    var stock: map<Key, int>
    var movements: seq<Movement>
    var orders: map<OrderId, Order>
    /** The next auto-increment id of the `orders` table. */
    var nextOrderId: OrderId

    ghost predicate Valid()
      reads this
    {
      forall id :: id in orders ==> id < nextOrderId
    }

    constructor ()
      ensures Valid()
      ensures stock == map[] && movements == [] && orders == map[] && nextOrderId == 1
    {
      stock := map[];
      movements := [];
      orders := map[];
      nextOrderId := 1;
    }
  }
}
