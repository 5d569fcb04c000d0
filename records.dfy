/**
  The rows the courier report exporter reads from the database: the
  `couriers` table (id and deletion flag) and the `courier_exel` view
  (one `CourierXLS` row per session/order), with the enums they carry.
 */
module Records {

  /** Rust's `i64`. */
  newtype Int64 = x: int | -0x8000_0000_0000_0000 <= x < 0x8000_0000_0000_0000

  /** chrono's `NaiveDate`, `NaiveTime` and `NaiveDateTime`, kept opaque. */
  type Date(==)
  type Time(==)
  type DateTime(==)

  /** The `to_string()` of each chrono type; its internals are not modelled. */
  datatype Formatter = Formatter(
    date: Date -> string,
    time: Time -> string,
    dateTime: DateTime -> string)

  /** The database enum `Orderstatus`. Only three of its variants have a label
      in the report; `Other` stands for every variant the `_` arm catches. */
  datatype OrderStatus = Success | FailureByRestaurant | FailureByCourier | Other

  /** The database enum `Paymethod`. */
  datatype PayMethod = Cash | Card | AlreadyPayed

  /** One row of the `courier_exel` view. */
  datatype CourierXLS = CourierXLS(
    courierId: Int64,
    sessionDay: Date,
    startTime: Time,
    endRealTime: Option<Time>,
    orderId: Int64,
    takeDatetime: DateTime,
    orderStatus: OrderStatus,
    details: string,
    isBigOrder: bool,
    cookingTime: Time,
    deliveryDatetime: DateTime,
    courierSalary: Int64,
    orderPrice: Int64,
    deliveryAddress: string,
    clientComment: string,
    payMethod: PayMethod)

  /** The two columns of the `couriers` table the exporter looks at. */
  datatype Courier = Courier(id: Int64, isDeleted: bool)

  datatype Option<+T> = None | Some(value: T)
}
