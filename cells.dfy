/**
  The cell values of one data row of the courier report, as pure functions
  of a `CourierXLS` row: the fixed header, money in major units, the
  order-status and pay-method labels and the session-end fallback text.
 */
module Cells {
  import opened Records

  /** A worksheet cell: `write_string`, `write_number` or `write_boolean`.
      A number is the integer value before its `as f64` cast. */
  datatype Cell = Str(text: string) | Num(number: int) | Bool(flag: bool)

  /** Number of columns of the report. */
  const Columns: nat := 14

  /** The header row, column by column. Column 4 says "забрано" (taken)
      although the data rows put the courier's salary there. */
  const HeaderLabels: seq<string> := [
    "день сессии",
    "время начала сессии",
    "время конца сессии",
    "номер заказа",
    "забрано",
    "статус заказа",
    "детали заказа",
    "большой заказ",
    "время готовки",
    "доставлено",
    "стоимость заказа",
    "адрес доставки",
    "комментарий клиента",
    "способ оплаты"
  ]

  /** Text shown in column 2 when the session has no end time yet. */
  const NotEndedText: string := "на момент создания отчета сессия не была закончена"

  const SuccessLabel: string := "успешно доставлено"
  const FailureByRestaurantLabel: string := "отменено по вине ресторана"
  const FailureByCourierLabel: string := "отменено по вине курьера"

  const CashLabel: string := "наличными"
  const CardLabel: string := "картой"
  const AlreadyPayedLabel: string := "оплачено заранее"

  function HeaderCells(): (cs: seq<Cell>)
    ensures |cs| == Columns
    ensures forall c :: 0 <= c < Columns ==> cs[c] == Str(HeaderLabels[c])
  {
    seq(Columns, c requires 0 <= c < Columns => Str(HeaderLabels[c]))
  }

  /** Rust's `i64 / 100`: the quotient truncated toward zero. */
  function Money(minor: Int64): (major: int)
    ensures 0 <= minor ==> 100 * major <= minor as int < 100 * major + 100
    ensures minor < 0 ==> 100 * major - 100 < minor as int <= 100 * major
  {
    if minor >= 0 then minor as int / 100 else -((-(minor as int)) / 100)
  }

  /** The `match` on the order status; `None` where the source panics. */
  function StatusLabel(s: OrderStatus): (r: Option<string>)
    ensures r.Some? <==> !s.Other?
    ensures s == Success ==> r == Some(SuccessLabel)
    ensures s == FailureByRestaurant ==> r == Some(FailureByRestaurantLabel)
    ensures s == FailureByCourier ==> r == Some(FailureByCourierLabel)
  {
    match s
    case Success => Some(SuccessLabel)
    case FailureByRestaurant => Some(FailureByRestaurantLabel)
    case FailureByCourier => Some(FailureByCourierLabel)
    case Other => None
  }

  /** Reads a status label back: the labels identify the status. */
  function StatusOfLabel(text: string): (r: Option<OrderStatus>)
    ensures r.Some? ==> StatusLabel(r.value) == Some(text)
    ensures forall s :: StatusLabel(s) == Some(text) ==> r == Some(s)
  {
    if text == SuccessLabel then Some(Success)
    else if text == FailureByRestaurantLabel then Some(FailureByRestaurant)
    else if text == FailureByCourierLabel then Some(FailureByCourier)
    else None
  }

  /** The `match` on the pay method, total over its three variants. */
  function PayLabel(m: PayMethod): (r: string)
    ensures m == Cash ==> r == CashLabel
    ensures m == Card ==> r == CardLabel
    ensures m == AlreadyPayed ==> r == AlreadyPayedLabel
  {
    match m
    case Cash => CashLabel
    case Card => CardLabel
    case AlreadyPayed => AlreadyPayedLabel
  }

  /** Reads a pay-method label back: the labels identify the method. */
  function PayOfLabel(text: string): (r: Option<PayMethod>)
    ensures r.Some? ==> PayLabel(r.value) == text
    ensures forall m :: PayLabel(m) == text ==> r == Some(m)
  {
    if text == CashLabel then Some(Cash)
    else if text == CardLabel then Some(Card)
    else if text == AlreadyPayedLabel then Some(AlreadyPayed)
    else None
  }

  /** Column 2: the session end time, or the fixed text when there is none. */
  function EndTimeText(t: Option<Time>, fmt: Formatter): (r: string)
    ensures t.Some? ==> r == fmt.time(t.value)
    ensures t.None? ==> r == NotEndedText
  {
    match t
    case Some(v) => fmt.time(v)
    case None => NotEndedText
  }

  /** When no time renders as the fixed text, column 2 shows that text exactly
      for a session that has not ended. */
  lemma EndTimeTextDistinguishes(t: Option<Time>, fmt: Formatter)
    requires forall v :: fmt.time(v) != NotEndedText
    ensures EndTimeText(t, fmt) == NotEndedText <==> t.None?
  {
  }

  /** Columns 0 to 4, written before the status is looked at. */
  function LeadingCells(r: CourierXLS, fmt: Formatter): (cs: seq<Cell>)
    ensures |cs| == 5
    ensures cs[0] == Str(fmt.date(r.sessionDay))
    ensures cs[1] == Str(fmt.time(r.startTime))
    ensures cs[2] == Str(EndTimeText(r.endRealTime, fmt))
    ensures cs[3] == Num(r.orderId as int)
    ensures cs[4] == Num(Money(r.courierSalary))
  {
    [ Str(fmt.date(r.sessionDay)),
      Str(fmt.time(r.startTime)),
      Str(EndTimeText(r.endRealTime, fmt)),
      Num(r.orderId as int),
      Num(Money(r.courierSalary)) ]
  }

  /** Columns 6 to 13, written after the status label. */
  function TrailingCells(r: CourierXLS, fmt: Formatter): (cs: seq<Cell>)
    ensures |cs| == 8
    ensures cs[0] == Str(r.details)
    ensures cs[1] == Bool(r.isBigOrder)
    ensures cs[2] == Str(fmt.time(r.cookingTime))
    ensures cs[3] == Str(fmt.dateTime(r.deliveryDatetime))
    ensures cs[4] == Num(Money(r.orderPrice))
    ensures cs[5] == Str(r.deliveryAddress)
    ensures cs[6] == Str(r.clientComment)
    ensures cs[7] == Str(PayLabel(r.payMethod))
  {
    [ Str(r.details),
      Bool(r.isBigOrder),
      Str(fmt.time(r.cookingTime)),
      Str(fmt.dateTime(r.deliveryDatetime)),
      Num(Money(r.orderPrice)),
      Str(r.deliveryAddress),
      Str(r.clientComment),
      Str(PayLabel(r.payMethod)) ]
  }

  /** The whole row, or `None` when the status has no label (the panic). */
  function RowCells(r: CourierXLS, fmt: Formatter): (cs: Option<seq<Cell>>)
    ensures cs.Some? <==> !r.orderStatus.Other?
    ensures cs.Some? ==> |cs.value| == Columns
  {
    match StatusLabel(r.orderStatus)
    case Some(l) => Some(LeadingCells(r, fmt) + [Str(l)] + TrailingCells(r, fmt))
    case None => None
  }

  /** The cells a row write puts before it finishes or panics. */
  function WrittenCells(r: CourierXLS, fmt: Formatter): (cs: seq<Cell>)
    ensures |cs| == if r.orderStatus.Other? then 5 else Columns
    ensures cs[..5] == LeadingCells(r, fmt)
    ensures !r.orderStatus.Other? ==> cs == RowCells(r, fmt).value
  {
    match RowCells(r, fmt)
    case Some(full) => full
    case None => LeadingCells(r, fmt)
  }

  /** Column by column, what a complete data row holds: string cells except
      for numbers in columns 3, 4 and 10 and a boolean in column 7. */
  lemma RowCellsColumns(r: CourierXLS, fmt: Formatter)
    requires !r.orderStatus.Other?
    ensures var cs := RowCells(r, fmt).value;
      && cs[0] == Str(fmt.date(r.sessionDay))
      && cs[1] == Str(fmt.time(r.startTime))
      && cs[2] == Str(EndTimeText(r.endRealTime, fmt))
      && cs[3] == Num(r.orderId as int)
      && cs[4] == Num(Money(r.courierSalary))
      && cs[5] == Str(StatusLabel(r.orderStatus).value)
      && cs[6] == Str(r.details)
      && cs[7] == Bool(r.isBigOrder)
      && cs[8] == Str(fmt.time(r.cookingTime))
      && cs[9] == Str(fmt.dateTime(r.deliveryDatetime))
      && cs[10] == Num(Money(r.orderPrice))
      && cs[11] == Str(r.deliveryAddress)
      && cs[12] == Str(r.clientComment)
      && cs[13] == Str(PayLabel(r.payMethod))
    ensures forall c :: 0 <= c < Columns ==> (RowCells(r, fmt).value[c].Num? <==> c in {3, 4, 10})
    ensures forall c :: 0 <= c < Columns ==> (RowCells(r, fmt).value[c].Bool? <==> c == 7)
  {
    var cs := RowCells(r, fmt).value;
    assert cs == LeadingCells(r, fmt) + [Str(StatusLabel(r.orderStatus).value)] + TrailingCells(r, fmt);
  }

  /** The pick-up time `takeDatetime` appears in no cell: two rows that
      differ only there produce the same cells. */
  lemma TakeDatetimeNotShown(r: CourierXLS, t: DateTime, fmt: Formatter)
    ensures WrittenCells(r.(takeDatetime := t), fmt) == WrittenCells(r, fmt)
  {
  }

  /** Money differs from floor division (Dafny's `/` for a positive divisor)
      exactly for negative amounts that are not whole major units, and then
      it is one more. */
  lemma MoneyVersusFloor(minor: Int64)
    ensures Money(minor) == minor as int / 100 <==> (minor >= 0 || minor as int % 100 == 0)
    ensures minor < 0 && minor as int % 100 != 0 ==> Money(minor) == minor as int / 100 + 1
  {
  }

  /** Money is odd: a refund shows as minus the same payment. */
  lemma MoneyOdd(minor: Int64)
    requires minor != -0x8000_0000_0000_0000
    ensures Money(-minor) == -Money(minor)
  {
  }
}
