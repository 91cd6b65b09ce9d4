/** The rows a reservation search looks at, and when an SQL condition is true of one. */
module SearchRows {
  import opened BookingStatus
  import opened Calendar
  import opened Collections
  import opened LikePatterns
  import opened SqlText

  datatype PaymentMethod = StripeCheckout | Pokpay | PayAtHotel | Free

  /** The inner query's columns; NULL is None.  Amounts are minor units, `createdAt` is an instant in UTC
      seconds and `zone` the offset of the property's clock at that instant. */
  datatype Row = Row(
    status: Status,
    startsOn: Day,
    endsOn: Day,
    today: Day,
    createdAt: int,
    zone: int,
    source: Option<string>,
    total: int,
    paid: int,
    refunded: int,
    payment: Option<PaymentMethod>,
    attentionOpen: bool,
    firstName: Option<string>,
    lastName: Option<string>,
    email: Option<string>,
    phone: Option<string>,
    externalReference: string,
    orderReference: Option<string>)

  /** PAYMENT_STATE_SQL */
  function PaymentState(row: Row): string {
    if row.refunded > 0 then "refunded"
    else if row.status == PaymentFailed then "failed"
    else if row.total > 0 && row.paid >= row.total then "paid"
    else if row.paid > 0 then "deposit"
    else if row.total == 0 || row.payment == Some(Free) then "none"
    else if row.payment == Some(PayAtHotel) then "pay_at_hotel"
    else "unpaid"
  }

  /** concat_ws(' ', first, last): the parts that are not NULL, joined by a blank. */
  function GuestName(row: Row): string {
    match (row.firstName, row.lastName)
    case (Some(first), Some(last)) => first + " " + last
    case (Some(first), None) => first
    case (None, Some(last)) => last
    case (None, None) => ""
  }

  /** The day on the property's clock on which the booking was made. */
  function CreatedDay(row: Row): Day {
    (row.createdAt + row.zone) / 86400
  }

  function TextOrNull(text: Option<string>): Value {
    if text.Some? then Text(text.value) else Null
  }

  function ColumnOf(row: Row, column: Column): Value {
    match column
    case StatusColumn => Code(row.status)
    case StartsOn => Date(row.startsOn)
    case EndsOn => Date(row.endsOn)
    case Today => Date(row.today)
    case CreatedAt => Moment(row.createdAt)
    case ZoneColumn => Zone(row.zone)
    case Source => TextOrNull(row.source)
    case PaymentStateColumn => Text(PaymentState(row))
    case AttentionOpen => Flag(row.attentionOpen)
    case FirstName => TextOrNull(row.firstName)
    case LastName => TextOrNull(row.lastName)
    case Email => TextOrNull(row.email)
    case Phone => TextOrNull(row.phone)
    case ExternalReference => Text(row.externalReference)
    case OrderReference => TextOrNull(row.orderReference)
  }

  // ---------------------------------------------------------------- evaluation, with NULL as the unknown

  function Both(a: Value, b: Value): Value {
    if a == Flag(false) || b == Flag(false) then Flag(false)
    else if a == Flag(true) && b == Flag(true) then Flag(true)
    else Null
  }

  function Either(a: Value, b: Value): Value {
    if a == Flag(true) || b == Flag(true) then Flag(true)
    else if a == Flag(false) && b == Flag(false) then Flag(false)
    else Null
  }

  function Negated(a: Value): Value {
    if a.Flag? then Flag(!a.yes) else Null
  }

  predicate Ordered(sign: Sign, a: Day, b: Day) {
    match sign
    case Same => a == b
    case AtMost => a <= b
    case AtLeast => a >= b
    case Above => a > b
    case Below => a < b
  }

  /** A comparison with NULL is unknown; only dates are ordered. */
  function Compared(sign: Sign, a: Value, b: Value): Value {
    if a.Null? || b.Null? then Null
    else if sign == Same then Flag(a == b)
    else if a.Date? && b.Date? then Flag(Ordered(sign, a.day, b.day))
    else Null
  }

  /** concat_ws: the parts that are not NULL, joined. */
  function ConcatOf(separator: Value, a: Value, b: Value): Value {
    if !separator.Text? then Null
    else if a.Text? && b.Text? then Text(a.text + separator.text + b.text)
    else if a.Text? then a
    else if b.Text? then b
    else Text("")
  }

  function ToDate(a: Value): Value {
    match a
    case Date(day) => Date(day)
    case Local(seconds) => Date(seconds / 86400)
    case _ => Null
  }

  function Eval(e: Expr, row: Row, params: seq<Value>, fold: char -> string): Value {
    match e
    case Truth => Flag(true)
    case Col(column) => ColumnOf(row, column)
    case Constant(value) => value
    case Param(k) => if 1 <= k <= |params| then params[k - 1] else Null
    case Concat(s, a, b) =>
      ConcatOf(Eval(s, row, params, fold), Eval(a, row, params, fold), Eval(b, row, params, fold))
    case Coalesce(a, b) =>
      var first := Eval(a, row, params, fold);
      if first.Null? then Eval(b, row, params, fold) else first
    case AsDate(a) => ToDate(Eval(a, row, params, fold))
    case AsStatuses(a) => var list := Eval(a, row, params, fold); if list.Codes? then list else Null
    case AtZone(a, z) =>
      var instant, zone := Eval(a, row, params, fold), Eval(z, row, params, fold);
      if instant.Moment? && zone.Zone? then Local(instant.utc + zone.offset) else Null
    case Compare(sign, a, b) => Compared(sign, Eval(a, row, params, fold), Eval(b, row, params, fold))
    case AnyOf(a, b) =>
      var item, list := Eval(a, row, params, fold), Eval(b, row, params, fold);
      if item.Code? && list.Codes? then Flag(item.status in list.statuses) else Null
    case In(a, values) =>
      var item := Eval(a, row, params, fold);
      if item.Null? then Null else Flag(item in values)
    case ILike(a, b) =>
      var text, pattern := Eval(a, row, params, fold), Eval(b, row, params, fold);
      if text.Text? && pattern.Text? then Flag(ILikes(fold, text.text, pattern.text)) else Null
    case IsNull(a) => Flag(Eval(a, row, params, fold).Null?)
    case Not(a) => Negated(Eval(a, row, params, fold))
    case And(a, b) => Both(Eval(a, row, params, fold), Eval(b, row, params, fold))
    case Or(a, b) => Either(Eval(a, row, params, fold), Eval(b, row, params, fold))
  }

  /** WHERE keeps a row when the condition is true of it, and not when it is false or unknown. */
  predicate Holds(e: Expr, row: Row, params: seq<Value>, fold: char -> string) {
    Eval(e, row, params, fold) == Flag(true)
  }
}
