/** The rows the ledger and the booking handlers work on.

    Hours are integers in hundredths of an hour (the columns' scale), money is
    in cents, and instants and wall-clock readings are in microseconds. */
module Model {

  datatype Option<+T> = None | Some(value: T)

  type UserId = nat
  type OrgId = nat
  type RoomId = nat
  type BookingId = nat
  type PurchaseId = nat
  type SessionId = nat
  type SeriesId = nat

  const HOUR: int := 3_600_000_000
  const DAY: int := 24 * HOUR
  /** One hour of a booking or a pack, in hundredths. */
  const ONE_HOUR: int := 100

  // ---- packs ------------------------------------------------------------

  datatype PurchaseStatus = AwaitingPayment | Spendable | Withdrawn

  /** One purchase of prepaid hours, or the credit a cancelled booking left. */
  datatype Purchase = Purchase(
    user: UserId,
    org: OrgId,
    total: int,
    used: int,
    remaining: int,
    status: PurchaseStatus,
    expires: int,
    source: Option<BookingId>)

  /** A debit row is identified by the booking and the purchase it joins. */
  datatype DebitKey = DebitKey(booking: BookingId, purchase: PurchaseId)

  /** What one step of the walk takes from one purchase. */
  datatype Draw = Draw(purchase: PurchaseId, hours: int)

  // ---- bookings ---------------------------------------------------------

  datatype Status = Pending | Confirmed | Cancelled | Completed | Expired | PaidUnfulfilled

  datatype PaymentMethod = Hourly | Package | Mixed | Manual

  datatype Booking = Booking(
    org: OrgId,
    room: RoomId,
    user: UserId,
    start: int,
    end: int,
    duration: int,
    amount: int,
    share: int,
    paidAt: Option<int>,
    status: Status,
    payment: PaymentMethod,
    session: Option<SessionId>,
    holdExpires: Option<int>,
    series: Option<SeriesId>)

  /** A booking has its pack share debited exactly in these statuses. */
  predicate HoldsHours(status: Status) {
    status == Pending || status == Confirmed || status == Completed
  }

  /** The statuses the exclusion constraint counts. */
  predicate Occupies(status: Status) {
    status == Pending || status == Confirmed
  }

  predicate Overlap(start: int, end: int, start': int, end': int) {
    start < end' && end > start'
  }

  function Min(a: int, b: int): int {
    if a <= b then a else b
  }

  function Max(a: int, b: int): int {
    if a <= b then b else a
  }
}
