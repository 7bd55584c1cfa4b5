/** The life of a booking: every handler that creates, pays, lapses, resumes,
    moves, cancels or reinstates one, as a function from the whole state to the
    whole state. A refused request rolls the database back and leaves only what
    already happened at the payment provider. */
module Lifecycle {
  import opened Model
  import opened Ledgers
  import opened Settlement
  import opened Credit
  import opened Books
  import opened Zones
  import opened OpeningHours
  import opened OpenWindow

  // ---- settings ------------------------------------------------------------------

  const HOLD_LIFETIME: int := HOUR / 4
  const BOOKING_WINDOW: int := 30 * DAY
  const MAX_BOOKING_LENGTH: int := DAY
  const CANCELLATION_NOTICE: int := DAY

  // ---- state -----------------------------------------------------------------------

  /** A Checkout Session at the provider: payable, no longer payable, or paid. */
  datatype SessionState = Open | Closed | Paid

  datatype Session = Session(booking: BookingId, state: SessionState)

  datatype Block = Block(room: RoomId, start: int, end: int)

  /** `closed` are the series that were cancelled. */
  datatype State = State(
    ledger: Ledger,
    bookings: BookingTable,
    sessions: map<SessionId, Session>,
    blocks: set<Block>,
    closed: set<SeriesId>)

  /** Rooms' opening rules and the clock each is read on. */
  datatype Calendar = Calendar(zones: map<RoomId, Zone>, rules: map<RoomId, seq<Rule>>)

  function ZoneOf(cal: Calendar, room: RoomId): Zone {
    if room in cal.zones then cal.zones[room] else Fixed(0)
  }

  function RulesOf(cal: Calendar, room: RoomId): seq<Rule> {
    if room in cal.rules then cal.rules[room] else []
  }

  ghost predicate IsOpen(cal: Calendar, room: RoomId, start: int, end: int) {
    WithinOpenHours(RulesOf(cal, room), ZoneOf(cal, room), start, end)
  }

  datatype Refusal =
    | NotFound | NotYours | EmptyInterval | InThePast | TooFarAhead | TooLong | ClosedHours
    | SlotTaken | NotEnoughHours | LostRace | ProviderDown | NothingToPay | SeriesOccurrence | AlreadyPaid
    | AlreadyClosed | HoldsNoSlot | TooLate | CreditTooLarge | CreditWasSpent

  /** `Ignored` answers an event that concerns nothing here any more. */
  datatype Reply = Done | Ignored | Refused(why: Refusal)

  datatype Result = Result(state: State, reply: Reply)

  // ---- lapsed holds -------------------------------------------------------------------

  /** Whether the row blocks its slot at `now`. */
  predicate HoldsSlot(bk: Booking, now: int) {
    bk.status == Confirmed
    || (bk.status == Pending && (bk.holdExpires == None || bk.holdExpires.value > now))
  }

  predicate Lapsed(bk: Booking, now: int) {
    bk.status == Pending && bk.holdExpires.Some? && bk.holdExpires.value <= now
  }

  /** Which rows a reconciliation looks at. */
  datatype Scope = RoomWindow(room: RoomId, start: int, end: int) | OfUser(user: UserId) | Everywhere

  predicate InScope(scope: Scope, bk: Booking) {
    match scope
    case RoomWindow(room, start, end) => bk.room == room && Overlap(bk.start, bk.end, start, end)
    case OfUser(user) => bk.user == user
    case Everywhere => true
  }

  function LapsedIn(bookings: BookingTable, scope: Scope, now: int): set<BookingId> {
    set b | b in bookings && Lapsed(bookings[b], now) && InScope(scope, bookings[b])
  }

  function Expire(bookings: BookingTable, lapsed: set<BookingId>): BookingTable {
    map b | b in bookings :: if b in lapsed then bookings[b].(status := Expired) else bookings[b]
  }

  /** Bookings in `lapsed` stop holding their slot and their hours. */
  ghost function ExpireAll(s: State, lapsed: set<BookingId>): State {
    s.(bookings := Expire(s.bookings, lapsed), ledger := Released(s.ledger, lapsed))
  }

  ghost function Reconciled(s: State, scope: Scope, now: int): State {
    ExpireAll(s, LapsedIn(s.bookings, scope, now))
  }

  // ---- conflicts -------------------------------------------------------------------------

  predicate BookedOver(bookings: BookingTable, room: RoomId, start: int, end: int, except: Option<BookingId>, now: int) {
    exists b | b in bookings ::
      && Some(b) != except && bookings[b].room == room
      && HoldsSlot(bookings[b], now) && Overlap(bookings[b].start, bookings[b].end, start, end)
  }

  predicate BlockedOver(blocks: set<Block>, room: RoomId, start: int, end: int) {
    exists k | k in blocks :: k.room == room && Overlap(k.start, k.end, start, end)
  }

  predicate Conflict(s: State, room: RoomId, start: int, end: int, except: Option<BookingId>, now: int) {
    BookedOver(s.bookings, room, start, end, except, now) || BlockedOver(s.blocks, room, start, end)
  }

  /** The exclusion constraint, for the row `bk` written as `b`: it counts every
      pending and confirmed row, whatever the time. */
  predicate Excluded(bookings: BookingTable, b: BookingId, bk: Booking) {
    Occupies(bk.status)
    && exists c | c in bookings ::
         && c != b && bookings[c].room == bk.room && Occupies(bookings[c].status)
         && Overlap(bookings[c].start, bookings[c].end, bk.start, bk.end)
  }

  // ---- creating ----------------------------------------------------------------------------

  datatype Request = Request(user: UserId, org: OrgId, room: RoomId, start: int, end: int, payment: PaymentMethod)

  /** Why the requested time is refused before conflicts are looked at, if it is. */
  ghost function TimeRefusal(cal: Calendar, room: RoomId, start: int, end: int, now: int): Option<Refusal> {
    if end <= start then Some(EmptyInterval)
    else if start < now then Some(InThePast)
    else if start > now + BOOKING_WINDOW then Some(TooFarAhead)
    else if end - start > MAX_BOOKING_LENGTH then Some(TooLong)
    else if !IsOpen(cal, room, start, end) then Some(ClosedHours)
    else None
  }

  /** Length of a whole number of hours, in hundredths. */
  function WholeHours(start: int, end: int): int {
    (end - start) / HOUR * ONE_HOUR
  }

  /** How a booking is paid, from what the bank covered of it. */
  function MethodFor(share: int, duration: int): PaymentMethod {
    if share == duration then Package else if share == 0 then Hourly else Mixed
  }

  /** The row a request becomes: confirmed at once if the bank covers it, else
      an unpaid hold on the slot for the money part. */
  function NewBooking(req: Request, share: int, rate: int, session: SessionId, now: int): Booking
    requires rate >= 0 && req.start < req.end && 0 <= share <= WholeHours(req.start, req.end)
  {
    var duration := WholeHours(req.start, req.end);
    var paid := req.payment != Hourly && share == duration;
    Booking(req.org, req.room, req.user, req.start, req.end, duration,
            AmountFor(if paid then duration else duration - share, rate), share, None,
            if paid then Confirmed else Pending,
            if req.payment == Hourly then Hourly else MethodFor(share, duration),
            if paid then None else Some(session),
            if paid then None else Some(now + HOLD_LIFETIME),
            None)
  }

  /** What a request draws from the bank it finds. */
  function RequestDraws(purchases: PurchaseTable, req: Request, now: int): seq<Draw> {
    if req.payment == Hourly then []
    else ShareDraws(purchases, req.user, req.org, WholeHours(req.start, req.end), now, None)
  }

  /** The state create_booking judges conflicts in, and the one it draws hours in. */
  ghost function BeforeCreate(s: State, req: Request, now: int): State {
    var swept := Reconciled(s, RoomWindow(req.room, req.start, req.end), now);
    if req.payment == Hourly then swept else Reconciled(swept, OfUser(req.user), now)
  }

  ghost function Create(s: State, cal: Calendar, req: Request, id: BookingId, session: SessionId, now: int, rate: int,
                        providerUp: bool): Result
    requires id !in s.bookings && session !in s.sessions && rate >= 0
  {
    var refusal := TimeRefusal(cal, req.room, req.start, req.end, now);
    if refusal.Some? then Result(s, Refused(refusal.value))
    else if Conflict(Reconciled(s, RoomWindow(req.room, req.start, req.end), now), req.room, req.start, req.end, None, now)
    then Result(s, Refused(SlotTaken))
    else
      var before := BeforeCreate(s, req, now);
      ShareDrawsFit(before.ledger.purchases, req.user, req.org, WholeHours(req.start, req.end), now, None);
      var draws := RequestDraws(before.ledger.purchases, req, now);
      var share := TotalDrawn(draws);
      if req.payment == Package && share < WholeHours(req.start, req.end) then Result(s, Refused(NotEnoughHours))
      else
        var bk := NewBooking(req, share, rate, session, now);
        if Excluded(before.bookings, id, bk) then Result(s, Refused(LostRace))
        else if bk.session.Some? && !providerUp then Result(s, Refused(ProviderDown))
        else
          Result(
            before.(ledger := Drawn(before.ledger, id, draws),
                    bookings := before.bookings[id := bk],
                    sessions := if bk.session.Some? then before.sessions[session := Session(id, Open)] else before.sessions),
            Done)
  }

  // ---- paying ------------------------------------------------------------------------------

  /** The customer pays an open session. */
  function Pay(s: State, session: SessionId): State {
    if session in s.sessions && s.sessions[session].state == Open
    then s.(sessions := s.sessions[session := s.sessions[session].(state := Paid)]) else s
  }

  function Close(sessions: map<SessionId, Session>, session: SessionId): map<SessionId, Session> {
    if session in sessions && sessions[session].state == Open
    then sessions[session := sessions[session].(state := Closed)] else sessions
  }

  /** The provider lets an open session run out. */
  function RunOut(s: State, session: SessionId): State {
    s.(sessions := Close(s.sessions, session))
  }

  /** A checkout nobody has paid yet: a hold with its deadline, lapsed, or let go. */
  predicate UnpaidHold(bk: Booking) {
    (bk.holdExpires.Some? || bk.status == Expired)
    && (bk.status == Pending || bk.status == Expired || bk.status == Cancelled)
  }

  function Received(bk: Booking, status: Status, now: int): Booking {
    bk.(status := status, holdExpires := None, paidAt := if bk.paidAt.Some? then bk.paidAt else Some(now))
  }

  /** The row can be `confirmed` again: slot free, hours back, constraint content. */
  ghost function LateConfirmation(s: State, b: BookingId, now: int): Option<State>
    requires b in s.bookings
  {
    var bk := s.bookings[b];
    var settled := SettledStatus(s.ledger, b, bk, bk.status, Confirmed, now);
    var confirmed := Received(bk, Confirmed, now);
    if Conflict(s, bk.room, bk.start, bk.end, Some(b), now) || settled.None? || Excluded(s.bookings, b, confirmed)
    then None
    else Some(s.(ledger := settled.value, bookings := s.bookings[b := confirmed]))
  }

  ghost function Unfulfilled(s: State, b: BookingId, now: int): State
    requires b in s.bookings
  {
    var bk := s.bookings[b];
    var settled := SettledStatus(s.ledger, b, bk, bk.status, PaidUnfulfilled, now);
    s.(ledger := if settled.Some? then settled.value else s.ledger,
       bookings := s.bookings[b := Received(bk, PaidUnfulfilled, now)])
  }

  predicate PaidInTime(bk: Booking, now: int) {
    bk.status == Pending && !(bk.holdExpires.Some? && bk.holdExpires.value <= now)
  }

  /** `checkout.session.completed` for a session. */
  ghost function CheckoutCompleted(s: State, session: SessionId, now: int): Result {
    if session !in s.sessions || s.sessions[session].state != Paid then Result(s, Ignored)
    else
      var b := s.sessions[session].booking;
      if b !in s.bookings || s.bookings[b].session != Some(session) || !UnpaidHold(s.bookings[b]) then Result(s, Ignored)
      else
        var bk := s.bookings[b];
        if PaidInTime(bk, now) then Result(s.(bookings := s.bookings[b := Received(bk, Confirmed, now)]), Done)
        else
          var swept := Reconciled(s, RoomWindow(bk.room, bk.start, bk.end), now);
          var late := LateConfirmation(swept, b, now);
          Result(if late.Some? then late.value else Unfulfilled(swept, b, now), Done)
  }

  /** Unpaid holds a session is the current one of. */
  function HoldsWith(bookings: BookingTable, session: SessionId): set<BookingId> {
    set b | b in bookings && bookings[b].session == Some(session)
            && bookings[b].status == Pending && bookings[b].holdExpires.Some?
  }

  /** The hold fast-forwarded to the state a lapsed one reaches. */
  ghost function Abandoned(s: State, b: BookingId, now: int): State
    requires b in s.bookings
  {
    var bk := s.bookings[b];
    var settled := SettledStatus(s.ledger, b, bk, bk.status, Expired, now);
    s.(ledger := if settled.Some? then settled.value else s.ledger,
       bookings := s.bookings[b := bk.(status := Expired, holdExpires := Some(now))])
  }

  /** `checkout.session.expired`, or the customer backing out of the checkout page. */
  ghost function LetGo(s: State, session: SessionId, now: int): Result {
    if HoldsWith(s.bookings, session) == {} then Result(s, Ignored)
    else
      var b :| b in HoldsWith(s.bookings, session);
      Result(Abandoned(s, b, now), Done)
  }

  // ---- paying again -------------------------------------------------------------------------

  /** Which calls to the provider fail during one request. */
  datatype Faults = Faults(lookup: bool, close: bool, open: bool)

  predicate LiveHold(bk: Booking, now: int) {
    bk.status == Pending && (bk.holdExpires == None || bk.holdExpires.value > now)
  }

  function SessionOf(s: State, bk: Booking): Option<SessionState> {
    if bk.session.Some? && bk.session.value in s.sessions then Some(s.sessions[bk.session.value].state) else None
  }

  function ResumeRefusal(s: State, b: BookingId, user: UserId, now: int): Option<Refusal> {
    if b !in s.bookings then Some(NotFound)
    else
      var bk := s.bookings[b];
      if bk.user != user then Some(NotYours)
      else if (bk.payment != Hourly && bk.payment != Mixed) || (bk.status != Pending && bk.status != Expired)
      then Some(NothingToPay)
      else if bk.series.Some? then Some(SeriesOccurrence)
      else if bk.start < now then Some(InThePast)
      else None
  }

  /** The last part of a resume: hold the slot and the hours again, and open a
      fresh session for the same row. */
  ghost function Reopened(rolledBack: State, s: State, b: BookingId, session: SessionId, now: int, openFails: bool): Result
    requires b in s.bookings
  {
    var bk := s.bookings[b];
    var settled := SettledStatus(s.ledger, b, bk, bk.status, Pending, now);
    var held := bk.(status := Pending, holdExpires := Some(now + HOLD_LIFETIME));
    if settled.None? then Result(rolledBack, Refused(NotEnoughHours))
    else if Excluded(s.bookings, b, held) then Result(rolledBack, Refused(LostRace))
    else if openFails then Result(rolledBack, Refused(ProviderDown))
    else
      Result(
        State(settled.value, s.bookings[b := held.(session := Some(session))],
              rolledBack.sessions[session := Session(b, Open)], s.blocks, s.closed),
        Done)
  }

  ghost function Resume(s: State, b: BookingId, user: UserId, session: SessionId, now: int, faults: Faults): Result
    requires session !in s.sessions
  {
    var refusal := ResumeRefusal(s, b, user, now);
    if refusal.Some? then Result(s, Refused(refusal.value))
    else
      var bk := s.bookings[b];
      var live := LiveHold(bk, now);
      var swept := if live then s else Reconciled(s, RoomWindow(bk.room, bk.start, bk.end), now);
      if !live && Conflict(swept, bk.room, bk.start, bk.end, Some(b), now) then Result(s, Refused(SlotTaken))
      else if live && bk.session.Some? && faults.lookup then Result(s, Refused(ProviderDown))
      else if live && SessionOf(s, bk) == Some(Paid) then Result(s, Refused(AlreadyPaid))
      else if live && SessionOf(s, bk) == Some(Open) then Result(s, Done)
      else if bk.session.Some? && faults.close then Result(s, Refused(ProviderDown))
      else if SessionOf(s, bk) == Some(Paid) then Result(s, Refused(AlreadyPaid))
      else
        var closed := if bk.session.Some? then s.(sessions := Close(s.sessions, bk.session.value)) else s;
        Reopened(closed, swept, b, session, now, faults.open)
  }

  // ---- cancelling and reinstating -----------------------------------------------------------------

  function CancelRefusal(s: State, b: BookingId, user: UserId, now: int): Option<Refusal> {
    if b !in s.bookings then Some(NotFound)
    else
      var bk := s.bookings[b];
      if bk.user != user then Some(NotYours)
      else if bk.status == Cancelled || bk.status == Completed then Some(AlreadyClosed)
      else if bk.status == Expired || bk.status == PaidUnfulfilled then Some(HoldsNoSlot)
      else if bk.status == Pending && bk.holdExpires.Some? then None
      else if bk.start - now < CANCELLATION_NOTICE then Some(TooLate)
      else None
  }

  /** The cancellation itself: hours back to their purchases, money back as a credit. */
  ghost function ApplyCancellation(s: State, b: BookingId, now: int, rate: int, newId: PurchaseId): Result
    requires b in s.bookings
  {
    var bk := s.bookings[b];
    var settled := SettledStatus(s.ledger, b, bk, bk.status, Cancelled, now);
    var ledger := if settled.Some? then settled.value else s.ledger;
    var credit := CreditFor(ledger.purchases, b, bk, bk.status, rate, now, newId);
    if credit.TooLarge? then Result(s, Refused(CreditTooLarge))
    else
      Result(
        s.(ledger := if credit.CreditRow? then ledger.(purchases := ledger.purchases[credit.id := credit.row]) else ledger,
           bookings := s.bookings[b := bk.(status := Cancelled)]),
        Done)
  }

  ghost function Cancel(s: State, b: BookingId, user: UserId, now: int, rate: int, newId: PurchaseId): Result {
    var refusal := CancelRefusal(s, b, user, now);
    if refusal.Some? then Result(s, Refused(refusal.value)) else ApplyCancellation(s, b, now, rate, newId)
  }

  // ---- the operator's edits --------------------------------------------------------------------------

  /** The row once an operator has set its status: only an unpaid checkout hold
      keeps a deadline, a fresh one unless it was pending all along. */
  function EditedTo(bk: Booking, next: Status, now: int): Booking {
    bk.(status := next,
        holdExpires :=
          if next != Pending || (bk.payment != Hourly && bk.payment != Mixed) || bk.series.Some? then None
          else if bk.status == Pending then bk.holdExpires
          else Some(now + HOLD_LIFETIME))
  }

  /** The booking's credit taken out of the bank, if there is one to take. */
  ghost function CreditReversed(l: Ledger, b: BookingId): Ledger {
    var reversal := ReversalOf(l.purchases, b);
    if reversal.Reverse? && reversal.id in l.purchases
    then l.(purchases := l.purchases[reversal.id := Reversed(l.purchases[reversal.id])]) else l
  }

  /** The operator sets a booking's status, whatever it was: the slot is taken
      again when it enters one, the hours follow, a cancelled booking's credit
      goes back when it holds hours again, and a cancellation leaves one unless
      the operator says otherwise. */
  ghost function EditStatus(s: State, b: BookingId, next: Status, credited: bool, rate: int, now: int, newId: PurchaseId)
    : Result
  {
    if b !in s.bookings then Result(s, Refused(NotFound))
    else
      var bk := s.bookings[b];
      var entering := Occupies(next) && !Occupies(bk.status);
      var swept := if entering then Reconciled(s, RoomWindow(bk.room, bk.start, bk.end), now) else s;
      if entering && Conflict(swept, bk.room, bk.start, bk.end, Some(b), now) then Result(s, Refused(SlotTaken))
      else
        var settled := SettledStatus(swept.ledger, b, bk, bk.status, next, now);
        if settled.None? then Result(s, Refused(NotEnoughHours))
        else
          var takesBack := bk.status == Cancelled && HoldsHours(next);
          if takesBack && ReversalOf(settled.value.purchases, b).AlreadySpent? then Result(s, Refused(CreditWasSpent))
          else if Excluded(swept.bookings, b, EditedTo(bk, next, now)) then Result(s, Refused(LostRace))
          else
            var l := if takesBack then CreditReversed(settled.value, b) else settled.value;
            var credit := if credited && next == Cancelled && bk.status != Cancelled
                          then CreditFor(l.purchases, b, bk, bk.status, rate, now, newId) else NoCredit;
            if credit.TooLarge? then Result(s, Refused(CreditTooLarge))
            else
              Result(
                swept.(ledger := if credit.CreditRow? then l.(purchases := l.purchases[credit.id := credit.row]) else l,
                       bookings := swept.bookings[b := EditedTo(bk, next, now)]),
                Done)
  }

  /** A booking that rests cancelled confirmed again. */
  ghost function Reinstate(s: State, b: BookingId, now: int): Result {
    if b !in s.bookings || !Resting(s.bookings[b]) then Result(s, Ignored)
    else EditStatus(s, b, Confirmed, true, 0, now, 0)
  }

  /** The statuses in which a payment that arrives is still looked for. */
  predicate AwaitsPayment(status: Status) {
    status == Pending || status == Expired
  }

  /** The edit takes a row with a checkout across the line between paid and
      unpaid: money due is no longer looked for, or money received is again. */
  predicate Crosses(bk: Booking, next: Status) {
    bk.session.Some? && bk.paidAt.None? != AwaitsPayment(next)
  }

  /** The edit leaves a credit in circulation for a booking that no longer rests. */
  predicate StrandsCredit(purchases: PurchaseTable, b: BookingId, next: Status) {
    (next == Expired || next == PaidUnfulfilled)
    && exists p | p in CreditsOf(purchases, b) :: !WrittenOff(purchases[p])
  }

  // ---- moving --------------------------------------------------------------------------------------

  ghost function MoveRefusal(s: State, cal: Calendar, b: BookingId, room: RoomId, start: int, end: int, now: int)
    : Option<Refusal>
  {
    if b !in s.bookings then Some(NotFound)
    else if end <= start then Some(EmptyInterval)
    else if start < Min(now, s.bookings[b].start) || end <= now then Some(InThePast)
    else if end - start > MAX_BOOKING_LENGTH then Some(TooLong)
    else if !IsOpen(cal, room, start, end) then Some(ClosedHours)
    else None
  }

  /** The operator moves a booking to another time or room; its pack share
      follows the new length. */
  ghost function MoveTo(s: State, cal: Calendar, b: BookingId, room: RoomId, start: int, end: int, now: int): Result
    requires forall k | k in s.ledger.debits :: k.purchase in s.ledger.purchases
  {
    var refusal := MoveRefusal(s, cal, b, room, start, end, now);
    if refusal.Some? then Result(s, Refused(refusal.value))
    else
      var swept := if Occupies(s.bookings[b].status) then Reconciled(s, RoomWindow(room, start, end), now) else s;
      if Occupies(s.bookings[b].status) && Conflict(swept, room, start, end, Some(b), now)
      then Result(s, Refused(SlotTaken))
      else
        var bk := swept.bookings[b];
        var move := SettledMove(swept.ledger, b, bk, WholeHours(start, end), now);
        var moved := EditedTo(bk, bk.status, now).(room := room, start := start, end := end,
                                                   duration := WholeHours(start, end), share := move.share);
        if Excluded(swept.bookings, b, moved) then Result(s, Refused(LostRace))
        else Result(swept.(ledger := move.ledger, bookings := swept.bookings[b := moved]), Done)
  }

  // ---- purchases ------------------------------------------------------------------------------------

  /** A pack is bought (awaiting payment) or granted (spendable at once). */
  function AddPurchase(s: State, p: PurchaseId, user: UserId, org: OrgId, hours: int, expires: int, paid: bool): State
    requires p !in s.ledger.purchases && hours >= 0
  {
    var row := Purchase(user, org, hours, 0, hours, if paid then Spendable else AwaitingPayment, expires, None);
    s.(ledger := s.ledger.(purchases := s.ledger.purchases[p := row]))
  }

  /** A pack purchase awaiting payment is paid, or given up. */
  function SettlePurchase(s: State, p: PurchaseId, paid: bool): State {
    if p in s.ledger.purchases && s.ledger.purchases[p].status == AwaitingPayment
    then s.(ledger := s.ledger.(purchases :=
              s.ledger.purchases[p := s.ledger.purchases[p].(status := if paid then Spendable else Withdrawn)]))
    else s
  }
}
