/** Series writes on the booking state: all of a series is booked, or none. */
module Series {
  import opened Model
  import opened Ledgers
  import opened Settlement
  import opened Credit
  import opened Books
  import opened Lifecycle
  import opened Invariant
  import opened Preservation
  import opened Recurrence

  // ---- conflicts -------------------------------------------------------------------

  predicate TakenBy(bookings: BookingTable, room: RoomId, slot: Slot, ignored: set<BookingId>, now: int) {
    exists b | b in bookings ::
      && b !in ignored && bookings[b].room == room
      && HoldsSlot(bookings[b], now) && Overlap(bookings[b].start, bookings[b].end, slot.start, slot.end)
  }

  /** Starts of the occurrences that overlap a booking holding its slot. */
  function Clashes(bookings: BookingTable, room: RoomId, slots: seq<Slot>, ignored: set<BookingId>, now: int)
    : (clashes: seq<int>)
    ensures forall t :: t in clashes <==> exists o | o in slots :: o.start == t && TakenBy(bookings, room, o, ignored, now)
    ensures clashes == [] <==> forall o | o in slots :: !TakenBy(bookings, room, o, ignored, now)
  {
    if slots == [] then []
    else
      (if TakenBy(bookings, room, slots[0], ignored, now) then [slots[0].start] else [])
      + Clashes(bookings, room, slots[1..], ignored, now)
  }

  // ---- rows --------------------------------------------------------------------------

  /** What a series write is asked for. `duration` and `amount` are the length
      and price every occurrence is recorded with. */
  datatype SeriesRequest = SeriesRequest(series: SeriesId, org: OrgId, room: RoomId, user: UserId,
                                         start: int, end: int, until: int, duration: int, amount: int)

  function OccurrenceRow(req: SeriesRequest, slot: Slot): Booking {
    Booking(req.org, req.room, req.user, slot.start, slot.end, req.duration, req.amount, 0, None,
            Pending, Hourly, None, None, Some(req.series))
  }

  /** One new row per occurrence, with ids from `first` up. */
  function WithOccurrences(bookings: BookingTable, req: SeriesRequest, slots: seq<Slot>, first: BookingId): BookingTable {
    if slots == [] then bookings
    else
      var n := |slots| - 1;
      WithOccurrences(bookings, req, slots[..n], first)[first + n := OccurrenceRow(req, slots[n])]
  }

  /** The exclusion constraint stops one of the inserts. */
  ghost predicate TripsConstraint(bookings: BookingTable, req: SeriesRequest, slots: seq<Slot>, first: BookingId) {
    exists i | 0 <= i < |slots| ::
      Excluded(WithOccurrences(bookings, req, slots[..i], first), first + i, OccurrenceRow(req, slots[i]))
  }

  lemma {:induction false} OccurrencesWritten(bookings: BookingTable, req: SeriesRequest, slots: seq<Slot>, first: BookingId)
    requires forall b | b in bookings :: b < first
    ensures var bookings' := WithOccurrences(bookings, req, slots, first);
            && (forall b :: b in bookings' <==> b in bookings || first <= b < first + |slots|)
            && (forall b | b in bookings :: bookings'[b] == bookings[b])
            && (forall i | 0 <= i < |slots| :: bookings'[first + i] == OccurrenceRow(req, slots[i]))
  {
    if slots != [] {
      var n := |slots| - 1;
      OccurrencesWritten(bookings, req, slots[..n], first);
    }
  }

  // ---- inserting -----------------------------------------------------------------------

  /** An unpaid row that draws on no pack. */
  lemma InsertingOccurrenceKeepsInv(s: State, b: BookingId, bk: Booking)
    requires Inv(s) && b !in s.bookings && bk.start < bk.end && !Excluded(s.bookings, b, bk)
    requires bk.share == 0 <= bk.duration && bk.paidAt.None? && bk.session.None? && PaymentState(bk)
    ensures Inv(s.(bookings := s.bookings[b := bk]))
  {
    hide BooksMatch, CreditsMatch, Excluded, PaymentState, NoDoubleBooking, SessionsMatch;
    OnlyRestingHasCredit(s, b);
    DrawingKeepsBooks(s.ledger, s.bookings, b, bk, [], 0, None);
    assert Drawn(s.ledger, b, []) == s.ledger;
    WritingKeepsSlots(s.bookings, b, bk);
    AddingKeepsSessions(s.bookings, s.sessions, b, bk);
  }

  /** Slots free of every occupying row, and of each other, never trip the constraint. */
  lemma FreeOccurrencesFit(bookings: BookingTable, req: SeriesRequest, slots: seq<Slot>, first: BookingId, i: nat)
    requires forall b | b in bookings :: b < first
    requires InOrder(slots) && i < |slots|
    requires forall j | 0 <= j < |slots| :: !Excluded(bookings, first + j, OccurrenceRow(req, slots[j]))
    ensures !Excluded(WithOccurrences(bookings, req, slots[..i], first), first + i, OccurrenceRow(req, slots[i]))
  {
    var before, row := WithOccurrences(bookings, req, slots[..i], first), OccurrenceRow(req, slots[i]);
    OccurrencesWritten(bookings, req, slots[..i], first);
    forall c | c in before && c != first + i && before[c].room == row.room && Occupies(before[c].status)
      ensures !Overlap(before[c].start, before[c].end, row.start, row.end)
    {
      if c in bookings {
        assert !Excluded(bookings, first + i, row);
      } else {
        assert before[c] == OccurrenceRow(req, slots[c - first]);
      }
    }
  }

  lemma {:induction false} InsertingKeepsInv(s: State, req: SeriesRequest, slots: seq<Slot>, first: BookingId)
    requires Inv(s) && (forall b | b in s.bookings :: b < first)
    requires InOrder(slots) && req.duration >= 0
    requires forall j | 0 <= j < |slots| :: !Excluded(s.bookings, first + j, OccurrenceRow(req, slots[j]))
    ensures Inv(s.(bookings := WithOccurrences(s.bookings, req, slots, first)))
  {
    hide Inv, Excluded;
    if slots != [] {
      var n := |slots| - 1;
      InsertingKeepsInv(s, req, slots[..n], first);
      FreeOccurrencesFit(s.bookings, req, slots, first, n);
      OccurrencesWritten(s.bookings, req, slots[..n], first);
      InsertingOccurrenceKeepsInv(s.(bookings := WithOccurrences(s.bookings, req, slots[..n], first)), first + n,
                                  OccurrenceRow(req, slots[n]));
    }
  }

  /** So a series of free, disjoint slots is written whole. */
  lemma SeriesFits(s: State, req: SeriesRequest, slots: seq<Slot>, first: BookingId)
    requires Inv(s) && (forall b | b in s.bookings :: b < first) && req.duration >= 0 && InOrder(slots)
    requires forall j | 0 <= j < |slots| :: !Excluded(s.bookings, first + j, OccurrenceRow(req, slots[j]))
    ensures !TripsConstraint(s.bookings, req, slots, first)
    ensures Inv(s.(bookings := WithOccurrences(s.bookings, req, slots, first)))
  {
    hide Inv, Excluded, InOrder;
    forall i | 0 <= i < |slots|
      ensures !Excluded(WithOccurrences(s.bookings, req, slots[..i], first), first + i, OccurrenceRow(req, slots[i]))
    {
      FreeOccurrencesFit(s.bookings, req, slots, first, i);
    }
    InsertingKeepsInv(s, req, slots, first);
  }

  // ---- creating a series -------------------------------------------------------------------

  datatype SeriesReply = Booked | Clashing(starts: seq<int>) | Rejected(error: WindowError) | Unmovable(why: Refusal) | SlotsLost

  datatype SeriesResult = SeriesResult(state: State, reply: SeriesReply)

  /** The window the series' lapsed holds are reconciled in. */
  function Span(room: RoomId, slots: seq<Slot>): Scope
    requires slots != []
  {
    RoomWindow(room, slots[0].start, slots[|slots| - 1].end)
  }

  ghost function CreateSeries(s: State, req: SeriesRequest, first: BookingId, now: int): SeriesResult {
    AcceptedWindow(req.start, req.end, req.until, false, now);
    var window := ValidatedWindow(req.start, req.end, req.until, false, now);
    if window.Bad? then SeriesResult(s, Rejected(window.error))
    else
      var slots := window.occurrences;
      var swept := Reconciled(s, Span(req.room, slots), now);
      var clashes := Clashes(swept.bookings, req.room, slots, {}, now);
      if clashes != [] then SeriesResult(s, Clashing(clashes))
      else if TripsConstraint(swept.bookings, req, slots, first) then SeriesResult(s, SlotsLost)
      else SeriesResult(swept.(bookings := WithOccurrences(swept.bookings, req, slots, first)), Booked)
  }

  /** Reconciling lapsed holds changes nothing about who holds a slot now. */
  lemma LapsedHoldsHoldNoSlot(s: State, scope: Scope, room: RoomId, slot: Slot, ignored: set<BookingId>, now: int)
    ensures TakenBy(Reconciled(s, scope, now).bookings, room, slot, ignored, now)
            <==> TakenBy(s.bookings, room, slot, ignored, now)
  {
    hide Released;
    var swept := Reconciled(s, scope, now).bookings;
    forall b | b in s.bookings ensures HoldsSlot(swept[b], now) == HoldsSlot(s.bookings[b], now) {}
    if TakenBy(s.bookings, room, slot, ignored, now) {
      var b :| b in s.bookings && b !in ignored && s.bookings[b].room == room && HoldsSlot(s.bookings[b], now)
               && Overlap(s.bookings[b].start, s.bookings[b].end, slot.start, slot.end);
      assert HoldsSlot(swept[b], now) && swept[b].room == room;
    }
  }

  /** Once the span is reconciled, an occurrence nobody holds is free for the constraint too. */
  lemma FreeOccurrencesAreNotExcluded(s: State, req: SeriesRequest, slots: seq<Slot>, ignored: set<BookingId>,
                                      first: BookingId, now: int, bookings: BookingTable)
    requires slots != [] && InOrder(slots)
    requires var swept := Reconciled(s, Span(req.room, slots), now).bookings;
             && (forall o | o in slots :: !TakenBy(swept, req.room, o, ignored, now))
             && bookings.Keys == swept.Keys
             && (forall b | b in swept && b !in ignored :: bookings[b] == swept[b])
             && (forall b | b in swept && b in ignored :: !Occupies(bookings[b].status))
    ensures forall j | 0 <= j < |slots| :: !Excluded(bookings, first + j, OccurrenceRow(req, slots[j]))
  {
    hide Released;
    var span := Span(req.room, slots);
    var swept := Reconciled(s, span, now).bookings;
    forall j | 0 <= j < |slots| ensures !Excluded(bookings, first + j, OccurrenceRow(req, slots[j])) {
      var o := slots[j];
      assert o in slots && slots[0].start <= o.start && o.end <= slots[|slots| - 1].end;
      forall c | c in bookings && bookings[c].room == req.room && Occupies(bookings[c].status)
        ensures !Overlap(bookings[c].start, bookings[c].end, o.start, o.end)
      {
        assert bookings[c] == swept[c] && c !in ignored;
        var hits, holds := Overlap(swept[c].start, swept[c].end, o.start, o.end), HoldsSlot(swept[c], now);
        assert hits ==> InScope(span, s.bookings[c]) && holds;
        assert hits ==> TakenBy(swept, req.room, o, ignored, now);
      }
    }
  }

  /** A series write is all or nothing, and run on its own never loses a slot
      to the constraint. It reports exactly the occurrences that overlap a
      booking holding its slot, and then changes nothing; or every occurrence
      gets its own row, next to bookings that stay as reconciled. */
  lemma SeriesIsAllOrNothing(s: State, req: SeriesRequest, first: BookingId, now: int)
    requires Inv(s) && (forall b | b in s.bookings :: b < first) && req.duration >= 0
    ensures var r := CreateSeries(s, req, first, now);
            var window := ValidatedWindow(req.start, req.end, req.until, false, now);
            && Inv(r.state) && r.reply != SlotsLost
            && (!r.reply.Booked? ==> r.state == s)
            && (r.reply.Rejected? <==> window.Bad?)
            && (window.Good? ==>
                  && (r.reply.Booked? <==> forall o | o in window.occurrences :: !TakenBy(s.bookings, req.room, o, {}, now))
                  && (r.reply.Clashing? ==>
                        forall t :: t in r.reply.starts
                          <==> exists o | o in window.occurrences :: o.start == t && TakenBy(s.bookings, req.room, o, {}, now)))
  {
    AcceptedWindow(req.start, req.end, req.until, false, now);
    var window := ValidatedWindow(req.start, req.end, req.until, false, now);
    if window.Good? {
      var slots := window.occurrences;
      var swept := Reconciled(s, Span(req.room, slots), now);
      hide Inv, TakenBy, Reconciled, Excluded, InOrder;
      ReconciledKeepsInv(s, Span(req.room, slots), now);
      SweptClashes(s, Span(req.room, slots), req.room, slots, {}, now);
      if Clashes(swept.bookings, req.room, slots, {}, now) == [] {
        FreeOccurrencesAreNotExcluded(s, req, slots, {}, first, now, swept.bookings);
        SweepKeepsIds(s, Span(req.room, slots), now);
        SeriesFits(swept, req, slots, first);
      }
    }
  }

  lemma SweepKeepsIds(s: State, scope: Scope, now: int)
    ensures Reconciled(s, scope, now).bookings.Keys == s.bookings.Keys
  {
  }

  /** What a booked series looks like: one pending row per occurrence, 1 to 104
      of them, pairwise disjoint, and every other booking as it was but for
      holds that had lapsed. */
  lemma BookedSeries(s: State, req: SeriesRequest, first: BookingId, now: int)
    requires forall b | b in s.bookings :: b < first
    requires CreateSeries(s, req, first, now).reply.Booked?
    ensures var slots := ValidatedWindow(req.start, req.end, req.until, false, now).occurrences;
            var after := CreateSeries(s, req, first, now).state.bookings;
            && 1 <= |slots| <= MAX_OCCURRENCES && InOrder(slots)
            && (forall b :: b in after <==> b in s.bookings || first <= b < first + |slots|)
            && (forall i | 0 <= i < |slots| :: after[first + i] == OccurrenceRow(req, slots[i]))
            && (forall b | b in s.bookings ::
                  after[b] == if Lapsed(s.bookings[b], now) && InScope(Span(req.room, slots), s.bookings[b])
                              then s.bookings[b].(status := Expired) else s.bookings[b])
  {
    hide Released, TripsConstraint, Clashes;
    AcceptedWindow(req.start, req.end, req.until, false, now);
    var slots := ValidatedWindow(req.start, req.end, req.until, false, now).occurrences;
    OccurrencesWritten(Reconciled(s, Span(req.room, slots), now).bookings, req, slots, first);
  }

  // ---- editing a series ---------------------------------------------------------------------

  /** Occurrences an edit replaces: still active, and not started yet. */
  function Replaceable(bookings: BookingTable, series: SeriesId, now: int): set<BookingId> {
    set b | b in bookings && bookings[b].series == Some(series) && Occupies(bookings[b].status) && bookings[b].start > now
  }

  function CancelRows(bookings: BookingTable, gone: set<BookingId>): BookingTable {
    map b | b in bookings :: if b in gone then bookings[b].(status := Cancelled) else bookings[b]
  }

  /** What an occurrence's cancellation pays back: nothing, unless the operator
      had confirmed it. */
  function OccurrenceCredit(bk: Booking, rate: int): int {
    if IsCreditable(bk, bk.status) then CreditHours(bk.amount, rate) else 0
  }

  /** `after` holds exactly the credit the occurrence leaves, if it leaves one. */
  ghost predicate Credited(before: PurchaseTable, after: PurchaseTable, b: BookingId, bk: Booking, rate: int, now: int) {
    var hours := OccurrenceCredit(bk, rate);
    if hours <= 0 then SameCredits(before, after, b)
    else exists p :: CreditsOf(after, b) == {p} && p in after && after[p] == FreshCredit(bk, b, hours, now)
  }

  /** A credit for `b` written next to everybody else's purchases. */
  ghost predicate OnlyCredits(before: PurchaseTable, after: PurchaseTable, credited: set<BookingId>, ids: set<PurchaseId>) {
    && before.Keys <= after.Keys <= before.Keys + ids
    && forall p | p in after ::
         if p in before then
           after[p].source == before[p].source
           && ((before[p].source.Some? && before[p].source.value in credited) || after[p] == before[p])
         else after[p].source.Some? && after[p].source.value in credited
  }

  /** Cancelling an occurrence moves no pack hours. It leaves exactly one credit,
      of what its price buys, if the operator had confirmed it, none if it was
      still pending, and is refused whole if the credit is more than a row holds. */
  lemma CancellingAnOccurrence(s: State, b: BookingId, now: int, rate: int, newId: PurchaseId)
    requires Inv(s) && newId !in s.ledger.purchases
    requires b in s.bookings && s.bookings[b].series.Some? && Occupies(s.bookings[b].status)
    ensures var bk, r := s.bookings[b], ApplyCancellation(s, b, now, rate, newId);
            && Inv(r.state)
            && (bk.status == Pending ==> OccurrenceCredit(bk, rate) == 0)
            && (bk.status == Confirmed && bk.amount > 0 ==> OccurrenceCredit(bk, rate) == CreditHours(bk.amount, rate))
            && (OccurrenceCredit(bk, rate) > MAX_LEDGER_HOURS ==> r == Result(s, Refused(CreditTooLarge)))
            && (OccurrenceCredit(bk, rate) <= MAX_LEDGER_HOURS ==>
                  && r.reply == Done && r.state.ledger.debits == s.ledger.debits
                  && r.state.bookings == s.bookings[b := bk.(status := Cancelled)]
                  && r.state.sessions == s.sessions && r.state.blocks == s.blocks && r.state.closed == s.closed
                  && Credited(s.ledger.purchases, r.state.ledger.purchases, b, bk, rate, now)
                  && OnlyCredits(s.ledger.purchases, r.state.ledger.purchases, {b}, {newId}))
  {
    var bk, r := s.bookings[b], ApplyCancellation(s, b, now, rate, newId);
    CancellationIsSound(s, b, now, rate, newId);
    OccurrenceFacts(s, b);
    hide Inv, CreditHours, Sound;
    SoundKeepsInv(r);
    OccurrenceCreditFor(s.ledger.purchases, b, bk, now, rate, newId);
    hide CreditFor, OccurrenceCredit, Credited, OnlyCredits;
  }

  lemma OccurrenceFacts(s: State, b: BookingId)
    requires Inv(s) && b in s.bookings && s.bookings[b].series.Some?
    ensures var bk := s.bookings[b];
            && bk.share == 0 && bk.payment == Hourly && bk.session.None? && bk.holdExpires.None?
            && OneCreditEach(s.ledger.purchases)
            && (bk.status != Cancelled ==>
                  forall p | p in CreditsOf(s.ledger.purchases, b) :: WrittenOff(s.ledger.purchases[p]))
  {
    assert PaymentState(s.bookings[b]);
    if s.bookings[b].status != Cancelled {
      OnlyRestingHasCredit(s, b);
    }
    hide BooksMatch, NoDoubleBooking, SessionsMatch;
  }

  lemma OccurrenceCreditFor(purchases: PurchaseTable, b: BookingId, bk: Booking, now: int, rate: int, newId: PurchaseId)
    requires newId !in purchases && OneCreditEach(purchases)
    requires bk.payment == Hourly && Occupies(bk.status)
    requires forall p | p in CreditsOf(purchases, b) :: WrittenOff(purchases[p])
    ensures var credit := CreditFor(purchases, b, bk, bk.status, rate, now, newId);
            var hours := OccurrenceCredit(bk, rate);
            && (bk.status == Pending ==> hours == 0)
            && (bk.status == Confirmed && bk.amount > 0 ==> hours == CreditHours(bk.amount, rate))
            && (credit.TooLarge? <==> hours > MAX_LEDGER_HOURS)
            && var after := if credit.CreditRow? then purchases[credit.id := credit.row] else purchases;
               !credit.TooLarge? ==>
                 Credited(purchases, after, b, bk, rate, now) && OnlyCredits(purchases, after, {b}, {newId})
  {
    hide CreditHours;
    var credit := CreditFor(purchases, b, bk, bk.status, rate, now, newId);
    if credit.CreditRow? {
      var after := purchases[credit.id := credit.row];
      forall p, q | p in CreditsOf(purchases, b) && q in CreditsOf(purchases, b) ensures p == q {}
      assert forall p :: p in CreditsOf(after, b) <==> p == credit.id;
      assert CreditsOf(after, b) == {credit.id};
    }
  }

  // ---- cancelling several ----------------------------------------------------------------------

  function RateOf(rates: map<RoomId, int>, room: RoomId): int {
    if room in rates then rates[room] else 0
  }

  /** Rows in the order of their ids, as they are locked and cancelled. */
  function InIdOrder(rows: set<BookingId>): (order: seq<BookingId>)
    ensures forall b :: b in order <==> b in rows
    ensures forall i, j | 0 <= i < j < |order| :: order[i] != order[j]
  {
    Ordered(rows, map b | b in rows :: 0)
  }

  /** One cancellation after another in one transaction; the credit of booking
      `b` would get the id `first + b`. */
  ghost function CancelEach(s: State, order: seq<BookingId>, now: int, rates: map<RoomId, int>, first: PurchaseId): Result
    decreases |order|
  {
    if order == [] then Result(s, Done)
    else if order[0] !in s.bookings then Result(s, Refused(NotFound))
    else
      var b := order[0];
      var once := ApplyCancellation(s, b, now, RateOf(rates, s.bookings[b].room), first + b);
      if once.reply != Done then once else CancelEach(once.state, order[1..], now, rates, first)
  }

  /** The rows of a series a transaction may cancel, and the ids their credits would get. */
  ghost predicate Cancellable(s: State, order: seq<BookingId>, first: PurchaseId) {
    && (forall i, j | 0 <= i < j < |order| :: order[i] != order[j])
    && forall b | b in order ::
         && b in s.bookings && s.bookings[b].series.Some? && Occupies(s.bookings[b].status)
         && first + b !in s.ledger.purchases
  }

  function IdsOf(order: seq<BookingId>): set<BookingId> {
    set b | b in order
  }

  function CreditIds(order: seq<BookingId>, first: PurchaseId): set<PurchaseId> {
    set b | b in order :: first + b
  }

  /** What cancelling those rows leaves behind. */
  ghost predicate AllCancelled(s: State, s': State, order: seq<BookingId>, now: int, rates: map<RoomId, int>,
                               first: PurchaseId) {
    && s'.bookings == CancelRows(s.bookings, IdsOf(order))
    && s'.sessions == s.sessions && s'.blocks == s.blocks && s'.closed == s.closed
    && s'.ledger.debits == s.ledger.debits
    && OnlyCredits(s.ledger.purchases, s'.ledger.purchases, IdsOf(order), CreditIds(order, first))
    && forall b | b in order && b in s.bookings ::
         Credited(s.ledger.purchases, s'.ledger.purchases, b, s.bookings[b], RateOf(rates, s.bookings[b].room), now)
  }

  ghost predicate CreditsFit(s: State, rows: set<BookingId>, rates: map<RoomId, int>) {
    forall b | b in rows && b in s.bookings ::
      OccurrenceCredit(s.bookings[b], RateOf(rates, s.bookings[b].room)) <= MAX_LEDGER_HOURS
  }

  /** Credits of bookings outside `credited` are as they were. */
  lemma OtherCredits(before: PurchaseTable, after: PurchaseTable, credited: set<BookingId>, ids: set<PurchaseId>, b: BookingId)
    requires OnlyCredits(before, after, credited, ids) && b !in credited
    ensures SameCredits(before, after, b)
  {
  }

  lemma OnlyCreditsTwice(p0: PurchaseTable, p1: PurchaseTable, p2: PurchaseTable, c1: set<BookingId>, c2: set<BookingId>,
                         i1: set<PurchaseId>, i2: set<PurchaseId>)
    requires OnlyCredits(p0, p1, c1, i1) && OnlyCredits(p1, p2, c2, i2)
    ensures OnlyCredits(p0, p2, c1 + c2, i1 + i2)
  {
  }

  lemma CreditedLater(p0: PurchaseTable, p1: PurchaseTable, p2: PurchaseTable, b: BookingId, bk: Booking, rate: int, now: int)
    requires SameCredits(p0, p1, b) && Credited(p1, p2, b, bk, rate, now)
    ensures Credited(p0, p2, b, bk, rate, now)
  {
    hide OccurrenceCredit;
  }

  lemma CreditedBefore(p0: PurchaseTable, p1: PurchaseTable, p2: PurchaseTable, b: BookingId, bk: Booking, rate: int, now: int)
    requires Credited(p0, p1, b, bk, rate, now) && SameCredits(p1, p2, b)
    ensures Credited(p0, p2, b, bk, rate, now)
  {
    hide OccurrenceCredit;
    if OccurrenceCredit(bk, rate) > 0 {
      var p :| CreditsOf(p1, b) == {p} && p in p1 && p1[p] == FreshCredit(bk, b, OccurrenceCredit(bk, rate), now);
      assert p in CreditsOf(p1, b) && p in CreditsOf(p2, b);
    }
  }

  lemma OneRowLess(s: State, s1: State, order: seq<BookingId>, first: PurchaseId)
    requires order != [] && Cancellable(s, order, first)
    requires s1.bookings == s.bookings[order[0] := s.bookings[order[0]].(status := Cancelled)]
    requires OnlyCredits(s.ledger.purchases, s1.ledger.purchases, {order[0]}, {first + order[0]})
    ensures Cancellable(s1, order[1..], first)
    ensures forall b | b in order[1..] :: b != order[0] && b in order && b in s.bookings && s1.bookings[b] == s.bookings[b]
  {
  }

  lemma OneRowMore(s: State, s1: State, s2: State, order: seq<BookingId>, now: int, rates: map<RoomId, int>, first: PurchaseId)
    requires order != [] && Cancellable(s, order, first)
    requires var b := order[0];
             && s1.bookings == s.bookings[b := s.bookings[b].(status := Cancelled)]
             && s1.sessions == s.sessions && s1.blocks == s.blocks && s1.closed == s.closed && s1.ledger.debits == s.ledger.debits
             && OnlyCredits(s.ledger.purchases, s1.ledger.purchases, {b}, {first + b})
             && Credited(s.ledger.purchases, s1.ledger.purchases, b, s.bookings[b], RateOf(rates, s.bookings[b].room), now)
    requires AllCancelled(s1, s2, order[1..], now, rates, first)
    ensures AllCancelled(s, s2, order, now, rates, first)
  {
    var b, rest := order[0], order[1..];
    OneRowLess(s, s1, order, first);
    var p0, p1, p2 := s.ledger.purchases, s1.ledger.purchases, s2.ledger.purchases;
    var tail := IdsOf(rest);
    assert order == [b] + rest;
    assert IdsOf(order) == {b} + tail;
    assert CreditIds(order, first) == {first + b} + CreditIds(rest, first);
    assert CancelRows(s1.bookings, tail) == CancelRows(s.bookings, {b} + tail);
    hide Credited, OnlyCredits, CreditIds, CancelRows, RateOf;
    OnlyCreditsTwice(p0, p1, p2, {b}, tail, {first + b}, CreditIds(rest, first));
    assert b !in tail;
    forall c | c in order && c in s.bookings
      ensures Credited(p0, p2, c, s.bookings[c], RateOf(rates, s.bookings[c].room), now)
    {
      if c == b {
        OtherCredits(p1, p2, tail, CreditIds(rest, first), b);
        CreditedBefore(p0, p1, p2, b, s.bookings[b], RateOf(rates, s.bookings[b].room), now);
      } else {
        assert c in rest && s1.bookings[c] == s.bookings[c];
        OtherCredits(p0, p1, {b}, {first + b}, c);
        CreditedLater(p0, p1, p2, c, s.bookings[c], RateOf(rates, s.bookings[c].room), now);
      }
    }
  }

  /** Rows cancelled one after another: all of them with their credits, unless
      one credit is too large, which refuses the whole. */
  lemma {:induction false} CancellingEach(s: State, order: seq<BookingId>, now: int, rates: map<RoomId, int>, first: PurchaseId)
    requires Inv(s) && Cancellable(s, order, first)
    ensures var r := CancelEach(s, order, now, rates, first);
            && Inv(r.state) && (r.reply == Done || r.reply == Refused(CreditTooLarge))
            && (r.reply == Done <==> CreditsFit(s, IdsOf(order), rates))
            && (r.reply == Done ==> AllCancelled(s, r.state, order, now, rates, first))
    decreases |order|
  {
    hide *;
    var r := CancelEach(s, order, now, rates, first);
    if order == [] {
      NothingCancelled(s, now, rates, first);
    } else {
      var b := order[0];
      FirstIsCancellable(s, order, first);
      var rate := RateOf(rates, s.bookings[b].room);
      var once := ApplyCancellation(s, b, now, rate, first + b);
      CancelEachUnfolds(s, order, now, rates, first);
      CancellingAnOccurrence(s, b, now, rate, first + b);
      if once.reply == Done {
        OneRowLess(s, once.state, order, first);
        CancellingEach(once.state, order[1..], now, rates, first);
        CreditsFitOneByOne(s, once.state, order, rates);
        if r.reply == Done {
          OneRowMore(s, once.state, r.state, order, now, rates, first);
        }
      } else {
        FirstMustFit(s, order, rates);
      }
    }
  }

  lemma FirstIsCancellable(s: State, order: seq<BookingId>, first: PurchaseId)
    requires order != [] && Cancellable(s, order, first)
    ensures var b := order[0];
            b in s.bookings && s.bookings[b].series.Some? && Occupies(s.bookings[b].status) && first + b !in s.ledger.purchases
  {
    assert order[0] in order;
  }

  lemma CancelEachUnfolds(s: State, order: seq<BookingId>, now: int, rates: map<RoomId, int>, first: PurchaseId)
    requires order != [] && order[0] in s.bookings
    ensures var b := order[0];
            var once := ApplyCancellation(s, b, now, RateOf(rates, s.bookings[b].room), first + b);
            CancelEach(s, order, now, rates, first)
            == if once.reply != Done then once else CancelEach(once.state, order[1..], now, rates, first)
  {
  }

  lemma FirstMustFit(s: State, order: seq<BookingId>, rates: map<RoomId, int>)
    requires order != [] && order[0] in s.bookings
    ensures CreditsFit(s, IdsOf(order), rates) ==>
              OccurrenceCredit(s.bookings[order[0]], RateOf(rates, s.bookings[order[0]].room)) <= MAX_LEDGER_HOURS
  {
    hide OccurrenceCredit, RateOf;
    assert order[0] in order;
  }

  lemma CreditsFitOneByOne(s: State, s1: State, order: seq<BookingId>, rates: map<RoomId, int>)
    requires order != [] && order[0] in s.bookings
    requires s1.bookings == s.bookings[order[0] := s.bookings[order[0]].(status := Cancelled)]
    requires forall b | b in order[1..] :: b != order[0] && b in order && b in s.bookings && s1.bookings[b] == s.bookings[b]
    ensures CreditsFit(s, IdsOf(order), rates)
            <==> OccurrenceCredit(s.bookings[order[0]], RateOf(rates, s.bookings[order[0]].room)) <= MAX_LEDGER_HOURS
                 && CreditsFit(s1, IdsOf(order[1..]), rates)
  {
    hide OccurrenceCredit, RateOf;
    assert forall b :: b in order <==> b == order[0] || b in order[1..];
  }

  lemma NothingCancelled(s: State, now: int, rates: map<RoomId, int>, first: PurchaseId)
    ensures CancelEach(s, [], now, rates, first) == Result(s, Done)
    ensures AllCancelled(s, s, [], now, rates, first) && CreditsFit(s, IdsOf([]), rates)
  {
    assert CancelRows(s.bookings, {}) == s.bookings;
  }

  // ---- editing a series ---------------------------------------------------------------------------

  /** Every cancellation goes through the same guard as a single booking's. */
  predicate AnyTooLate(bookings: BookingTable, rows: set<BookingId>, now: int) {
    exists b | b in rows :: b in bookings && bookings[b].start - now < CANCELLATION_NOTICE
                            && !(bookings[b].status == Pending && bookings[b].holdExpires.Some?)
  }

  /** Rates at which cancelled hours are credited, and where credit ids start. */
  datatype Crediting = Crediting(rates: map<RoomId, int>, first: PurchaseId)

  predicate PurchasesBelow(s: State, first: PurchaseId) {
    forall p | p in s.ledger.purchases :: p < first
  }

  /** The rows an edit starts from: everything reconciled, its own future ones cancelled. */
  ghost function Freed(s: State, req: SeriesRequest, slots: seq<Slot>, now: int, c: Crediting): Result
    requires slots != []
  {
    var swept := Reconciled(s, Span(req.room, slots), now);
    CancelEach(swept, InIdOrder(Replaceable(s.bookings, req.series, now)), now, c.rates, c.first)
  }

  ghost function UpdateSeries(s: State, req: SeriesRequest, first: BookingId, now: int, c: Crediting): SeriesResult {
    AcceptedWindow(req.start, req.end, req.until, true, now);
    var window := ValidatedWindow(req.start, req.end, req.until, true, now);
    if req.series in s.closed then SeriesResult(s, Unmovable(AlreadyClosed))
    else if window.Bad? then SeriesResult(s, Rejected(window.error))
    else
      var slots := window.occurrences;
      var rows := Replaceable(s.bookings, req.series, now);
      if AnyTooLate(s.bookings, rows, now) then SeriesResult(s, Unmovable(TooLate))
      else
        var swept := Reconciled(s, Span(req.room, slots), now);
        var clashes := Clashes(swept.bookings, req.room, slots, rows, now);
        if clashes != [] then SeriesResult(s, Clashing(clashes))
        else
          var freed := Freed(s, req, slots, now, c);
          if freed.reply != Done then SeriesResult(s, Unmovable(CreditTooLarge))
          else if TripsConstraint(freed.state.bookings, req, slots, first) then SeriesResult(s, SlotsLost)
          else SeriesResult(freed.state.(bookings := WithOccurrences(freed.state.bookings, req, slots, first)), Booked)
  }

  /** The rest of a series, from a date or from now. */
  function Remaining(bookings: BookingTable, series: SeriesId, from: Option<int>, now: int): set<BookingId> {
    set b | b in bookings && bookings[b].series == Some(series) && Occupies(bookings[b].status)
            && bookings[b].start >= Max(if from.Some? then from.value * DAY else now, now)
  }

  ghost function CancelSeries(s: State, series: SeriesId, from: Option<int>, now: int, c: Crediting): SeriesResult {
    var rows := Remaining(s.bookings, series, from, now);
    if AnyTooLate(s.bookings, rows, now) then SeriesResult(s, Unmovable(TooLate))
    else
      var r := CancelEach(s, InIdOrder(rows), now, c.rates, c.first);
      if r.reply != Done then SeriesResult(s, Unmovable(CreditTooLarge))
      else SeriesResult(r.state.(closed := s.closed + {series}), Booked)
  }

  /** The rows an edit replaces never held a deadline, so they survive the sweep as they were. */
  lemma ReplaceableRows(s: State, series: SeriesId, scope: Scope, now: int)
    requires Inv(s)
    ensures var swept := Reconciled(s, scope, now).bookings;
            && (forall b | b in s.bookings && s.bookings[b].series.Some? :: swept[b] == s.bookings[b])
            && (forall b | b in Replaceable(s.bookings, series, now) ::
                  b in swept && swept[b] == s.bookings[b] && swept[b].series.Some? && Occupies(swept[b].status))
  {
    hide Released;
    forall b | b in s.bookings && s.bookings[b].series.Some? ensures !Lapsed(s.bookings[b], now) {
      assert PaymentState(s.bookings[b]);
    }
  }

  lemma CancellableRows(s: State, rows: set<BookingId>, first: PurchaseId)
    requires PurchasesBelow(s, first)
    requires forall b | b in rows :: b in s.bookings && s.bookings[b].series.Some? && Occupies(s.bookings[b].status)
    ensures Cancellable(s, InIdOrder(rows), first)
    ensures IdsOf(InIdOrder(rows)) == rows
  {
    hide InIdOrder;
  }

  /** What cancelling the replaceable rows of the reconciled state does. */
  lemma FreeingTheRows(s: State, req: SeriesRequest, slots: seq<Slot>, now: int, c: Crediting)
    requires Inv(s) && slots != [] && PurchasesBelow(s, c.first)
    ensures var rows := Replaceable(s.bookings, req.series, now);
            var swept, freed := Reconciled(s, Span(req.room, slots), now), Freed(s, req, slots, now, c);
            && Inv(freed.state)
            && (freed.reply == Done <==> CreditsFit(s, rows, c.rates))
            && (freed.reply == Done ==>
                  AllCancelled(swept, freed.state, InIdOrder(rows), now, c.rates, c.first)
                  && freed.state.bookings == CancelRows(swept.bookings, rows))
  {
    var rows := Replaceable(s.bookings, req.series, now);
    var span := Span(req.room, slots);
    var swept := Reconciled(s, span, now);
    SweepKeepsIds(s, span, now);
    SweepKeepsPurchases(s, span, now);
    ReplaceableRows(s, req.series, span, now);
    hide Inv, Reconciled, Replaceable, InIdOrder;
    ReconciledKeepsInv(s, span, now);
    assert PurchasesBelow(swept, c.first);
    CancellableRows(swept, rows, c.first);
    hide PurchasesBelow, Cancellable;
    CancellingEach(swept, InIdOrder(rows), now, c.rates, c.first);
    hide OccurrenceCredit, RateOf, Credited, OnlyCredits;
    assert CreditsFit(swept, rows, c.rates) <==> CreditsFit(s, rows, c.rates);
  }

  lemma FreedSlotsFit(s: State, req: SeriesRequest, slots: seq<Slot>, first: BookingId, now: int, c: Crediting)
    requires Inv(s) && (forall b | b in s.bookings :: b < first) && PurchasesBelow(s, c.first)
    requires req.duration >= 0 && slots != [] && InOrder(slots)
    requires forall o | o in slots :: !TakenBy(s.bookings, req.room, o, Replaceable(s.bookings, req.series, now), now)
    requires Freed(s, req, slots, now, c).reply == Done
    ensures var freed := Freed(s, req, slots, now, c).state;
            !TripsConstraint(freed.bookings, req, slots, first)
            && Inv(freed.(bookings := WithOccurrences(freed.bookings, req, slots, first)))
  {
    hide *;
    var freed := Freed(s, req, slots, now, c).state;
    FreeingTheRows(s, req, slots, now, c);
    FreedIsNotExcluded(s, req, slots, first, now, freed.bookings);
    SeriesFits(freed, req, slots, first);
  }

  lemma FreedIsNotExcluded(s: State, req: SeriesRequest, slots: seq<Slot>, first: BookingId, now: int, freed: BookingTable)
    requires Inv(s) && (forall b | b in s.bookings :: b < first) && slots != [] && InOrder(slots)
    requires var rows := Replaceable(s.bookings, req.series, now);
             && (forall o | o in slots :: !TakenBy(s.bookings, req.room, o, rows, now))
             && freed == CancelRows(Reconciled(s, Span(req.room, slots), now).bookings, rows)
    ensures forall b | b in freed :: b < first
    ensures forall j | 0 <= j < |slots| :: !Excluded(freed, first + j, OccurrenceRow(req, slots[j]))
  {
    var rows := Replaceable(s.bookings, req.series, now);
    var span := Span(req.room, slots);
    SweepKeepsIds(s, span, now);
    hide Inv, TakenBy, Reconciled, Excluded, InOrder, Replaceable;
    forall o | o in slots ensures !TakenBy(Reconciled(s, span, now).bookings, req.room, o, rows, now) {
      LapsedHoldsHoldNoSlot(s, span, req.room, o, rows, now);
    }
    FreeOccurrencesAreNotExcluded(s, req, slots, rows, first, now, freed);
  }

  /** An edit is all or nothing too, refused once the series was cancelled, and
      loses no slot to the constraint. It
      reports exactly the new times that overlap somebody else's slot, or it
      cancels the occurrences still to come and books the new ones. */
  lemma SeriesEditIsAllOrNothing(s: State, req: SeriesRequest, first: BookingId, now: int, c: Crediting)
    requires Inv(s) && (forall b | b in s.bookings :: b < first) && PurchasesBelow(s, c.first) && req.duration >= 0
    ensures var r := UpdateSeries(s, req, first, now, c);
            var window := ValidatedWindow(req.start, req.end, req.until, true, now);
            var rows := Replaceable(s.bookings, req.series, now);
            && Inv(r.state) && r.reply != SlotsLost
            && (!r.reply.Booked? ==> r.state == s)
            && (r.reply.Clashing? ==>
                  forall t :: t in r.reply.starts
                    <==> exists o | o in window.occurrences :: o.start == t && TakenBy(s.bookings, req.room, o, rows, now))
            && (r.reply.Booked? <==>
                  req.series !in s.closed
                  && window.Good? && !AnyTooLate(s.bookings, rows, now) && CreditsFit(s, rows, c.rates)
                  && forall o | o in window.occurrences :: !TakenBy(s.bookings, req.room, o, rows, now))
  {
    hide *;
    AcceptedWindow(req.start, req.end, req.until, true, now);
    SeriesEditCases(s, req, first, now, c);
    var window := ValidatedWindow(req.start, req.end, req.until, true, now);
    var rows := Replaceable(s.bookings, req.series, now);
    if req.series !in s.closed && window.Good? && !AnyTooLate(s.bookings, rows, now) {
      var slots := window.occurrences;
      SweptClashes(s, Span(req.room, slots), req.room, slots, rows, now);
      FreeingTheRows(s, req, slots, now, c);
      if Freed(s, req, slots, now, c).reply == Done && forall o | o in slots :: !TakenBy(s.bookings, req.room, o, rows, now) {
        FreedSlotsFit(s, req, slots, first, now, c);
      }
    }
  }

  /** The branches of an edit, in order. */
  lemma SeriesEditCases(s: State, req: SeriesRequest, first: BookingId, now: int, c: Crediting)
    ensures var window := ValidatedWindow(req.start, req.end, req.until, true, now);
            var rows := Replaceable(s.bookings, req.series, now);
            var r := UpdateSeries(s, req, first, now, c);
            if req.series in s.closed then r == SeriesResult(s, Unmovable(AlreadyClosed))
            else if window.Bad? then r == SeriesResult(s, Rejected(window.error))
            else if AnyTooLate(s.bookings, rows, now) then r == SeriesResult(s, Unmovable(TooLate))
            else
              var slots := window.occurrences;
              && slots != []
              && var clashes := Clashes(Reconciled(s, Span(req.room, slots), now).bookings, req.room, slots, rows, now);
                 var freed := Freed(s, req, slots, now, c);
                 if clashes != [] then r == SeriesResult(s, Clashing(clashes))
                 else if freed.reply != Done then r == SeriesResult(s, Unmovable(CreditTooLarge))
                 else if TripsConstraint(freed.state.bookings, req, slots, first) then r == SeriesResult(s, SlotsLost)
                 else r == SeriesResult(freed.state.(bookings := WithOccurrences(freed.state.bookings, req, slots, first)), Booked)
  {
    AcceptedWindow(req.start, req.end, req.until, true, now);
    hide ValidatedWindow, AnyTooLate, Replaceable, Reconciled, Clashes, Freed, TripsConstraint, WithOccurrences, InOrder;
  }

  /** Clashes found after the span is reconciled are those there were before. */
  lemma SweptClashes(s: State, scope: Scope, room: RoomId, slots: seq<Slot>, ignored: set<BookingId>, now: int)
    ensures var clashes := Clashes(Reconciled(s, scope, now).bookings, room, slots, ignored, now);
            && (clashes == [] <==> forall o | o in slots :: !TakenBy(s.bookings, room, o, ignored, now))
            && (forall t :: t in clashes <==> exists o | o in slots :: o.start == t && TakenBy(s.bookings, room, o, ignored, now))
  {
    hide TakenBy, Reconciled;
    forall o | o in slots
      ensures TakenBy(Reconciled(s, scope, now).bookings, room, o, ignored, now) <==> TakenBy(s.bookings, room, o, ignored, now)
    {
      LapsedHoldsHoldNoSlot(s, scope, room, o, ignored, now);
    }
  }

  /** An edit never touches a row of the series that has started or is over,
      cancels every other, crediting those the operator had confirmed, and adds
      one row per new occurrence. No pack hours move. */
  lemma EditedSeries(s: State, req: SeriesRequest, first: BookingId, now: int, c: Crediting)
    requires Inv(s) && (forall b | b in s.bookings :: b < first) && PurchasesBelow(s, c.first)
    requires UpdateSeries(s, req, first, now, c).reply.Booked?
    ensures var slots := ValidatedWindow(req.start, req.end, req.until, true, now).occurrences;
            var r := UpdateSeries(s, req, first, now, c).state;
            var after := r.bookings;
            && (forall b :: b in after <==> b in s.bookings || first <= b < first + |slots|)
            && (forall i | 0 <= i < |slots| :: after[first + i] == OccurrenceRow(req, slots[i]))
            && (forall b | b in s.bookings && s.bookings[b].series == Some(req.series) ::
                  after[b] == if s.bookings[b].start > now && Occupies(s.bookings[b].status)
                              then s.bookings[b].(status := Cancelled) else s.bookings[b])
            && slots != []
            && var swept := Reconciled(s, Span(req.room, slots), now);
            && r.ledger.debits == swept.ledger.debits
            && forall b | b in Replaceable(s.bookings, req.series, now) && b in s.bookings ::
                 Credited(swept.ledger.purchases, r.ledger.purchases, b, s.bookings[b],
                          RateOf(c.rates, s.bookings[b].room), now)
  {
    AcceptedWindow(req.start, req.end, req.until, true, now);
    var slots := ValidatedWindow(req.start, req.end, req.until, true, now).occurrences;
    EditWritesFreedState(s, req, first, now, c);
    FreedRows(s, req, slots, now, c);
    var freed := Freed(s, req, slots, now, c).state.bookings;
    hide Freed, UpdateSeries, ValidatedWindow, Inv, Occupies, Credited, RateOf, Reconciled, Replaceable, PurchasesBelow;
    OccurrencesWritten(freed, req, slots, first);
  }

  lemma EditWritesFreedState(s: State, req: SeriesRequest, first: BookingId, now: int, c: Crediting)
    requires UpdateSeries(s, req, first, now, c).reply.Booked?
    ensures var w := ValidatedWindow(req.start, req.end, req.until, true, now);
            && w.Good? && w.occurrences != []
            && var freed := Freed(s, req, w.occurrences, now, c);
            && freed.reply == Done
            && UpdateSeries(s, req, first, now, c).state
               == freed.state.(bookings := WithOccurrences(freed.state.bookings, req, w.occurrences, first))
  {
    AcceptedWindow(req.start, req.end, req.until, true, now);
    hide TripsConstraint, Clashes, Reconciled, ValidatedWindow, AnyTooLate, Replaceable, Freed, WithOccurrences;
  }

  lemma FreedRows(s: State, req: SeriesRequest, slots: seq<Slot>, now: int, c: Crediting)
    requires Inv(s) && slots != [] && PurchasesBelow(s, c.first) && Freed(s, req, slots, now, c).reply == Done
    ensures var swept, freed := Reconciled(s, Span(req.room, slots), now), Freed(s, req, slots, now, c).state;
            && freed.bookings.Keys == s.bookings.Keys
            && (forall b | b in s.bookings && s.bookings[b].series == Some(req.series) ::
                  freed.bookings[b] == if s.bookings[b].start > now && Occupies(s.bookings[b].status)
                                       then s.bookings[b].(status := Cancelled) else s.bookings[b])
            && freed.ledger.debits == swept.ledger.debits
            && forall b | b in Replaceable(s.bookings, req.series, now) && b in s.bookings ::
                 Credited(swept.ledger.purchases, freed.ledger.purchases, b, s.bookings[b],
                          RateOf(c.rates, s.bookings[b].room), now)
  {
    var span := Span(req.room, slots);
    ReplaceableRows(s, req.series, span, now);
    SweepKeepsIds(s, span, now);
    FreeingTheRows(s, req, slots, now, c);
    hide Inv, Reconciled, Occupies, InIdOrder, Freed, Credited, RateOf, CreditsFit, OnlyCredits, PurchasesBelow;
  }

  /** Cancelling the rest of a series is all or nothing: every remaining
      occurrence with the credit it leaves, or a refusal because one starts too
      soon or has a credit too large, and nothing changed. Nothing edits it again. */
  lemma CancelSeriesIsAllOrNothing(s: State, series: SeriesId, from: Option<int>, now: int, c: Crediting)
    requires Inv(s) && PurchasesBelow(s, c.first)
    ensures var r := CancelSeries(s, series, from, now, c);
            var rows := Remaining(s.bookings, series, from, now);
            && Inv(r.state) && (!r.reply.Booked? ==> r.state == s)
            && (r.reply.Booked? <==> !AnyTooLate(s.bookings, rows, now) && CreditsFit(s, rows, c.rates))
            && (r.reply.Booked? ==>
                  && r.state.bookings == CancelRows(s.bookings, rows) && r.state.ledger.debits == s.ledger.debits
                  && r.state.sessions == s.sessions && r.state.blocks == s.blocks && r.state.closed == s.closed + {series}
                  && forall b | b in rows && b in s.bookings ::
                       Credited(s.ledger.purchases, r.state.ledger.purchases, b, s.bookings[b],
                                RateOf(c.rates, s.bookings[b].room), now))
  {
    var rows := Remaining(s.bookings, series, from, now);
    assert forall b | b in rows :: b in s.bookings && s.bookings[b].series.Some? && Occupies(s.bookings[b].status);
    hide Inv, AnyTooLate, Remaining, InIdOrder, Credited, RateOf, OnlyCredits, CreditIds, CreditsFit;
    CancellableRows(s, rows, c.first);
    hide PurchasesBelow, Cancellable;
    CancellingEach(s, InIdOrder(rows), now, c.rates, c.first);
    if CancelSeries(s, series, from, now, c).reply.Booked? {
      ClosingKeepsInv(CancelEach(s, InIdOrder(rows), now, c.rates, c.first).state, s.closed + {series});
    }
  }

  lemma ClosingKeepsInv(s: State, closed: set<SeriesId>)
    requires Inv(s)
    ensures Inv(s.(closed := closed))
  {
    hide BooksMatch, CreditsMatch, NoDoubleBooking, SessionsMatch;
  }
}
