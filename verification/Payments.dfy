/** Money: a booking's payment is applied once, whatever happens around it. */
module Payments {
  import opened Model
  import opened Ledgers
  import opened WalkOptimality
  import opened Settlement
  import opened Credit
  import opened Books
  import opened Lifecycle
  import opened Invariant
  import opened Preservation
  import opened Recurrence
  import opened Series
  import opened KeptBooks
  import opened Runs

  // ---- what no event takes back ------------------------------------------------------------

  /** What was agreed of a booking. */
  predicate SameTerms(bk: Booking, bk': Booking) {
    && bk'.user == bk.user && bk'.org == bk.org && bk'.payment == bk.payment && bk'.amount == bk.amount
    && bk'.duration == bk.duration && bk'.share == bk.share
  }

  /** Bookings stay, and keep their terms unless they are among `moved`; a
      payment once recorded stays as it is; sessions stay with their booking,
      and one that was paid, or can no longer be, stays so; a cancelled series
      stays cancelled. */
  ghost predicate Remembers(s: State, s': State, moved: set<BookingId> := {}) {
    && (forall b | b in s.bookings ::
          && b in s'.bookings
          && (s.bookings[b].paidAt.Some? ==> s'.bookings[b].paidAt == s.bookings[b].paidAt)
          && (b !in moved ==> SameTerms(s.bookings[b], s'.bookings[b])))
    && (forall x | x in s.sessions ::
          && x in s'.sessions && s'.sessions[x].booking == s.sessions[x].booking
          && (s.sessions[x].state != Open ==> s'.sessions[x].state == s.sessions[x].state))
    && s.closed <= s'.closed
  }

  lemma RememberingTwice(s: State, s1: State, s2: State, moved: set<BookingId> := {})
    requires Remembers(s, s1, moved) && Remembers(s1, s2, moved)
    ensures Remembers(s, s2, moved)
  {
  }

  lemma RememberingLess(s: State, s': State, moved: set<BookingId>, more: set<BookingId>)
    requires Remembers(s, s', moved) && moved <= more
    ensures Remembers(s, s', more)
  {
  }

  lemma ReconcilingRemembers(s: State, scope: Scope, now: int)
    ensures Remembers(s, Reconciled(s, scope, now))
  {
    hide Released;
  }

  lemma WritingRemembers(s: State, s': State, b: BookingId, moved: set<BookingId> := {})
    requires b in s.bookings && b in s'.bookings && s'.bookings == s.bookings[b := s'.bookings[b]]
    requires s'.sessions == s.sessions && s.closed <= s'.closed
    requires s.bookings[b].paidAt.Some? ==> s'.bookings[b].paidAt == s.bookings[b].paidAt
    requires b !in moved ==> SameTerms(s.bookings[b], s'.bookings[b])
    ensures Remembers(s, s', moved)
  {
  }

  /** New rows and new sessions next to the old ones. */
  lemma AddingRemembers(s: State, s': State)
    requires forall b | b in s.bookings :: b in s'.bookings && s'.bookings[b] == s.bookings[b]
    requires forall x | x in s.sessions :: x in s'.sessions && s'.sessions[x] == s.sessions[x]
    requires s.closed <= s'.closed
    ensures Remembers(s, s')
  {
  }

  lemma ClosingRemembers(s: State, x: SessionId)
    ensures Remembers(s, s.(sessions := Close(s.sessions, x)))
  {
  }

  lemma CreateIsAnAddition(s: State, cal: Calendar, req: Request, id: BookingId, x: SessionId, now: int, rate: int, up: bool)
    requires id !in s.bookings && x !in s.sessions && rate >= 0
    ensures var r := Create(s, cal, req, id, x, now, rate, up).state;
            var before := BeforeCreate(s, req, now);
            r == s || (&& (forall b | b in before.bookings :: b in r.bookings && r.bookings[b] == before.bookings[b])
                       && (forall y | y in before.sessions :: y in r.sessions && r.sessions[y] == before.sessions[y])
                       && r.closed == before.closed)
  {
    hide *;
    CreateCases(s, cal, req, id, x, now, rate, up);
    BeforeCreateKeepsIds(s, req, now);
  }

  lemma BeforeCreateRemembers(s: State, req: Request, now: int)
    ensures Remembers(s, BeforeCreate(s, req, now))
  {
    hide Reconciled, Remembers;
    var swept := Reconciled(s, RoomWindow(req.room, req.start, req.end), now);
    ReconcilingRemembers(s, RoomWindow(req.room, req.start, req.end), now);
    ReconcilingRemembers(swept, OfUser(req.user), now);
    AddingRemembers(swept, swept);
    RememberingTwice(s, swept, BeforeCreate(s, req, now));
  }

  lemma CreateRemembers(s: State, e: Event)
    requires e.step.Book? && IsFresh(s, e.step)
    ensures Remembers(s, Create(s, e.step.cal, e.step.req, e.step.id, e.step.session, e.now, e.step.rate, e.step.providerUp).state)
  {
    CreateIsAnAddition(s, e.step.cal, e.step.req, e.step.id, e.step.session, e.now, e.step.rate, e.step.providerUp);
    hide Create, BeforeCreate;
    var r := Create(s, e.step.cal, e.step.req, e.step.id, e.step.session, e.now, e.step.rate, e.step.providerUp).state;
    if r == s {
      AddingRemembers(s, r);
    } else {
      hide Remembers;
      BeforeCreateRemembers(s, e.step.req, e.now);
      AddingRemembers(BeforeCreate(s, e.step.req, e.now), r);
      RememberingTwice(s, BeforeCreate(s, e.step.req, e.now), r);
    }
  }

  lemma ReceivingRemembers(s: State, s': State, b: BookingId, status: Status, now: int)
    requires b in s.bookings && s'.bookings == s.bookings[b := Received(s.bookings[b], status, now)]
    requires s'.sessions == s.sessions && s'.closed == s.closed
    ensures Remembers(s, s')
  {
  }

  lemma CompletionRemembers(s: State, x: SessionId, now: int)
    ensures Remembers(s, CheckoutCompleted(s, x, now).state)
  {
    hide *;
    AddingRemembers(s, s);
    CompletionCases(s, x, now);
    if CanStillBePaid(s.bookings, s.sessions, x) {
      PayableMeans(s, x);
      var b := s.sessions[x].booking;
      var bk := s.bookings[b];
      var after := CheckoutCompleted(s, x, now).state;
      if PaidInTime(bk, now) {
        ReceivingRemembers(s, after, b, Confirmed, now);
      } else {
        var scope := RoomWindow(bk.room, bk.start, bk.end);
        var swept := Reconciled(s, scope, now);
        ReconcilingRemembers(s, scope, now);
        LateCases(swept, b, now);
        UnfulfilledIs(swept, b, now);
        ReceivingRemembers(swept, after, b, if LateConfirmation(swept, b, now).Some? then Confirmed else PaidUnfulfilled, now);
        RememberingTwice(s, swept, after);
      }
    }
  }

  lemma LetGoRemembers(s: State, x: SessionId, now: int)
    ensures Remembers(s, LetGo(s, x, now).state)
  {
    hide SettledStatus;
    forall b | b in HoldsWith(s.bookings, x) ensures Remembers(s, Abandoned(s, b, now)) {
      WritingRemembers(s, Abandoned(s, b, now), b);
    }
    hide Remembers, Abandoned;
  }

  lemma ReopenedRemembers(s0: State, rolledBack: State, s: State, b: BookingId, x: SessionId, now: int, openFails: bool)
    requires b in s.bookings && x !in rolledBack.sessions
    requires Remembers(s0, rolledBack) && Remembers(s0, s.(sessions := rolledBack.sessions))
    ensures Remembers(s0, Reopened(rolledBack, s, b, x, now, openFails).state)
  {
    hide SettledStatus, Excluded;
  }

  lemma ResumeRemembers(s: State, b: BookingId, user: UserId, x: SessionId, now: int, faults: Faults)
    requires x !in s.sessions
    ensures Remembers(s, Resume(s, b, user, x, now, faults).state)
  {
    hide *;
    AddingRemembers(s, s);
    ResumeCases(s, b, user, x, now, faults);
    if ResumeRefusal(s, b, user, now).None? {
      var bk := s.bookings[b];
      var scope := RoomWindow(bk.room, bk.start, bk.end);
      var swept := if LiveHold(bk, now) then s else Reconciled(s, scope, now);
      var closed := if bk.session.Some? then s.(sessions := Close(s.sessions, bk.session.value)) else s;
      ClosingKeepsNames(s.sessions, bk.session, x);
      ReconcilingRemembers(s, scope, now);
      if bk.session.Some? {
        ClosingRemembers(s, bk.session.value);
        ClosingRemembers(swept, bk.session.value);
      } else {
        AddingRemembers(swept, swept);
      }
      RememberingTwice(s, swept, swept.(sessions := closed.sessions));
      ReopenedRemembers(s, closed, swept, b, x, now, faults.open);
    }
  }

  lemma ClosingKeepsNames(sessions: map<SessionId, Session>, session: Option<SessionId>, x: SessionId)
    requires x !in sessions
    ensures session.Some? ==> x !in Close(sessions, session.value)
  {
  }

  lemma CancelRemembers(s: State, b: BookingId, user: UserId, now: int, rate: int, newId: PurchaseId)
    ensures Remembers(s, Cancel(s, b, user, now, rate, newId).state)
  {
    hide SettledStatus, CreditFor;
  }

  lemma EditRemembers(s: State, b: BookingId, next: Status, credited: bool, rate: int, now: int, newId: PurchaseId)
    requires BooksKept(s)
    ensures Remembers(s, EditStatus(s, b, next, credited, rate, now, newId).state)
  {
    var r := EditStatus(s, b, next, credited, rate, now, newId);
    hide *;
    AddingRemembers(s, s);
    EditRefusalsChangeNothing(s, b, next, credited, rate, now, newId);
    if b in s.bookings && r.reply == Done {
      var bk, swept := s.bookings[b], SweptForEdit(s, b, next, now);
      EditCases(s, b, next, credited, rate, now, newId);
      SweepingForEditRemembers(s, b, next, now);
      SweptForEditKept(s, b, next, now);
      KeptParts(swept);
      EditedIds(swept, b, next, now);
      SameTimes(bk, next, now);
      EditKeepsTerms(bk, next, now);
      WritingRemembers(swept, r.state, b);
      RememberingTwice(s, swept, r.state);
    }
  }

  lemma EditRefusalsChangeNothing(s: State, b: BookingId, next: Status, credited: bool, rate: int, now: int, newId: PurchaseId)
    ensures var r := EditStatus(s, b, next, credited, rate, now, newId);
            r.reply != Done || b !in s.bookings ==> r.state == s
  {
    hide Reconciled, SettledStatus, CreditFor, ReversalOf, Excluded, Conflict, CreditReversed, EditedTo;
  }

  lemma SweepingForEditRemembers(s: State, b: BookingId, next: Status, now: int)
    requires b in s.bookings
    ensures Remembers(s, SweptForEdit(s, b, next, now))
  {
    var bk := s.bookings[b];
    hide Remembers, Reconciled;
    AddingRemembers(s, s);
    ReconcilingRemembers(s, RoomWindow(bk.room, bk.start, bk.end), now);
  }

  lemma EditKeepsTerms(bk: Booking, next: Status, now: int)
    ensures SameTerms(bk, EditedTo(bk, next, now)) && EditedTo(bk, next, now).paidAt == bk.paidAt
  {
  }

  lemma MoveRemembers(s: State, cal: Calendar, b: BookingId, room: RoomId, start: int, end: int, now: int)
    requires forall k | k in s.ledger.debits :: k.purchase in s.ledger.purchases
    ensures Remembers(s, MoveTo(s, cal, b, room, start, end, now).state, {b})
  {
    var r := MoveTo(s, cal, b, room, start, end, now);
    var scope := RoomWindow(room, start, end);
    hide *;
    MoveCasesOf(s, cal, b, room, start, end, now);
    AddingRemembers(s, s);
    RememberingLess(s, s, {}, {b});
    ReconcilingRemembers(s, scope, now);
    RememberingLess(s, Reconciled(s, scope, now), {}, {b});
    if r != Result(s, r.reply) {
      var swept := if Occupies(s.bookings[b].status) then Reconciled(s, scope, now) else s;
      var bk := swept.bookings[b];
      MovedRowIs(bk, room, start, end, SettledMove(swept.ledger, b, bk, WholeHours(start, end), now).share, now);
      WritingRemembers(swept, r.state, b, {b});
      RememberingTwice(s, swept, r.state, {b});
    }
  }

  lemma SeriesIsAnAddition(s: State, req: SeriesRequest, slots: seq<Slot>, first: BookingId)
    requires IdsAbove(s, first)
    ensures Remembers(s, s.(bookings := WithOccurrences(s.bookings, req, slots, first)))
  {
    OccurrencesWritten(s.bookings, req, slots, first);
    AddingRemembers(s, s.(bookings := WithOccurrences(s.bookings, req, slots, first)));
  }

  /** Cancelled occurrences change nothing a customer was promised but their status. */
  lemma CancellingRowsRemembers(s: State, s': State)
    requires OnlyCancels(s, s')
    ensures Remembers(s, s')
  {
  }

  lemma FreeingRemembers(s: State, req: SeriesRequest, slots: seq<Slot>, now: int, c: Crediting)
    requires BooksKept(s) && slots != [] && PurchasesBelow(s, c.first)
    ensures var freed := Freed(s, req, slots, now, c).state;
            Remembers(s, freed) && freed.bookings.Keys == s.bookings.Keys
  {
    hide *;
    var span := Span(req.room, slots);
    var swept, freed := Reconciled(s, span, now), Freed(s, req, slots, now, c).state;
    FreedKept(s, req, slots, now, c);
    FreeingKeepsIds(s, span, now, freed);
    ReconcilingRemembers(s, span, now);
    CancellingRowsRemembers(swept, freed);
    RememberingTwice(s, swept, freed);
  }

  lemma BookSeriesRemembers(s: State, req: SeriesRequest, first: BookingId, now: int)
    requires IdsAbove(s, first)
    ensures Remembers(s, CreateSeries(s, req, first, now).state)
  {
    AcceptedWindow(req.start, req.end, req.until, false, now);
    hide ValidatedWindow, TripsConstraint, Clashes, Reconciled, WithOccurrences, InOrder;
    AddingRemembers(s, s);
    var window := ValidatedWindow(req.start, req.end, req.until, false, now);
    if window.Good? {
      var swept := Reconciled(s, Span(req.room, window.occurrences), now);
      hide Remembers;
      SweepKeepsIds(s, Span(req.room, window.occurrences), now);
      ReconcilingRemembers(s, Span(req.room, window.occurrences), now);
      SeriesIsAnAddition(swept, req, window.occurrences, first);
      RememberingTwice(s, swept, swept.(bookings := WithOccurrences(swept.bookings, req, window.occurrences, first)));
    }
  }

  lemma EditSeriesRemembers(s: State, req: SeriesRequest, first: BookingId, now: int, c: Crediting)
    requires BooksKept(s) && IdsAbove(s, first) && PurchasesBelow(s, c.first)
    ensures Remembers(s, UpdateSeries(s, req, first, now, c).state)
  {
    hide *;
    AddingRemembers(s, s);
    SeriesEditCases(s, req, first, now, c);
    var r := UpdateSeries(s, req, first, now, c);
    if r.reply.Booked? {
      var slots := ValidatedWindow(req.start, req.end, req.until, true, now).occurrences;
      var freed := Freed(s, req, slots, now, c).state;
      FreeingRemembers(s, req, slots, now, c);
      SameIds(s, freed, first);
      SeriesIsAnAddition(freed, req, slots, first);
      RememberingTwice(s, freed, r.state);
    }
  }

  lemma SameIds(s: State, s': State, first: BookingId)
    requires IdsAbove(s, first) && s'.bookings.Keys == s.bookings.Keys
    ensures IdsAbove(s', first)
  {
  }

  lemma DropSeriesRemembers(s: State, id: SeriesId, from: Option<int>, now: int, c: Crediting)
    requires BooksKept(s) && PurchasesBelow(s, c.first)
    ensures Remembers(s, CancelSeries(s, id, from, now, c).state)
  {
    hide *;
    CancelSeriesKept(s, id, from, now, c);
    CancellingRowsRemembers(s, CancelSeries(s, id, from, now, c).state);
  }

  lemma SmallStepsRemember(s: State, x: SessionId, p: PurchaseId, blocks: set<Block>, paid: bool)
    ensures Remembers(s, Pay(s, x)) && Remembers(s, RunOut(s, x))
    ensures Remembers(s, SettlePurchase(s, p, paid)) && Remembers(s, s.(blocks := blocks))
  {
  }

  /** The booking an event moves, if it is a move. */
  function MovedBy(e: Event): set<BookingId> {
    if e.step.MoveBooking? then {e.step.b} else {}
  }

  lemma CheckoutRemembers(s: State, e: Event)
    requires IsFresh(s, e.step) && AtTheCheckout(e.step)
    ensures Remembers(s, Applied(s, e))
  {
    hide Remembers, Create, CheckoutCompleted, LetGo, Resume, Cancel, Pay, RunOut;
    match e.step
    case Book(_, _, _, _, _, _) => CreateRemembers(s, e);
    case CustomerPays(session) => SmallStepsRemember(s, session, 0, {}, true);
    case SessionRunsOut(session) => SmallStepsRemember(s, session, 0, {}, true);
    case CompletionArrives(session) => CompletionRemembers(s, session, e.now);
    case ExpiryArrives(session) => LetGoRemembers(s, session, e.now);
    case PayAgain(b, user, session, faults) => ResumeRemembers(s, b, user, session, e.now, faults);
    case CancelBooking(b, user, rate, newId) => CancelRemembers(s, b, user, e.now, rate, newId);
  }

  lemma SeriesRemembers(s: State, e: Event)
    requires BooksKept(s) && IsFresh(s, e.step) && OfASeries(e.step)
    ensures Remembers(s, Applied(s, e))
  {
    hide BooksKept, Remembers, CreateSeries, UpdateSeries, CancelSeries;
    match e.step
    case BookSeries(req, first) => BookSeriesRemembers(s, req, first, e.now);
    case EditSeries(req, first, c) => EditSeriesRemembers(s, req, first, e.now, c);
    case DropSeries(id, from, c) => DropSeriesRemembers(s, id, from, e.now, c);
  }

  lemma OfficeRemembers(s: State, e: Event)
    requires BooksKept(s) && IsFresh(s, e.step) && !AtTheCheckout(e.step) && !OfASeries(e.step)
    ensures Remembers(s, Applied(s, e), MovedBy(e))
  {
    hide BooksKept, Remembers, EditStatus, MoveTo, Reconciled, SettlePurchase;
    match e.step
    case EditBooking(b, next, credited, rate, newId) => EditRemembers(s, b, next, credited, rate, e.now, newId);
    case MoveBooking(cal, b, room, start, end) =>
      RowsPoint(s);
      MoveRemembers(s, cal, b, room, start, end, e.now);
    case Reconcile(scope) => ReconcilingRemembers(s, scope, e.now);
    case BuyPack(p, user, org, hours, expires, paid) => AddingRemembers(s, Applied(s, e));
    case SettlePack(p, paid) => SmallStepsRemember(s, 0, p, {}, paid);
    case ChangeBlocks(blocks) => SmallStepsRemember(s, 0, 0, blocks, true);
  }

  lemma AppliedRemembers(s: State, e: Event)
    requires BooksKept(s)
    ensures Remembers(s, Applied(s, e), MovedBy(e))
  {
    hide *;
    if !IsFresh(s, e.step) {
      NotApplied(s, e);
      AddingRemembers(s, s);
    } else if AtTheCheckout(e.step) {
      CheckoutRemembers(s, e);
    } else if OfASeries(e.step) {
      SeriesRemembers(s, e);
    } else {
      OfficeRemembers(s, e);
      return;
    }
    RememberingLess(s, Applied(s, e), {}, MovedBy(e));
  }

  function AllMoved(events: seq<Event>): set<BookingId> {
    if events == [] then {} else MovedBy(events[0]) + AllMoved(events[1..])
  }

  lemma {:induction false} AnyRunRemembers(s: State, events: seq<Event>)
    requires BooksKept(s)
    ensures Remembers(s, AfterAny(s, events), AllMoved(events))
    decreases |events|
  {
    hide BooksKept, Applied, Remembers, MovedBy;
    if events == [] {
      AddingRemembers(s, s);
    } else {
      var next := Applied(s, events[0]);
      AppliedKept(s, events[0]);
      AppliedRemembers(s, events[0]);
      AnyRunRemembers(next, events[1..]);
      RememberingLess(s, next, MovedBy(events[0]), AllMoved(events));
      RememberingLess(next, AfterAny(s, events), AllMoved(events[1..]), AllMoved(events));
      RememberingTwice(s, next, AfterAny(s, events), AllMoved(events));
    }
  }

  lemma {:induction false} OrderlyRunsMoveNoMore(s: State, events: seq<Event>)
    ensures AllMoved(Orderly(s, events)) <= AllMoved(events)
    decreases |events|
  {
    hide Next, StaysInOrder, MovedBy;
    if events != [] {
      OrderlyRunsMoveNoMore(Next(s, events[0]), events[1..]);
      var rest := Orderly(Next(s, events[0]), events[1..]);
      assert ([events[0]] + rest)[1..] == rest && [] + rest == rest;
    }
  }

  lemma RunsRemember(s: State, events: seq<Event>)
    requires Inv(s)
    ensures Remembers(s, After(s, events), AllMoved(events))
  {
    hide *;
    InvKeepsBooks(s);
    OrderlyRunsAreRuns(s, events);
    AnyRunRemembers(s, Orderly(s, events));
    OrderlyRunsMoveNoMore(s, events);
    RememberingLess(s, After(s, events), AllMoved(Orderly(s, events)), AllMoved(events));
  }

  /** No edit of a series that was cancelled is accepted again, ever. */
  lemma CancelledSeriesStaysCancelled(s: State, id: SeriesId, from: Option<int>, now: int, c: Crediting, events: seq<Event>,
                                      req: SeriesRequest, first: BookingId, later: int, c': Crediting)
    requires BooksKept(s) && PurchasesBelow(s, c.first) && req.series == id
    requires CancelSeries(s, id, from, now, c).reply.Booked?
    ensures var s' := AfterAny(CancelSeries(s, id, from, now, c).state, events);
            UpdateSeries(s', req, first, later, c') == SeriesResult(s', Unmovable(AlreadyClosed))
  {
    var t := CancelSeries(s, id, from, now, c).state;
    assert id in t.closed by { hide CancelEach, AnyTooLate, Remaining, InIdOrder; }
    hide *;
    CancelSeriesKept(s, id, from, now, c);
    AnyRunRemembers(t, events);
    ClosedStays(t, AfterAny(t, events), AllMoved(events));
    SeriesEditCases(AfterAny(t, events), req, first, later, c');
  }

  lemma ClosedStays(s: State, s': State, moved: set<BookingId>)
    requires Remembers(s, s', moved)
    ensures s.closed <= s'.closed
  {
  }

  // ---- the payment theorems -------------------------------------------------------------------

  /** Whatever the operator edits or moves, at most one session of a booking can
      be paid or was, and it is the current one. */
  lemma OnePayableSession(blocks: set<Block>, events: seq<Event>, x: SessionId)
    ensures var s := AfterAny(EmptyState(blocks), events);
            x in s.sessions && s.sessions[x].state != Closed ==>
              && s.sessions[x].booking in s.bookings
              && s.bookings[s.sessions[x].booking].session == Some(x)
              && forall y | y in s.sessions && y != x && s.sessions[y].booking == s.sessions[x].booking ::
                   s.sessions[y].state == Closed
  {
    EmptyStateIsFine(blocks);
    InvKeepsBooks(EmptyState(blocks));
    AnyRunKeepsBooks(EmptyState(blocks), events);
    hide Applied, AfterAny, BooksMatch, CreditsMatch, NoDoubleBooking;
  }

  /** However a run goes on, edits and moves of any kind included, a session the
      customer paid stays the booking's session for good, and a payment once
      recorded keeps its moment. */
  lemma PaidSessionIsNeverReplaced(s: State, x: SessionId, events: seq<Event>)
    requires BooksKept(s) && x in s.sessions && s.sessions[x].state == Paid
    ensures var s', b := AfterAny(s, events), s.sessions[x].booking;
            && x in s'.sessions && s'.sessions[x] == s.sessions[x]
            && b in s.bookings && b in s'.bookings && s'.bookings[b].session == Some(x)
            && (s.bookings[b].paidAt.Some? ==> s'.bookings[b].paidAt == s.bookings[b].paidAt)
  {
    AnyRunRemembers(s, events);
    AnyRunKeepsBooks(s, events);
    hide AfterAny, BooksMatch, CreditsMatch, NoDoubleBooking, SameTerms;
  }

  /** Who holds a slot now is the same before and after a reconciliation. */
  lemma ReconcilingKeepsConflicts(s: State, scope: Scope, room: RoomId, start: int, end: int, except: Option<BookingId>,
                                  now: int)
    ensures Conflict(Reconciled(s, scope, now), room, start, end, except, now) <==> Conflict(s, room, start, end, except, now)
  {
    hide Released;
    var swept := Reconciled(s, scope, now).bookings;
    forall b | b in s.bookings ensures HoldsSlot(swept[b], now) == HoldsSlot(s.bookings[b], now) {}
    if BookedOver(s.bookings, room, start, end, except, now) {
      var b :| b in s.bookings && Some(b) != except && s.bookings[b].room == room && HoldsSlot(s.bookings[b], now)
               && Overlap(s.bookings[b].start, s.bookings[b].end, start, end);
      assert b in swept && swept[b].room == room && HoldsSlot(swept[b], now);
    }
  }

  /** The hours an unpaid hold needs again are there: once its room is
      reconciled, the customer's spendable hours but for the booking's own
      credit cover its share, unless the hold still has it. */
  ghost predicate HoursThere(s: State, b: BookingId, now: int)
    requires b in s.bookings
  {
    var bk := s.bookings[b];
    var swept := Reconciled(s, RoomWindow(bk.room, bk.start, bk.end), now);
    HoldsHours(swept.bookings[b].status)
    || bk.share <= Available(BankOrder(swept.ledger.purchases, bk.user, bk.org, now), swept.ledger.purchases, now, Some(b))
  }

  /** The ledger takes the share again exactly when the hours are there. */
  lemma HoursThereDecides(l: Ledger, b: BookingId, bk: Booking, previous: Status, now: int)
    requires 0 <= bk.share
    ensures SettledStatus(l, b, bk, previous, Confirmed, now).Some?
            <==> HoldsHours(previous)
                 || bk.share <= Available(BankOrder(l.purchases, bk.user, bk.org, now), l.purchases, now, Some(b))
  {
    var order := BankOrder(l.purchases, bk.user, bk.org, now);
    WalkTakesAllItCan(order, l.purchases, bk.share, now, Some(b));
    hide BankOrder, WalkDraws, TotalDrawn, Drawn;
  }

  lemma LateDelivery(s: State, b: BookingId, x: SessionId, now: int)
    requires b in s.bookings && s.bookings[b].paidAt.None? && s.bookings[b].session == Some(x) && 0 <= s.bookings[b].share
    requires x in s.sessions && s.sessions[x] == Session(b, Paid)
    requires UnpaidHold(s.bookings[b]) && !PaidInTime(s.bookings[b], now)
    ensures var r := CheckoutCompleted(s, x, now);
            && r.reply == Done && b in r.state.bookings
            && var bk, bk' := s.bookings[b], r.state.bookings[b];
            && bk'.paidAt == Some(now) && bk'.holdExpires == None && bk'.session == Some(x)
            && bk'.status == (if !Conflict(s, bk.room, bk.start, bk.end, Some(b), now) && HoursThere(s, b, now)
                              then Confirmed else PaidUnfulfilled)
  {
    var bk := s.bookings[b];
    var scope := RoomWindow(bk.room, bk.start, bk.end);
    var swept := Reconciled(s, scope, now);
    ReconcilingKeepsConflicts(s, scope, bk.room, bk.start, bk.end, Some(b), now);
    SweepingTheOwnWindow(s, b, scope, now);
    hide Reconciled, BookedOver, BlockedOver;
    if !Conflict(swept, bk.room, bk.start, bk.end, Some(b), now) {
      FreeSlotIsNotExcluded(s, bk.room, bk.start, bk.end, b, now, Received(swept.bookings[b], Confirmed, now));
    }
    hide Excluded, Conflict, SettledStatus;
    HoursThereDecides(swept.ledger, b, swept.bookings[b], swept.bookings[b].status, now);
    hide Available, BankOrder;
  }

  /** The first delivery for a paid session records the payment, and confirms
      the booking unless the money came late and the slot or the hours are gone.
      A delivery for a payment already recorded changes nothing. */
  lemma EveryDelivery(s: State, x: SessionId, now: int)
    requires Inv(s) && x in s.sessions && s.sessions[x].state == Paid
    ensures var b := s.sessions[x].booking;
            var r := CheckoutCompleted(s, x, now);
            && b in s.bookings && b in r.state.bookings
            && (s.bookings[b].paidAt.Some? ==> r == Result(s, Ignored))
            && (s.bookings[b].paidAt.None? ==>
                  var bk, bk' := s.bookings[b], r.state.bookings[b];
                  && r.reply == Done && bk'.paidAt == Some(now) && bk'.holdExpires == None && bk'.session == Some(x)
                  && bk'.status == (if PaidInTime(bk, now)
                                       || (!Conflict(s, bk.room, bk.start, bk.end, Some(b), now) && HoursThere(s, b, now))
                                    then Confirmed else PaidUnfulfilled))
  {
    var b := s.sessions[x].booking;
    DeliveryFacts(s, x);
    SharesAreNatural(s, b);
    hide Inv, Conflict, HoursThere, Reconciled, LateConfirmation, Unfulfilled;
    if s.bookings[b].paidAt.None? && !PaidInTime(s.bookings[b], now) {
      LateDelivery(s, b, x, now);
    }
  }

  lemma SharesAreNatural(s: State, b: BookingId)
    requires Inv(s) && b in s.bookings
    ensures 0 <= s.bookings[b].share
  {
    BooksFitShares(s, b);
  }

  lemma DeliveryFacts(s: State, x: SessionId)
    requires Inv(s) && x in s.sessions && s.sessions[x].state == Paid
    ensures var b := s.sessions[x].booking;
            && b in s.bookings && s.bookings[b].session == Some(x)
            && (s.bookings[b].paidAt.None? <==> UnpaidHold(s.bookings[b]))
  {
    hide BooksMatch, CreditsMatch, NoDoubleBooking;
    assert PaymentState(s.bookings[s.sessions[x].booking]);
  }

  /** However an orderly run goes on after a payment is recorded, cancellations
      and reinstatements included, its moment never changes and every further
      delivery of it is ignored. */
  lemma PaymentIsAppliedOnce(s: State, x: SessionId, now: int, events: seq<Event>, later: int)
    requires Inv(s) && x in s.sessions && s.sessions[x].state == Paid
    ensures var r := CheckoutCompleted(s, x, now);
            && Inv(r.state)
            && var s', b := After(r.state, events), s.sessions[x].booking;
            && b in s'.bookings
            && s'.bookings[b].paidAt == (if s.bookings[b].paidAt.Some? then s.bookings[b].paidAt else Some(now))
            && CheckoutCompleted(s', x, later) == Result(s', Ignored)
  {
    hide Next, HoursThere, Conflict, CheckoutCompleted, BooksMatch, CreditsMatch, NoDoubleBooking, PaymentState;
    EveryDelivery(s, x, now);
    CompletionIsSound(s, x, now);
    CompletionRemembers(s, x, now);
    var t := CheckoutCompleted(s, x, now).state;
    hide SessionsMatch;
    RunsRemember(t, events);
    RunKeepsInv(t, events);
    EveryDelivery(After(t, events), x, later);
  }

  // ---- what an operator's edit does to money that is due ------------------------------------------

  /** `row` is what an edit that set the status to `next` made of `bk`, whatever
      it did to the time, the room, the share and the price besides. */
  ghost predicate EditedFrom(bk: Booking, row: Booking, next: Status) {
    exists t :: row == EditedTo(bk, next, t).(room := row.room, start := row.start, end := row.end,
                                              duration := row.duration, share := row.share, amount := row.amount)
  }

  /** An operator may set any status on any booking, and the checkout stays
      open. Money for it that arrives afterwards is ignored if and only if the
      status set is not one in which money is waited for, whatever the status
      was before. */
  lemma EditedMoneyIsIgnoredExactlyIf(s: State, edited: State, x: SessionId, next: Status, now: int)
    requires Inv(s) && x in s.sessions && s.sessions[x].state == Paid && edited.sessions == s.sessions
    requires var b := s.sessions[x].booking;
             b in s.bookings && b in edited.bookings
             && (EditedFrom(s.bookings[b], edited.bookings[b], next)
                 || EditedFrom(s.bookings[b].(status := Expired), edited.bookings[b], next))
    ensures CheckoutCompleted(edited, x, now) == Result(edited, Ignored) <==> !AwaitsPayment(next)
  {
    var b := s.sessions[x].booking;
    DeliveryFacts(s, x);
    PayableRow(s, b);
    hide Inv, Reconciled, LateConfirmation, Unfulfilled, PaidInTime, PaymentState;
    assert UnpaidHold(edited.bookings[b]) <==> AwaitsPayment(next);
  }

  lemma PayableRow(s: State, b: BookingId)
    requires Inv(s) && b in s.bookings && s.bookings[b].session.Some?
    ensures var bk := s.bookings[b];
            bk.series.None? && (bk.payment == Hourly || bk.payment == Mixed) && (bk.status == Pending ==> bk.holdExpires.Some?)
  {
    assert PaymentState(s.bookings[b]);
  }

  /** So of the edits of a booking not yet paid, exactly those that set it to
      confirmed, cancelled, completed or paid_unfulfilled drop the money: the
      customer has paid, and the delivery after this edit records nothing,
      whenever it comes. */
  lemma EditDropsMoneyExactlyIf(s: State, x: SessionId, next: Status, credited: bool, rate: int, now: int,
                                newId: PurchaseId, later: int)
    requires Inv(s) && x in s.sessions && s.sessions[x].state == Paid
    requires s.sessions[x].booking in s.bookings
    ensures var b := s.sessions[x].booking;
            var r := EditStatus(s, b, next, credited, rate, now, newId);
            r.reply == Done ==>
              && b in r.state.bookings && r.state.bookings[b].paidAt == s.bookings[b].paidAt
              && (CheckoutCompleted(r.state, x, later) == Result(r.state, Ignored)
                  <==> next == Confirmed || next == Cancelled || next == Completed || next == PaidUnfulfilled)
  {
    var b := s.sessions[x].booking;
    var r := EditStatus(s, b, next, credited, rate, now, newId);
    if r.reply == Done {
      var bk, swept := s.bookings[b], SweptForEdit(s, b, next, now);
      hide *;
      EditCases(s, b, next, credited, rate, now, newId);
      SweptForEditIsSound(s, b, next, now);
      BooksAndCredits(swept);
      EditedIds(swept, b, next, now);
      EditKeepsTerms(bk, next, now);
      EditIsAnEdit(bk, next, now);
      EditedMoneyIsIgnoredExactlyIf(s, r.state, x, next, later);
      WaitingStatuses(next);
    }
  }

  lemma WaitingStatuses(next: Status)
    ensures !AwaitsPayment(next) <==> next == Confirmed || next == Cancelled || next == Completed || next == PaidUnfulfilled
  {
  }

  lemma EditIsAnEdit(bk: Booking, next: Status, now: int)
    ensures EditedFrom(bk, EditedTo(bk, next, now), next)
  {
    assert EditedTo(bk, next, now) == EditedTo(bk, next, now).(room := EditedTo(bk, next, now).room);
  }

  /** A move sets no status, and drops the money for a booking not yet paid
      exactly if the customer had cancelled it. */
  lemma MoveDropsMoneyExactlyIf(s: State, cal: Calendar, x: SessionId, room: RoomId, start: int, end: int, now: int, later: int)
    requires Inv(s) && x in s.sessions && s.sessions[x].state == Paid
    requires s.sessions[x].booking in s.bookings && s.bookings[s.sessions[x].booking].paidAt.None?
    ensures (forall k | k in s.ledger.debits :: k.purchase in s.ledger.purchases)
    ensures var b := s.sessions[x].booking;
            var r := MoveTo(s, cal, b, room, start, end, now);
            r != Result(s, r.reply) ==>
              && b in r.state.bookings && r.state.bookings[b].paidAt.None?
              && (CheckoutCompleted(r.state, x, later) == Result(r.state, Ignored) <==> s.bookings[b].status == Cancelled)
  {
    RowsHavePurchases(s);
    var b := s.sessions[x].booking;
    var r := MoveTo(s, cal, b, room, start, end, now);
    hide *;
    if r != Result(s, r.reply) {
      var scope := RoomWindow(room, start, end);
      MoveCasesOf(s, cal, b, room, start, end, now);
      SweepingTheOwnWindow(s, b, scope, now);
      OccupiesMeans(s.bookings[b].status);
      var swept := if Occupies(s.bookings[b].status) then Reconciled(s, scope, now) else s;
      var bk := swept.bookings[b];
      DeliveryFacts(s, x);
      UnpaidStatuses(s.bookings[b]);
      var share := SettledMove(swept.ledger, b, bk, WholeHours(start, end), now).share;
      MoveIsAnEdit(bk, room, start, end, share, now);
      MovedRowIs(bk, room, start, end, share, now);
      EditedMoneyIsIgnoredExactlyIf(s, r.state, x, bk.status, later);
      WaitingStatuses(bk.status);
    }
  }

  lemma UnpaidStatuses(bk: Booking)
    requires UnpaidHold(bk)
    ensures bk.status == Pending || bk.status == Expired || bk.status == Cancelled
  {
  }

  lemma MoveIsAnEdit(bk: Booking, room: RoomId, start: int, end: int, share: int, now: int)
    ensures EditedFrom(bk, MovedRow(bk, room, start, end, share, now), bk.status)
  {
    var row := MovedRow(bk, room, start, end, share, now);
    assert row == EditedTo(bk, bk.status, now).(room := row.room, start := row.start, end := row.end,
                                                duration := row.duration, share := row.share, amount := row.amount);
  }
}
