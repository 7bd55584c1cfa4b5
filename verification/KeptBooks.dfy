/** What no edit can break: whatever an operator sets or moves, the ledger
    matches the bookings, no two bookings share a slot, and a booking has one
    payable session. Of the whole invariant this leaves out how payment fields
    go with a status, and that a credit in circulation belongs to a booking that
    rests cancelled: the two parts an edit can break. */
module KeptBooks {
  import opened Model
  import opened Ledgers
  import opened Settlement
  import opened Credit
  import opened Books
  import opened Lifecycle
  import opened Invariant
  import opened Preservation
  import opened Recurrence
  import opened Series

  ghost predicate BooksKept(s: State) {
    && BooksMatch(s.ledger, s.bookings) && CreditsMatch(s.ledger, s.bookings, false)
    && NoDoubleBooking(s.bookings)
    && SessionsStand(s.bookings, s.sessions)
  }

  lemma KeptParts(s: State)
    requires BooksKept(s)
    ensures BooksMatch(s.ledger, s.bookings) && CreditsMatch(s.ledger, s.bookings, false) && Balanced(s.ledger)
    ensures NoDoubleBooking(s.bookings) && SessionsStand(s.bookings, s.sessions)
  {
    hide Balanced, CreditsMatch, NoDoubleBooking, SessionsStand;
  }

  lemma KeptWhole(s: State)
    requires BooksMatch(s.ledger, s.bookings) && CreditsMatch(s.ledger, s.bookings, false)
    requires NoDoubleBooking(s.bookings) && SessionsStand(s.bookings, s.sessions)
    ensures BooksKept(s)
  {
    hide BooksMatch, CreditsMatch, NoDoubleBooking, SessionsStand;
  }

  lemma InvKeepsBooks(s: State)
    requires Inv(s)
    ensures BooksKept(s)
  {
    StrictlyOrNot(s.ledger, s.bookings);
    hide BooksMatch, CreditsMatch, NoDoubleBooking;
  }

  // ---- rows ----------------------------------------------------------------------------

  /** One row rewritten, and the hours it holds settled. */
  lemma RowKept(s: State, b: BookingId, bk: Booking, ledger: Ledger)
    requires BooksKept(s) && b in s.bookings && bk.session == s.bookings[b].session
    requires BooksMatch(ledger, s.bookings[b := bk]) && CreditsMatch(ledger, s.bookings[b := bk], false)
    requires bk.start < bk.end && !Excluded(s.bookings, b, bk)
    ensures BooksKept(s.(ledger := ledger, bookings := s.bookings[b := bk]))
  {
    hide *;
    KeptParts(s);
    WritingKeepsSlots(s.bookings, b, bk);
    WritingKeepsStanding(s.bookings, s.sessions, b, bk);
    KeptWhole(s.(ledger := ledger, bookings := s.bookings[b := bk]));
  }

  /** A row that keeps its owner, its share, its time and its session. */
  ghost predicate OnlyItsStatus(bk: Booking, bk': Booking) {
    && SameClaim(bk, bk') && bk'.room == bk.room && bk'.start == bk.start && bk'.end == bk.end
    && bk'.session == bk.session
  }

  lemma OnlyItsStatusMeans(bk: Booking, bk': Booking)
    requires OnlyItsStatus(bk, bk')
    ensures SameClaim(bk, bk') && bk'.room == bk.room && bk'.start == bk.start && bk'.end == bk.end && bk'.session == bk.session
  {
    hide SameClaim;
  }

  lemma StatusKept(s: State, b: BookingId, bk: Booking, now: int)
    requires BooksKept(s) && b in s.bookings && OnlyItsStatus(s.bookings[b], bk) && !Excluded(s.bookings, b, bk)
    ensures var settled := SettledStatus(s.ledger, b, s.bookings[b], s.bookings[b].status, bk.status, now);
            settled.Some? ==> BooksKept(s.(ledger := settled.value, bookings := s.bookings[b := bk]))
  {
    hide *;
    var settled := SettledStatus(s.ledger, b, s.bookings[b], s.bookings[b].status, bk.status, now);
    KeptParts(s);
    OnlyItsStatusMeans(s.bookings[b], bk);
    TimesOf(s.bookings, b);
    StatusChangeKeepsBooks(s.ledger, s.bookings, b, bk, now, false);
    if settled.Some? { RowKept(s, b, bk, settled.value); }
  }

  lemma SweepKept(s: State, scope: Scope, now: int)
    requires BooksKept(s)
    ensures BooksKept(Reconciled(s, scope, now))
  {
    var lapsed := LapsedIn(s.bookings, scope, now);
    LapsedRows(s.bookings, scope, now);
    assert Reconciled(s, scope, now) == s.(bookings := Expire(s.bookings, lapsed), ledger := Released(s.ledger, lapsed));
    hide *;
    KeptParts(s);
    ExpiringKeepsBooks(s, lapsed, now, false);
    ExpiringKeepsSlots(s.bookings, lapsed);
    ExpiringKeepsStanding(s.bookings, s.sessions, lapsed);
    KeptWhole(Reconciled(s, scope, now));
  }

  lemma LapsedRows(bookings: BookingTable, scope: Scope, now: int)
    ensures forall b | b in LapsedIn(bookings, scope, now) :: b in bookings && Lapsed(bookings[b], now)
  {
  }

  lemma ExpiringKeepsStanding(bookings: BookingTable, sessions: map<SessionId, Session>, lapsed: set<BookingId>)
    requires SessionsStand(bookings, sessions)
    ensures SessionsStand(Expire(bookings, lapsed), sessions)
  {
  }

  // ---- creating ---------------------------------------------------------------------------

  lemma BeforeCreateKeepsIds(s: State, req: Request, now: int)
    ensures BeforeCreate(s, req, now).sessions == s.sessions && BeforeCreate(s, req, now).bookings.Keys == s.bookings.Keys
  {
    var swept := Reconciled(s, RoomWindow(req.room, req.start, req.end), now);
    SweepKeepsIds(s, RoomWindow(req.room, req.start, req.end), now);
    SweepKeepsIds(swept, OfUser(req.user), now);
    hide Released;
  }

  lemma BeforeCreateKept(s: State, req: Request, now: int)
    requires BooksKept(s)
    ensures BooksKept(BeforeCreate(s, req, now))
  {
    var swept := Reconciled(s, RoomWindow(req.room, req.start, req.end), now);
    hide Reconciled, BooksKept;
    SweepKept(s, RoomWindow(req.room, req.start, req.end), now);
    SweepKept(swept, OfUser(req.user), now);
  }

  lemma NewRowKept(s: State, req: Request, id: BookingId, x: SessionId, now: int, rate: int)
    requires BooksKept(s) && id !in s.bookings && x !in s.sessions && rate >= 0 && req.start < req.end
    requires var share := TotalDrawn(RequestDraws(s.ledger.purchases, req, now));
             0 <= share <= WholeHours(req.start, req.end)
             && !Excluded(s.bookings, id, NewBooking(req, share, rate, x, now))
    ensures var draws := RequestDraws(s.ledger.purchases, req, now);
            var bk := NewBooking(req, TotalDrawn(draws), rate, x, now);
            && (forall d | d in draws :: d.purchase in s.ledger.purchases)
            && BooksKept(s.(ledger := Drawn(s.ledger, id, draws), bookings := s.bookings[id := bk],
                            sessions := if bk.session.Some? then s.sessions[x := Session(id, SessionState.Open)] else s.sessions))
  {
    hide *;
    var draws := RequestDraws(s.ledger.purchases, req, now);
    var bk := NewBooking(req, TotalDrawn(draws), rate, x, now);
    var sessions := if bk.session.Some? then s.sessions[x := Session(id, SessionState.Open)] else s.sessions;
    KeptParts(s);
    RequestDrawsAre(s.ledger.purchases, req, now);
    NewBookingPays(req, TotalDrawn(draws), rate, x, now);
    NewBookingTimes(req, TotalDrawn(draws), rate, x, now);
    InsertingKeepsBooks(s.ledger, s.bookings, req, id, x, now, rate, false);
    WritingKeepsSlots(s.bookings, id, bk);
    if bk.session.Some? {
      OpeningKeepsStanding(s.bookings, s.sessions, id, bk, x);
    } else {
      AddingKeepsStanding(s.bookings, s.sessions, id, bk);
    }
    KeptWhole(s.(ledger := Drawn(s.ledger, id, draws), bookings := s.bookings[id := bk], sessions := sessions));
  }

  lemma AddingKeepsStanding(bookings: BookingTable, sessions: map<SessionId, Session>, b: BookingId, bk: Booking)
    requires SessionsStand(bookings, sessions) && b !in bookings && bk.session.None?
    ensures SessionsStand(bookings[b := bk], sessions)
  {
  }

  lemma CreateKept(s: State, cal: Calendar, req: Request, id: BookingId, x: SessionId, now: int, rate: int, up: bool)
    requires BooksKept(s) && id !in s.bookings && x !in s.sessions && rate >= 0
    ensures BooksKept(Create(s, cal, req, id, x, now, rate, up).state)
  {
    hide *;
    CreateCases(s, cal, req, id, x, now, rate, up);
    var r := Create(s, cal, req, id, x, now, rate, up);
    if r != Result(s, r.reply) {
      var before := BeforeCreate(s, req, now);
      BeforeCreateKept(s, req, now);
      BeforeCreateKeepsIds(s, req, now);
      NewRowKept(before, req, id, x, now, rate);
      DrawnIs(before.ledger, id, RequestDraws(before.ledger.purchases, req, now));
    }
  }

  // ---- paying ---------------------------------------------------------------------------------

  lemma PayKept(s: State, x: SessionId)
    requires BooksKept(s)
    ensures BooksKept(Pay(s, x))
  {
    hide BooksMatch, CreditsMatch, NoDoubleBooking;
  }

  lemma RunOutKept(s: State, x: SessionId)
    requires BooksKept(s)
    ensures BooksKept(RunOut(s, x))
  {
    ClosingKeepsStanding(s.bookings, s.sessions, x);
    hide BooksMatch, CreditsMatch, NoDoubleBooking, SessionsStand, Close;
  }

  lemma ReceivedRow(bk: Booking, status: Status, now: int)
    ensures OnlyItsStatus(bk, Received(bk, status, now)) && Received(bk, status, now).status == status
  {
  }

  lemma InTimeMeans(bk: Booking, now: int)
    requires PaidInTime(bk, now)
    ensures bk.status == Pending && HoldsHours(bk.status) && HoldsHours(Confirmed) && Occupies(bk.status)
  {
  }

  lemma PayableMeans(s: State, x: SessionId)
    requires CanStillBePaid(s.bookings, s.sessions, x)
    ensures x in s.sessions && s.sessions[x].booking in s.bookings
  {
  }

  lemma CompletionKept(s: State, x: SessionId, now: int)
    requires BooksKept(s)
    ensures BooksKept(CheckoutCompleted(s, x, now).state)
  {
    hide *;
    CompletionCases(s, x, now);
    if CanStillBePaid(s.bookings, s.sessions, x) {
      PayableMeans(s, x);
      var b := s.sessions[x].booking;
      var bk := s.bookings[b];
      if PaidInTime(bk, now) {
        PaidInTimeKept(s, b, now);
      } else {
        var swept := Reconciled(s, RoomWindow(bk.room, bk.start, bk.end), now);
        SweepKept(s, RoomWindow(bk.room, bk.start, bk.end), now);
        LateKept(swept, b, now);
        UnfulfilledKept(swept, b, now);
      }
    }
  }

  lemma PaidInTimeKept(s: State, b: BookingId, now: int)
    requires BooksKept(s) && b in s.bookings && PaidInTime(s.bookings[b], now)
    ensures BooksKept(s.(bookings := s.bookings[b := Received(s.bookings[b], Confirmed, now)]))
  {
    hide *;
    var bk := s.bookings[b];
    InTimeMeans(bk, now);
    ReceivedRow(bk, Confirmed, now);
    NothingSettled(s.ledger, b, bk, Confirmed, now);
    KeptParts(s);
    OnlyItsStatusMeans(bk, Received(bk, Confirmed, now));
    StayingIsNotExcluded(s.bookings, b, Received(bk, Confirmed, now));
    StatusKept(s, b, Received(bk, Confirmed, now), now);
    assert s.(ledger := s.ledger, bookings := s.bookings[b := Received(bk, Confirmed, now)])
        == s.(bookings := s.bookings[b := Received(bk, Confirmed, now)]);
  }

  lemma LateKept(s: State, b: BookingId, now: int)
    requires BooksKept(s) && b in s.bookings
    ensures LateConfirmation(s, b, now).Some? ==> BooksKept(LateConfirmation(s, b, now).value)
  {
    hide *;
    LateCases(s, b, now);
    if LateConfirmation(s, b, now).Some? {
      ReceivedRow(s.bookings[b], Confirmed, now);
      StatusKept(s, b, Received(s.bookings[b], Confirmed, now), now);
    }
  }

  lemma UnfulfilledKept(s: State, b: BookingId, now: int)
    requires BooksKept(s) && b in s.bookings
    ensures BooksKept(Unfulfilled(s, b, now))
  {
    var gone := Received(s.bookings[b], PaidUnfulfilled, now);
    assert !Excluded(s.bookings, b, gone);
    hide *;
    UnfulfilledIs(s, b, now);
    ReceivedRow(s.bookings[b], PaidUnfulfilled, now);
    StatusKept(s, b, gone, now);
  }

  lemma AbandonedKept(s: State, b: BookingId, now: int)
    requires BooksKept(s) && b in s.bookings
    ensures BooksKept(Abandoned(s, b, now))
  {
    var gone := s.bookings[b].(status := Expired, holdExpires := Some(now));
    assert !Excluded(s.bookings, b, gone) && OnlyItsStatus(s.bookings[b], gone);
    hide *;
    AbandonedIs(s, b, now);
    StatusKept(s, b, gone, now);
  }

  lemma LetGoKept(s: State, x: SessionId, now: int)
    requires BooksKept(s)
    ensures BooksKept(LetGo(s, x, now).state)
  {
    hide Abandoned, BooksKept;
    forall b | b in HoldsWith(s.bookings, x) ensures BooksKept(Abandoned(s, b, now)) {
      AbandonedKept(s, b, now);
    }
  }

  // ---- resuming ----------------------------------------------------------------------------------

  /** The row held again under a fresh session, its last one closed or none. */
  lemma ReopenedKept(rolledBack: State, s: State, b: BookingId, x: SessionId, now: int, openFails: bool)
    requires BooksKept(rolledBack) && BooksKept(s.(sessions := rolledBack.sessions))
    requires b in s.bookings && x !in rolledBack.sessions
    requires s.bookings[b].session.Some? ==> s.bookings[b].session.value in rolledBack.sessions
                                             && rolledBack.sessions[s.bookings[b].session.value].state == Closed
    ensures BooksKept(Reopened(rolledBack, s, b, x, now, openFails).state)
  {
    var bk := s.bookings[b];
    var held := bk.(status := Pending, holdExpires := Some(now + HOLD_LIFETIME));
    var row := held.(session := Some(x));
    assert SameClaim(bk, row);
    hide *;
    var t := s.(sessions := rolledBack.sessions);
    ReopenedAre(rolledBack, s, b, x, now, openFails);
    KeptParts(t);
    TimesOf(s.bookings, b);
    SessionIsNoSlot(s.bookings, b, held, row);
    StatusChangeKeepsBooks(s.ledger, s.bookings, b, row, now, false);
    OpeningKeepsStanding(s.bookings, t.sessions, b, row, x);
    var r := Reopened(rolledBack, s, b, x, now, openFails);
    if r.state != rolledBack {
      WritingKeepsSlots(s.bookings, b, row);
      KeptWhole(r.state);
    }
  }

  lemma ResumeKept(s: State, b: BookingId, user: UserId, x: SessionId, now: int, faults: Faults)
    requires BooksKept(s) && x !in s.sessions
    ensures BooksKept(Resume(s, b, user, x, now, faults).state)
  {
    hide *;
    ResumeCases(s, b, user, x, now, faults);
    if ResumeRefusal(s, b, user, now).None? {
      var bk := s.bookings[b];
      var scope := RoomWindow(bk.room, bk.start, bk.end);
      var swept := if LiveHold(bk, now) then s else Reconciled(s, scope, now);
      SweepKept(s, scope, now);
      SweepingTheOwnWindow(s, b, scope, now);
      if SessionOf(s, bk) != Some(Paid) {
        if bk.session.Some? {
          KeptParts(s);
          CurrentSession(s, b);
          RunOutIs(s, bk.session.value);
          RunOutIs(swept, bk.session.value);
          RunOutKept(s, bk.session.value);
          RunOutKept(swept, bk.session.value);
        } else {
          assert s == s.(sessions := s.sessions) && swept == swept.(sessions := s.sessions);
        }
        var sessions := if bk.session.Some? then Close(s.sessions, bk.session.value) else s.sessions;
        ReopenedKept(s.(sessions := sessions), swept, b, x, now, faults.open);
      }
    }
  }

  lemma CurrentSession(s: State, b: BookingId)
    requires SessionsStand(s.bookings, s.sessions) && b in s.bookings && s.bookings[b].session.Some?
    ensures var x := s.bookings[b].session.value;
            x in s.sessions && SessionOf(s, s.bookings[b]) == Some(s.sessions[x].state)
  {
  }

  // ---- cancelling -----------------------------------------------------------------------------------

  /** Rows stay as they were or are cancelled, and no session changes. */
  ghost predicate OnlyCancels(s: State, s': State) {
    && s'.bookings.Keys == s.bookings.Keys
    && (forall b | b in s.bookings ::
          s'.bookings[b] == s.bookings[b] || s'.bookings[b] == s.bookings[b].(status := Cancelled))
    && s'.sessions == s.sessions && s.closed <= s'.closed
  }

  lemma OnlyCancelsTwice(s: State, s1: State, s2: State)
    requires OnlyCancels(s, s1) && OnlyCancels(s1, s2)
    ensures OnlyCancels(s, s2)
  {
  }

  lemma OneCancelled(s: State, b: BookingId, s': State)
    requires b in s.bookings && s'.bookings == s.bookings[b := s.bookings[b].(status := Cancelled)]
    requires s'.sessions == s.sessions && s'.closed == s.closed
    ensures OnlyCancels(s, s')
  {
  }

  lemma NoneCancelled(s: State)
    ensures OnlyCancels(s, s)
  {
  }

  lemma CancellationKept(s: State, b: BookingId, now: int, rate: int, newId: PurchaseId)
    requires BooksKept(s) && b in s.bookings && newId !in s.ledger.purchases
    ensures var after := ApplyCancellation(s, b, now, rate, newId).state;
            && BooksKept(after) && OnlyCancels(s, after)
            && after.ledger.purchases.Keys <= s.ledger.purchases.Keys + {newId}
  {
    var bk := s.bookings[b];
    var gone := bk.(status := Cancelled);
    assert !Excluded(s.bookings, b, gone) && OnlyItsStatus(bk, gone) && !HoldsHours(gone.status);
    hide *;
    CancellationIs(s, b, now, rate, newId);
    SettlingKeepsIds(s.ledger, b, bk, bk.status, Cancelled, now);
    StatusKept(s, b, gone, now);
    var settled := SettledStatus(s.ledger, b, bk, bk.status, Cancelled, now).value;
    var t := s.(ledger := settled, bookings := s.bookings[b := gone]);
    CreditReadsTerms(settled.purchases, b, bk, gone, bk.status, rate, now, newId);
    CreditKept(t, b, bk.status, rate, now, newId);
    NoneCancelled(s);
    var after := ApplyCancellation(s, b, now, rate, newId).state;
    if after != s { OneCancelled(s, b, after); }
  }

  /** What a cancellation puts in the bank, if anything. */
  lemma CreditKept(s: State, b: BookingId, previous: Status, rate: int, now: int, newId: PurchaseId)
    requires BooksKept(s) && b in s.bookings && !HoldsHours(s.bookings[b].status) && newId !in s.ledger.purchases
    ensures var credit := CreditFor(s.ledger.purchases, b, s.bookings[b], previous, rate, now, newId);
            credit.CreditRow? ==>
              && (credit.id == newId || credit.id in s.ledger.purchases)
              && BooksKept(s.(ledger := s.ledger.(purchases := s.ledger.purchases[credit.id := credit.row])))
  {
    var credit := CreditFor(s.ledger.purchases, b, s.bookings[b], previous, rate, now, newId);
    assert credit.CreditRow? ==> credit.id == newId || credit.id in s.ledger.purchases by { hide CreditHours; }
    hide *;
    KeptParts(s);
    CreditingKeepsBooks(s.ledger, s.bookings, b, previous, rate, now, newId, false);
    if credit.CreditRow? {
      KeptWhole(s.(ledger := s.ledger.(purchases := s.ledger.purchases[credit.id := credit.row])));
    }
  }

  lemma CancelKept(s: State, b: BookingId, user: UserId, now: int, rate: int, newId: PurchaseId)
    requires BooksKept(s) && newId !in s.ledger.purchases
    ensures BooksKept(Cancel(s, b, user, now, rate, newId).state)
  {
    hide ApplyCancellation, BooksKept;
    if b in s.bookings { CancellationKept(s, b, now, rate, newId); }
  }

  // ---- the operator's edits and moves ---------------------------------------------------------------------

  lemma EditKept(s: State, b: BookingId, next: Status, credited: bool, rate: int, now: int, newId: PurchaseId)
    requires BooksKept(s) && newId !in s.ledger.purchases
    ensures BooksKept(EditStatus(s, b, next, credited, rate, now, newId).state)
  {
    var r := EditStatus(s, b, next, credited, rate, now, newId);
    if b !in s.bookings {
      return;
    }
    hide *;
    var bk, swept := s.bookings[b], SweptForEdit(s, b, next, now);
    EditCases(s, b, next, credited, rate, now, newId);
    if r.reply == Done {
      SweptForEditKept(s, b, next, now);
      var edited := EditedState(swept, b, next, now).value;
      KeptParts(swept);
      EditedIds(swept, b, next, now);
      EditedStateKeepsBooks(swept, b, next, now, false);
      SameTimes(bk, next, now);
      WritingKeepsStanding(swept.bookings, swept.sessions, b, EditedTo(bk, next, now));
      KeptWhole(edited);
      if credited && next == Cancelled && bk.status != Cancelled {
        CancelledByEdit(bk, now);
        CreditReadsTerms(edited.ledger.purchases, b, bk, EditedTo(bk, next, now), bk.status, rate, now, newId);
        CreditKept(edited, b, bk.status, rate, now, newId);
      }
    }
  }

  lemma SweptForEditKept(s: State, b: BookingId, next: Status, now: int)
    requires BooksKept(s) && b in s.bookings
    ensures BooksKept(SweptForEdit(s, b, next, now))
    ensures SweptForEdit(s, b, next, now).ledger.purchases.Keys == s.ledger.purchases.Keys
  {
    hide *;
    var scope := RoomWindow(s.bookings[b].room, s.bookings[b].start, s.bookings[b].end);
    SweptForEditIs(s, b, next, now);
    SweepKept(s, scope, now);
    SweepKeepsPurchases(s, scope, now);
  }

  lemma MoveKept(s: State, cal: Calendar, b: BookingId, room: RoomId, start: int, end: int, now: int)
    requires BooksKept(s) && forall k | k in s.ledger.debits :: k.purchase in s.ledger.purchases
    ensures BooksKept(MoveTo(s, cal, b, room, start, end, now).state)
  {
    hide *;
    MoveCasesOf(s, cal, b, room, start, end, now);
    var r := MoveTo(s, cal, b, room, start, end, now);
    if r != Result(s, r.reply) {
      var scope := RoomWindow(room, start, end);
      SweepKept(s, scope, now);
      var swept := if Occupies(s.bookings[b].status) then Reconciled(s, scope, now) else s;
      var bk := swept.bookings[b];
      var move := SettledMove(swept.ledger, b, bk, WholeHours(start, end), now);
      KeptParts(swept);
      MovedKeepsBooks(swept, b, room, start, end, now, false);
      MovedRowIs(bk, room, start, end, move.share, now);
      WritingKeepsStanding(swept.bookings, swept.sessions, b, MovedRow(bk, room, start, end, move.share, now));
      KeptWhole(r.state);
    }
  }

  // ---- purchases -----------------------------------------------------------------------------------------

  lemma AddPurchaseKept(s: State, p: PurchaseId, user: UserId, org: OrgId, hours: int, expires: int, paid: bool)
    requires BooksKept(s) && p !in s.ledger.purchases && hours >= 0
    ensures BooksKept(AddPurchase(s, p, user, org, hours, expires, paid))
  {
    hide BooksMatch, NoDoubleBooking, SessionsStand;
    PurchaseKeepsBooks(s.ledger, s.bookings, p,
                       Purchase(user, org, hours, 0, hours, if paid then Spendable else AwaitingPayment, expires, None), false);
  }

  lemma SettlePurchaseKept(s: State, p: PurchaseId, paid: bool)
    requires BooksKept(s)
    ensures BooksKept(SettlePurchase(s, p, paid))
  {
    hide BooksMatch, NoDoubleBooking, SessionsStand;
    if p in s.ledger.purchases && s.ledger.purchases[p].status == AwaitingPayment {
      assert CreditStands(s.ledger.purchases[p], s.bookings, false);
      StatusKeepsBooks(s.ledger, s.bookings, p, if paid then Spendable else Withdrawn, false);
    }
  }

  // ---- series ----------------------------------------------------------------------------------------------

  lemma OccurrenceKept(s: State, b: BookingId, req: SeriesRequest, slot: Slot)
    requires BooksKept(s) && b !in s.bookings && slot.start < slot.end && req.duration >= 0
    requires !Excluded(s.bookings, b, OccurrenceRow(req, slot))
    ensures BooksKept(s.(bookings := s.bookings[b := OccurrenceRow(req, slot)]))
  {
    var bk := OccurrenceRow(req, slot);
    assert Held(bk) == 0 && ShareFits(bk) && bk.session.None? && bk.start < bk.end;
    assert TotalDrawn([]) == 0 && Drawn(s.ledger, b, []) == s.ledger;
    assert Affordable(s.ledger.purchases, []);
    hide *;
    KeptParts(s);
    DrawingKeepsBooks(s.ledger, s.bookings, b, bk, [], 0, None, false);
    WritingKeepsSlots(s.bookings, b, bk);
    AddingKeepsStanding(s.bookings, s.sessions, b, bk);
    KeptWhole(s.(bookings := s.bookings[b := bk]));
  }

  /** Inserts that the constraint lets through, up to the last. */
  lemma InsertsGoThrough(bookings: BookingTable, req: SeriesRequest, slots: seq<Slot>, first: BookingId)
    requires slots != [] && !TripsConstraint(bookings, req, slots, first)
    ensures var n := |slots| - 1;
            && !TripsConstraint(bookings, req, slots[..n], first)
            && !Excluded(WithOccurrences(bookings, req, slots[..n], first), first + n, OccurrenceRow(req, slots[n]))
            && WithOccurrences(bookings, req, slots, first)
               == WithOccurrences(bookings, req, slots[..n], first)[first + n := OccurrenceRow(req, slots[n])]
  {
    hide *;
    LastOccurrence(bookings, req, slots, first);
    NoneTrips(bookings, req, slots, first);
    var n := |slots| - 1;
    forall i | 0 <= i < n
      ensures !Excluded(WithOccurrences(bookings, req, slots[..n][..i], first), first + i, OccurrenceRow(req, slots[..n][i]))
    {
      assert slots[..n][..i] == slots[..i] && slots[..n][i] == slots[i];
    }
    TripsNowhere(bookings, req, slots[..n], first);
  }

  lemma NoneTrips(bookings: BookingTable, req: SeriesRequest, slots: seq<Slot>, first: BookingId)
    requires !TripsConstraint(bookings, req, slots, first)
    ensures forall i | 0 <= i < |slots| ::
              !Excluded(WithOccurrences(bookings, req, slots[..i], first), first + i, OccurrenceRow(req, slots[i]))
  {
    hide Excluded, WithOccurrences, OccurrenceRow;
  }

  lemma TripsNowhere(bookings: BookingTable, req: SeriesRequest, slots: seq<Slot>, first: BookingId)
    requires forall i | 0 <= i < |slots| ::
               !Excluded(WithOccurrences(bookings, req, slots[..i], first), first + i, OccurrenceRow(req, slots[i]))
    ensures !TripsConstraint(bookings, req, slots, first)
  {
    hide Excluded, WithOccurrences, OccurrenceRow;
  }

  lemma LastOccurrence(bookings: BookingTable, req: SeriesRequest, slots: seq<Slot>, first: BookingId)
    requires slots != []
    ensures var n := |slots| - 1;
            WithOccurrences(bookings, req, slots, first)
            == WithOccurrences(bookings, req, slots[..n], first)[first + n := OccurrenceRow(req, slots[n])]
  {
  }

  lemma {:induction false} OccurrencesKept(s: State, req: SeriesRequest, slots: seq<Slot>, first: BookingId)
    requires BooksKept(s) && req.duration >= 0 && (forall b | b in s.bookings :: b < first)
    requires forall o | o in slots :: o.start < o.end
    requires !TripsConstraint(s.bookings, req, slots, first)
    ensures BooksKept(s.(bookings := WithOccurrences(s.bookings, req, slots, first)))
    decreases |slots|
  {
    hide *;
    if slots == [] {
      NoOccurrences(s, req, first);
    } else {
      var n := |slots| - 1;
      InsertsGoThrough(s.bookings, req, slots, first);
      OccurrencesKept(s, req, slots[..n], first);
      OccurrencesWritten(s.bookings, req, slots[..n], first);
      OccurrenceKept(s.(bookings := WithOccurrences(s.bookings, req, slots[..n], first)), first + n, req, slots[n]);
    }
  }

  lemma NoOccurrences(s: State, req: SeriesRequest, first: BookingId)
    ensures s.(bookings := WithOccurrences(s.bookings, req, [], first)) == s
  {
  }

  lemma SlotsRun(slots: seq<Slot>)
    requires InOrder(slots)
    ensures forall o | o in slots :: o.start < o.end
  {
  }

  lemma CreateSeriesKept(s: State, req: SeriesRequest, first: BookingId, now: int)
    requires BooksKept(s) && req.duration >= 0 && forall b | b in s.bookings :: b < first
    ensures BooksKept(CreateSeries(s, req, first, now).state)
  {
    AcceptedWindow(req.start, req.end, req.until, false, now);
    var window := ValidatedWindow(req.start, req.end, req.until, false, now);
    hide BooksKept, ValidatedWindow, Reconciled, Clashes, TripsConstraint, WithOccurrences, InOrder;
    if window.Good? {
      var slots := window.occurrences;
      var swept := Reconciled(s, Span(req.room, slots), now);
      SweepKept(s, Span(req.room, slots), now);
      SweepKeepsIds(s, Span(req.room, slots), now);
      SlotsRun(slots);
      if !TripsConstraint(swept.bookings, req, slots, first) {
        OccurrencesKept(swept, req, slots, first);
      }
    }
  }

  lemma {:induction false} CancelEachKept(s: State, order: seq<BookingId>, now: int, rates: map<RoomId, int>, first: PurchaseId)
    requires BooksKept(s) && (forall i, j | 0 <= i < j < |order| :: order[i] != order[j])
    requires forall b | b in order :: first + b !in s.ledger.purchases
    ensures var after := CancelEach(s, order, now, rates, first).state;
            BooksKept(after) && OnlyCancels(s, after)
    decreases |order|
  {
    hide *;
    if order == [] || order[0] !in s.bookings {
      NoneToCancel(s, order, now, rates, first);
      NoneCancelled(s);
    } else {
      var b := order[0];
      var rate := RateOf(rates, s.bookings[b].room);
      CancelEachUnfolds(s, order, now, rates, first);
      assert b in order;
      CancellationKept(s, b, now, rate, first + b);
      var once := ApplyCancellation(s, b, now, rate, first + b);
      if once.reply == Done {
        forall c | c in order[1..] ensures first + c !in once.state.ledger.purchases {
          assert c in order && c != b;
        }
        CancelEachKept(once.state, order[1..], now, rates, first);
        OnlyCancelsTwice(s, once.state, CancelEach(s, order, now, rates, first).state);
      }
    }
  }

  lemma NoneToCancel(s: State, order: seq<BookingId>, now: int, rates: map<RoomId, int>, first: PurchaseId)
    requires order == [] || order[0] !in s.bookings
    ensures CancelEach(s, order, now, rates, first).state == s
  {
  }

  lemma NewCreditIds(s: State, order: seq<BookingId>, first: PurchaseId)
    requires PurchasesBelow(s, first)
    ensures forall b | b in order :: first + b !in s.ledger.purchases
  {
  }

  lemma FreedKept(s: State, req: SeriesRequest, slots: seq<Slot>, now: int, c: Crediting)
    requires BooksKept(s) && slots != [] && PurchasesBelow(s, c.first)
    ensures var freed := Freed(s, req, slots, now, c).state;
            BooksKept(freed) && OnlyCancels(Reconciled(s, Span(req.room, slots), now), freed)
  {
    var span := Span(req.room, slots);
    hide BooksKept, OnlyCancels, Reconciled, CancelEach, Replaceable, InIdOrder, PurchasesBelow;
    var order := InIdOrder(Replaceable(s.bookings, req.series, now));
    NewCreditIds(s, order, c.first);
    SweepKept(s, span, now);
    SweepKeepsIds(s, span, now);
    SweepKeepsPurchases(s, span, now);
    CancelEachKept(Reconciled(s, span, now), order, now, c.rates, c.first);
  }

  lemma FreeingKeepsIds(s: State, scope: Scope, now: int, freed: State)
    requires OnlyCancels(Reconciled(s, scope, now), freed)
    ensures freed.bookings.Keys == s.bookings.Keys
  {
    SweepKeepsIds(s, scope, now);
    hide Reconciled;
  }

  lemma UpdateSeriesKept(s: State, req: SeriesRequest, first: BookingId, now: int, c: Crediting)
    requires BooksKept(s) && req.duration >= 0 && (forall b | b in s.bookings :: b < first) && PurchasesBelow(s, c.first)
    ensures BooksKept(UpdateSeries(s, req, first, now, c).state)
  {
    hide *;
    SeriesEditCases(s, req, first, now, c);
    AcceptedWindow(req.start, req.end, req.until, true, now);
    var r := UpdateSeries(s, req, first, now, c);
    if r.state != s {
      var slots := ValidatedWindow(req.start, req.end, req.until, true, now).occurrences;
      var freed := Freed(s, req, slots, now, c).state;
      FreedKept(s, req, slots, now, c);
      FreeingKeepsIds(s, Span(req.room, slots), now, freed);
      SlotsRun(slots);
      OccurrencesKept(freed, req, slots, first);
    }
  }

  lemma CancelSeriesKept(s: State, id: SeriesId, from: Option<int>, now: int, c: Crediting)
    requires BooksKept(s) && PurchasesBelow(s, c.first)
    ensures var after := CancelSeries(s, id, from, now, c).state;
            BooksKept(after) && OnlyCancels(s, after)
  {
    hide BooksKept, CancelEach, Remaining, InIdOrder, PurchasesBelow, AnyTooLate;
    var order := InIdOrder(Remaining(s.bookings, id, from, now));
    NewCreditIds(s, order, c.first);
    var r := CancelEach(s, order, now, c.rates, c.first);
    CancelEachKept(s, order, now, c.rates, c.first);
    ApartKept(r.state, r.state.blocks, s.closed + {id});
  }

  /** Blocks and cancelled series are no part of it. */
  lemma ApartKept(s: State, blocks: set<Block>, closed: set<SeriesId>)
    requires BooksKept(s)
    ensures BooksKept(s.(blocks := blocks, closed := closed)) && BooksKept(s.(blocks := blocks)) && BooksKept(s.(closed := closed))
  {
    hide BooksMatch, CreditsMatch, NoDoubleBooking, SessionsStand;
  }
}
