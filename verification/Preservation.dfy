/** Every handler keeps the invariant, and run one at a time none of them ever
    trips the exclusion constraint it cannot see the clock for. */
module Preservation {
  import opened Model
  import opened Ledgers
  import opened Settlement
  import opened Credit
  import opened Books
  import opened Lifecycle
  import opened Invariant

  /** The handler answered without losing a race, and left the state in order. */
  ghost predicate Sound(r: Result) {
    Inv(r.state) && r.reply != Refused(LostRace)
  }

  /** What the invariant says of one booking. */
  lemma BookingFacts(s: State, b: BookingId)
    requires Inv(s) && b in s.bookings
    ensures var bk := s.bookings[b];
            && PaymentState(bk) && ShareFits(bk) && bk.start < bk.end && !Excluded(s.bookings, b, bk)
            && (bk.session.Some? ==> bk.session.value in s.sessions && s.sessions[bk.session.value].booking == b)
            && (bk.paidAt.Some? ==> bk.session.Some? && s.sessions[bk.session.value].state == Paid)
  {
    assert PaymentState(s.bookings[b]);
    hide Excluded, BooksMatch, CreditsMatch;
    assert ShareFits(s.bookings[b]) by { BooksFitShares(s, b); }
  }

  lemma BooksFitShares(s: State, b: BookingId)
    requires Inv(s) && b in s.bookings
    ensures ShareFits(s.bookings[b])
  {
  }

  // ---- writing one row --------------------------------------------------------------

  /** A booking rewritten in place: what the four parts of the invariant ask of it. */
  lemma WritingKeepsInv(s: State, b: BookingId, bk: Booking, ledger: Ledger)
    requires Inv(s) && b in s.bookings
    requires BooksMatch(ledger, s.bookings[b := bk]) && CreditsMatch(ledger, s.bookings[b := bk])
    requires bk.start < bk.end && !Excluded(s.bookings, b, bk)
    requires bk.session == s.bookings[b].session && PaymentState(bk)
    requires bk.paidAt.Some? ==> bk.session.Some? && bk.session.value in s.sessions
                                 && s.sessions[bk.session.value].state == Paid
    ensures Inv(s.(ledger := ledger, bookings := s.bookings[b := bk]))
  {
    hide BooksMatch, CreditsMatch, Excluded, PaymentState;
    WritingKeepsSlots(s.bookings, b, bk);
    WritingKeepsSessions(s.bookings, s.sessions, b, bk);
    hide NoDoubleBooking, SessionsMatch;
  }

  /** A status change of one booking that keeps its time, its session and what was paid. */
  lemma StatusChangeKeepsInv(s: State, b: BookingId, bk: Booking, now: int)
    requires Inv(s) && b in s.bookings
    requires SameClaim(s.bookings[b], bk) && !Excluded(s.bookings, b, bk)
    requires bk.start == s.bookings[b].start && bk.end == s.bookings[b].end
    requires bk.session == s.bookings[b].session && PaymentState(bk)
    requires bk.paidAt.Some? ==> bk.session.Some? && bk.session.value in s.sessions
                                 && s.sessions[bk.session.value].state == Paid
    requires Resting(bk) || MayHold(s.ledger, s.bookings, b)
    ensures var settled := SettledStatus(s.ledger, b, s.bookings[b], s.bookings[b].status, bk.status, now);
            settled.Some? ==> Inv(s.(ledger := settled.value, bookings := s.bookings[b := bk]))
  {
    hide BooksMatch, CreditsMatch, Excluded, PaymentState, SettledStatus, MayHold, Resting;
    StatusChangeKeepsBooks(s.ledger, s.bookings, b, bk, now);
    var settled := SettledStatus(s.ledger, b, s.bookings[b], s.bookings[b].status, bk.status, now);
    assert s.bookings[b].start < s.bookings[b].end;
    if settled.Some? {
      WritingKeepsInv(s, b, bk, settled.value);
    }
  }

  /** The same, where no hours move because the booking holds them before and after. */
  lemma StayingKeepsInv(s: State, b: BookingId, bk: Booking)
    requires Inv(s) && b in s.bookings && SameClaim(s.bookings[b], bk)
    requires bk.room == s.bookings[b].room && bk.start == s.bookings[b].start && bk.end == s.bookings[b].end
    requires HoldsHours(s.bookings[b].status) && HoldsHours(bk.status)
    requires Occupies(bk.status) ==> Occupies(s.bookings[b].status)
    requires bk.session == s.bookings[b].session && PaymentState(bk)
    requires bk.paidAt.Some? ==> bk.session.Some? && bk.session.value in s.sessions
                                 && s.sessions[bk.session.value].state == Paid
    ensures Inv(s.(bookings := s.bookings[b := bk]))
  {
    assert MayHold(s.ledger, s.bookings, b);
    assert SettledStatus(s.ledger, b, s.bookings[b], s.bookings[b].status, bk.status, 0) == Some(s.ledger);
    assert s == s.(ledger := s.ledger);
    hide SettledStatus, MayHold, BooksMatch, CreditsMatch, SessionsMatch, PaymentState;
    StayingIsNotExcluded(s.bookings, b, bk);
    hide Inv, Excluded;
    StatusChangeKeepsInv(s, b, bk, 0);
  }

  // ---- creating -----------------------------------------------------------------------

  lemma AddingKeepsSessions(bookings: BookingTable, sessions: map<SessionId, Session>, b: BookingId, bk: Booking)
    requires SessionsMatch(bookings, sessions) && PaymentState(bk)
    requires b !in bookings && bk.session.None?
    ensures SessionsMatch(bookings[b := bk], sessions)
  {
  }

  /** The row a request becomes: settled at once exactly if the bank covers it,
      else a hold on the slot for its lifetime and not an instant longer. */
  lemma NewBookingPays(req: Request, share: int, rate: int, session: SessionId, now: int)
    requires rate >= 0 && req.start < req.end && 0 <= share <= WholeHours(req.start, req.end)
    requires req.payment == Hourly ==> share == 0
    ensures var bk := NewBooking(req, share, rate, session, now);
            && PaymentState(bk) && ShareFits(bk) && Held(bk) == share && bk.paidAt.None?
            && (bk.session == None || bk.session == Some(session))
            && (bk.status == Confirmed <==> req.payment != Hourly && share == WholeHours(req.start, req.end))
            && (bk.status != Confirmed ==> forall t :: HoldsSlot(bk, t) <==> t < now + HOLD_LIFETIME)
  {
    hide AmountFor;
  }

  lemma BeforeCreateKeepsInv(s: State, req: Request, id: BookingId, now: int, bk: Booking)
    requires Inv(s) && id !in s.bookings
    requires !BookedOver(Reconciled(s, RoomWindow(req.room, req.start, req.end), now).bookings,
                         req.room, req.start, req.end, None, now)
    requires bk.room == req.room && bk.start == req.start && bk.end == req.end
    ensures Inv(BeforeCreate(s, req, now)) && !Excluded(BeforeCreate(s, req, now).bookings, id, bk)
    ensures BeforeCreate(s, req, now).sessions == s.sessions
    ensures id !in BeforeCreate(s, req, now).bookings
  {
    var swept := Reconciled(s, RoomWindow(req.room, req.start, req.end), now);
    assert swept.sessions == s.sessions && id !in swept.bookings;
    hide Inv, Excluded, Released;
    ReconciledKeepsInv(s, RoomWindow(req.room, req.start, req.end), now);
    FreeSlotIsNotExcluded(s, req.room, req.start, req.end, id, now, bk);
    ReconciledKeepsInv(swept, OfUser(req.user), now);
    ReconcilingFreesSlots(swept, OfUser(req.user), now, id, bk);
  }

  lemma InsertingKeepsBooks(l: Ledger, bookings: BookingTable, req: Request, id: BookingId, session: SessionId, now: int,
                            rate: int, strict: bool := true)
    requires BooksMatch(l, bookings) && CreditsMatch(l, bookings, strict)
    requires id !in bookings && rate >= 0 && req.start < req.end
    requires 0 <= TotalDrawn(RequestDraws(l.purchases, req, now)) <= WholeHours(req.start, req.end)
    ensures var draws := RequestDraws(l.purchases, req, now);
            var bk := NewBooking(req, TotalDrawn(draws), rate, session, now);
            && (forall d | d in draws :: d.purchase in l.purchases)
            && BooksMatch(Drawn(l, id, draws), bookings[id := bk])
            && (!strict || MayHold(l, bookings, id) ==> CreditsMatch(Drawn(l, id, draws), bookings[id := bk], strict))
  {
    hide BooksMatch, CreditsMatch, Drawn, WholeHours, WalkDraws, PaymentState, MayHold, Resting;
    var draws := RequestDraws(l.purchases, req, now);
    ShareDrawsFit(l.purchases, req.user, req.org, WholeHours(req.start, req.end), now, None);
    NewBookingPays(req, TotalDrawn(draws), rate, session, now);
    DrawingKeepsBooks(l, bookings, id, NewBooking(req, TotalDrawn(draws), rate, session, now), draws, now, None, strict);
  }

  /** The new row, its draws and its session. */
  lemma InsertingKeepsInv(s: State, req: Request, id: BookingId, session: SessionId, now: int, rate: int)
    requires Inv(s) && id !in s.bookings && session !in s.sessions && rate >= 0 && req.start < req.end
    requires var share := TotalDrawn(RequestDraws(s.ledger.purchases, req, now));
             0 <= share <= WholeHours(req.start, req.end)
             && !Excluded(s.bookings, id, NewBooking(req, share, rate, session, now))
    ensures var draws := RequestDraws(s.ledger.purchases, req, now);
            var bk := NewBooking(req, TotalDrawn(draws), rate, session, now);
            && (forall d | d in draws :: d.purchase in s.ledger.purchases)
            && Inv(s.(ledger := Drawn(s.ledger, id, draws), bookings := s.bookings[id := bk],
                      sessions := if bk.session.Some? then s.sessions[session := Session(id, Open)] else s.sessions))
  {
    hide BooksMatch, CreditsMatch, Excluded, Drawn, WholeHours, RequestDraws, PaymentState;
    var draws := RequestDraws(s.ledger.purchases, req, now);
    var share := TotalDrawn(draws);
    var bk := NewBooking(req, share, rate, session, now);
    RequestDrawsAre(s.ledger.purchases, req, now);
    NewBookingPays(req, share, rate, session, now);
    OnlyRestingHasCredit(s, id);
    InsertingKeepsBooks(s.ledger, s.bookings, req, id, session, now, rate);
    WritingKeepsSlots(s.bookings, id, bk);
    if bk.session.Some? {
      OpeningKeepsSessions(s.bookings, s.sessions, id, bk, session);
    } else {
      AddingKeepsSessions(s.bookings, s.sessions, id, bk);
    }
    hide NoDoubleBooking, SessionsMatch;
  }


  lemma NothingDrawn()
    ensures TotalDrawn([]) == 0
  {
  }

  lemma RequestDrawsAre(purchases: PurchaseTable, req: Request, now: int)
    ensures var draws := RequestDraws(purchases, req, now);
            && (req.payment == Hourly ==> draws == [] && TotalDrawn(draws) == 0)
            && (req.payment != Hourly ==>
                  draws == ShareDraws(purchases, req.user, req.org, WholeHours(req.start, req.end), now, None))
            && (forall d | d in draws :: d.purchase in purchases)
            && (forall i, j | 0 <= i < j < |draws| :: draws[i].purchase != draws[j].purchase)
            && (req.start < req.end ==> 0 <= TotalDrawn(draws) <= WholeHours(req.start, req.end))
  {
    ShareDrawsFit(purchases, req.user, req.org, WholeHours(req.start, req.end), now, None);
    hide ShareDraws, TotalDrawn;
    assert TotalDrawn([]) == 0 by { NothingDrawn(); }
  }

  /** The branches of a booking request, in order. */
  lemma CreateCases(s: State, cal: Calendar, req: Request, id: BookingId, session: SessionId, now: int, rate: int,
                    providerUp: bool)
    requires id !in s.bookings && session !in s.sessions && rate >= 0
    ensures var r := Create(s, cal, req, id, session, now, rate, providerUp);
            var refusal := TimeRefusal(cal, req.room, req.start, req.end, now);
            var swept := Reconciled(s, RoomWindow(req.room, req.start, req.end), now);
            if refusal.Some? then r == Result(s, Refused(refusal.value))
            else if Conflict(swept, req.room, req.start, req.end, None, now) then r == Result(s, Refused(SlotTaken))
            else
              && req.start < req.end
              && var before := BeforeCreate(s, req, now);
              var draws := RequestDraws(before.ledger.purchases, req, now);
              var share := TotalDrawn(draws);
              && 0 <= share <= WholeHours(req.start, req.end)
              && (if req.payment == Package && share < WholeHours(req.start, req.end) then r == Result(s, Refused(NotEnoughHours))
                  else
                    var bk := NewBooking(req, share, rate, session, now);
                    if Excluded(before.bookings, id, bk) then r == Result(s, Refused(LostRace))
                    else if bk.session.Some? && !providerUp then r == Result(s, Refused(ProviderDown))
                    else
                      && (forall d | d in draws :: d.purchase in before.ledger.purchases)
                      && r == Result(State(Ledger(Debited(before.ledger.purchases, draws), WithRows(before.ledger.debits, id, draws)),
                                           before.bookings[id := bk],
                                           if bk.session.Some? then before.sessions[session := Session(id, SessionState.Open)] else before.sessions,
                                           before.blocks, before.closed),
                                     Done))
  {
    var before := BeforeCreate(s, req, now);
    RequestDrawsAre(before.ledger.purchases, req, now);
    hide IsOpen, BeforeCreate, RequestDraws, TotalDrawn, Reconciled, NewBooking, Excluded, BookedOver, BlockedOver, WholeHours,
      Debited, WithRows;
  }

  lemma NewBookingTimes(req: Request, share: int, rate: int, session: SessionId, now: int)
    requires rate >= 0 && req.start < req.end && 0 <= share <= WholeHours(req.start, req.end)
    ensures var bk := NewBooking(req, share, rate, session, now);
            bk.room == req.room && bk.start == req.start && bk.end == req.end
  {
    hide AmountFor, WholeHours;
  }

  lemma DrawnIs(l: Ledger, b: BookingId, draws: seq<Draw>)
    requires forall d | d in draws :: d.purchase in l.purchases
    ensures Drawn(l, b, draws) == Ledger(Debited(l.purchases, draws), WithRows(l.debits, b, draws))
  {
    hide Debited, WithRows;
  }

  lemma RefusalsOfTimes(cal: Calendar, room: RoomId, start: int, end: int, now: int)
    ensures TimeRefusal(cal, room, start, end, now) != Some(LostRace)
  {
    hide IsOpen;
  }

  lemma CreateIsSound(s: State, cal: Calendar, req: Request, id: BookingId, session: SessionId, now: int, rate: int,
                      providerUp: bool)
    requires Inv(s) && id !in s.bookings && session !in s.sessions && rate >= 0
    ensures Sound(Create(s, cal, req, id, session, now, rate, providerUp))
  {
    hide *;
    var r := Create(s, cal, req, id, session, now, rate, providerUp);
    var swept := Reconciled(s, RoomWindow(req.room, req.start, req.end), now);
    CreateCases(s, cal, req, id, session, now, rate, providerUp);
    RefusalsOfTimes(cal, req.room, req.start, req.end, now);
    NoConflictIsFree(swept, req.room, req.start, req.end, None, now);
    if TimeRefusal(cal, req.room, req.start, req.end, now).None? && !Conflict(swept, req.room, req.start, req.end, None, now) {
      var before := BeforeCreate(s, req, now);
      var draws := RequestDraws(before.ledger.purchases, req, now);
      NewBookingTimes(req, TotalDrawn(draws), rate, session, now);
      BeforeCreateKeepsInv(s, req, id, now, NewBooking(req, TotalDrawn(draws), rate, session, now));
      InsertingKeepsInv(before, req, id, session, now, rate);
      DrawnIs(before.ledger, id, draws);
    }
    SoundWhen(r);
  }

  // ---- paying -------------------------------------------------------------------------

  lemma PayKeepsInv(s: State, x: SessionId)
    requires Inv(s)
    ensures Inv(Pay(s, x))
  {
    hide BooksMatch, CreditsMatch, NoDoubleBooking, PaymentState;
  }

  lemma RunOutKeepsInv(s: State, x: SessionId)
    requires Inv(s)
    ensures Inv(RunOut(s, x))
  {
    ClosingKeepsSessions(s.bookings, s.sessions, x);
    hide BooksMatch, CreditsMatch, NoDoubleBooking, SessionsMatch;
  }

  /** A hold the money has arrived for, as the row that records it. */
  lemma ReceivedPays(bk: Booking, status: Status, now: int)
    requires PaymentState(bk) && bk.session.Some? && bk.paidAt.None?
    requires status == Confirmed || status == PaidUnfulfilled
    ensures PaymentState(Received(bk, status, now)) && SameClaim(bk, Received(bk, status, now))
  {
  }

  lemma PaidInTimeKeepsInv(s: State, x: SessionId, b: BookingId, now: int)
    requires Inv(s) && x in s.sessions && s.sessions[x] == Session(b, Paid)
    requires b in s.bookings && s.bookings[b].session == Some(x)
    requires UnpaidHold(s.bookings[b]) && PaidInTime(s.bookings[b], now)
    ensures Inv(s.(bookings := s.bookings[b := Received(s.bookings[b], Confirmed, now)]))
  {
    var bk := s.bookings[b];
    BookingFacts(s, b);
    hide Inv;
    ReceivedPays(bk, Confirmed, now);
    StayingKeepsInv(s, b, Received(bk, Confirmed, now));
  }

  /** Late money: when the slot is free, only the hours can stand in the way. */
  lemma LateConfirmationKeepsInv(s: State, b: BookingId, now: int)
    requires Inv(s) && b in s.bookings && s.bookings[b].paidAt.None? && s.bookings[b].session.Some?
    requires s.sessions[s.bookings[b].session.value].state == Paid
    requires var bk := s.bookings[b];
             !Conflict(s, bk.room, bk.start, bk.end, Some(b), now) ==> !Excluded(s.bookings, b, Received(bk, Confirmed, now))
    ensures LateConfirmation(s, b, now).Some? ==> Inv(LateConfirmation(s, b, now).value)
  {
    var bk := s.bookings[b];
    assert PaymentState(bk);
    ReceivedPays(bk, Confirmed, now);
    OnlyRestingHasCredit(s, b);
    hide SettledStatus, MayHold, Inv, Excluded, Conflict;
    if LateConfirmation(s, b, now).Some? {
      StatusChangeKeepsInv(s, b, Received(bk, Confirmed, now), now);
    }
  }

  lemma UnfulfilledKeepsInv(s: State, b: BookingId, now: int)
    requires Inv(s) && b in s.bookings && s.bookings[b].paidAt.None? && s.bookings[b].session.Some?
    requires s.sessions[s.bookings[b].session.value].state == Paid
    ensures Inv(Unfulfilled(s, b, now))
  {
    var bk := s.bookings[b];
    var received := Received(bk, PaidUnfulfilled, now);
    assert !Excluded(s.bookings, b, received) && received.start == bk.start && received.end == bk.end;
    assert received.session == bk.session && received.status == PaidUnfulfilled;
    hide *;
    BookingFacts(s, b);
    ReceivedPays(bk, PaidUnfulfilled, now);
    UnpaidIsNotResting(s, b);
    RestsOrMayHold(s, b);
    UnfulfilledIs(s, b, now);
    StatusChangeKeepsInv(s, b, received, now);
  }

  /** What reconciling its own window does to an unpaid hold: nothing, or it lapses. */
  lemma SweepingTheOwnWindow(s: State, b: BookingId, scope: Scope, now: int)
    requires b in s.bookings
    ensures var was, swept := s.bookings[b], Reconciled(s, scope, now);
            && b in swept.bookings && swept.sessions == s.sessions
            && (swept.bookings[b] == was || swept.bookings[b] == was.(status := Expired))
            && (swept.bookings[b] == if Lapsed(was, now) && InScope(scope, was) then was.(status := Expired) else was)
  {
    hide Released;
  }

  predicate CanStillBePaid(bookings: BookingTable, sessions: map<SessionId, Session>, x: SessionId) {
    && x in sessions && sessions[x].state == Paid
    && var b := sessions[x].booking;
    && b in bookings && bookings[b].session == Some(x) && UnpaidHold(bookings[b])
  }

  lemma CompletionCases(s: State, x: SessionId, now: int)
    ensures if !CanStillBePaid(s.bookings, s.sessions, x) then CheckoutCompleted(s, x, now) == Result(s, Ignored)
            else
              var b := s.sessions[x].booking;
              var bk := s.bookings[b];
              if PaidInTime(bk, now)
              then CheckoutCompleted(s, x, now) == Result(s.(bookings := s.bookings[b := Received(bk, Confirmed, now)]), Done)
              else
                var swept := Reconciled(s, RoomWindow(bk.room, bk.start, bk.end), now);
                b in swept.bookings
                && var late := LateConfirmation(swept, b, now);
                CheckoutCompleted(s, x, now) == Result(if late.Some? then late.value else Unfulfilled(swept, b, now), Done)
  {
    hide Reconciled, LateConfirmation, Unfulfilled, PaidInTime, UnpaidHold, Received;
    if CanStillBePaid(s.bookings, s.sessions, x) {
      var bk := s.bookings[s.sessions[x].booking];
      SweepingTheOwnWindow(s, s.sessions[x].booking, RoomWindow(bk.room, bk.start, bk.end), now);
    }
  }

  /** The savepoint: hours and row together, or neither. */
  lemma LateCases(s: State, b: BookingId, now: int)
    requires b in s.bookings
    ensures var bk := s.bookings[b];
            var settled := SettledStatus(s.ledger, b, bk, bk.status, Confirmed, now);
            var confirmed := Received(bk, Confirmed, now);
            LateConfirmation(s, b, now)
            == if Conflict(s, bk.room, bk.start, bk.end, Some(b), now) || settled.None? || Excluded(s.bookings, b, confirmed) then None
               else Some(State(settled.value, s.bookings[b := confirmed], s.sessions, s.blocks, s.closed))
  {
    hide SettledStatus, Conflict, Excluded, Received;
  }

  lemma UnfulfilledIs(s: State, b: BookingId, now: int)
    requires b in s.bookings
    ensures var bk := s.bookings[b];
            var settled := SettledStatus(s.ledger, b, bk, bk.status, PaidUnfulfilled, now);
            && settled.Some?
            && Unfulfilled(s, b, now)
               == State(settled.value, s.bookings[b := Received(bk, PaidUnfulfilled, now)], s.sessions, s.blocks, s.closed)
  {
    hide Released, Redebited, Received;
  }

  lemma CompletionIsSound(s: State, x: SessionId, now: int)
    requires Inv(s)
    ensures Sound(CheckoutCompleted(s, x, now))
  {
    if x in s.sessions && s.sessions[x].state == Paid {
      var b := s.sessions[x].booking;
      if b in s.bookings && s.bookings[b].session == Some(x) && UnpaidHold(s.bookings[b]) {
        var bk := s.bookings[b];
        assert PaymentState(bk);
        if PaidInTime(bk, now) {
          PaidInTimeKeepsInv(s, x, b, now);
        } else {
          var scope := RoomWindow(bk.room, bk.start, bk.end);
          var swept := Reconciled(s, scope, now);
          hide Inv, Excluded, LateConfirmation, Unfulfilled;
          ReconciledKeepsInv(s, scope, now);
          SweepingTheOwnWindow(s, b, scope, now);
          if !Conflict(swept, bk.room, bk.start, bk.end, Some(b), now) {
            FreeSlotIsNotExcluded(s, bk.room, bk.start, bk.end, b, now, Received(swept.bookings[b], Confirmed, now));
          }
          hide Reconciled, Conflict;
          LateConfirmationKeepsInv(swept, b, now);
          UnfulfilledKeepsInv(swept, b, now);
        }
      }
    }
  }

  /** Unpaid holds let go, held again or cancelled, as rows. */
  lemma UnpaidRows(bk: Booking, now: int, x: SessionId)
    requires PaymentState(bk) && bk.session.Some? && bk.paidAt.None? && (bk.status == Pending || bk.status == Expired)
    ensures PaymentState(bk.(status := Expired, holdExpires := Some(now)))
    ensures PaymentState(bk.(status := Pending, holdExpires := Some(now), session := Some(x)))
  {
  }

  lemma PendingIsUnpaid(bk: Booking)
    requires PaymentState(bk) && bk.status == Pending && bk.holdExpires.Some?
    ensures bk.session.Some? && bk.paidAt.None?
  {
  }

  lemma AbandonedIs(s: State, b: BookingId, now: int)
    requires b in s.bookings
    ensures var bk := s.bookings[b];
            var settled := SettledStatus(s.ledger, b, bk, bk.status, Expired, now);
            && settled.Some?
            && Abandoned(s, b, now)
               == State(settled.value, s.bookings[b := bk.(status := Expired, holdExpires := Some(now))], s.sessions, s.blocks, s.closed)
  {
    hide Released, Redebited;
  }

  lemma AbandonedKeepsInv(s: State, b: BookingId, now: int)
    requires Inv(s) && b in s.bookings && s.bookings[b].status == Pending && s.bookings[b].holdExpires.Some?
    ensures Inv(Abandoned(s, b, now))
  {
    var bk := s.bookings[b];
    var gone := bk.(status := Expired, holdExpires := Some(now));
    assert !Excluded(s.bookings, b, gone);
    assert SameClaim(bk, gone);
    hide *;
    BookingFacts(s, b);
    PendingIsUnpaid(bk);
    UnpaidRows(bk, now, 0);
    UnpaidIsNotResting(s, b);
    RestsOrMayHold(s, b);
    AbandonedIs(s, b, now);
    StatusChangeKeepsInv(s, b, gone, now);
  }

  lemma LetGoIsSound(s: State, x: SessionId, now: int)
    requires Inv(s)
    ensures Sound(LetGo(s, x, now))
  {
    hide Abandoned, Inv;
    forall b | b in HoldsWith(s.bookings, x) ensures Inv(Abandoned(s, b, now)) {
      AbandonedKeepsInv(s, b, now);
    }
  }

  // ---- resuming -------------------------------------------------------------------------

  lemma SessionIsNoSlot(bookings: BookingTable, b: BookingId, bk: Booking, bk': Booking)
    requires bk' == bk.(session := bk'.session)
    ensures Excluded(bookings, b, bk) <==> Excluded(bookings, b, bk')
  {
  }

  /** The row held again, with a fresh session in place of a closed one. */
  lemma ReopenedIsSound(rolledBack: State, s: State, b: BookingId, x: SessionId, now: int, openFails: bool)
    requires Inv(rolledBack) && Inv(s.(sessions := rolledBack.sessions))
    requires b in s.bookings && x !in rolledBack.sessions
    requires s.bookings[b].status == Pending || s.bookings[b].status == Expired
    requires s.bookings[b].session.Some? && s.bookings[b].paidAt.None?
    requires s.bookings[b].session.value in rolledBack.sessions
             && rolledBack.sessions[s.bookings[b].session.value].state == Closed
    requires !Excluded(s.bookings, b, s.bookings[b].(status := Pending, holdExpires := Some(now + HOLD_LIFETIME)))
    ensures Sound(Reopened(rolledBack, s, b, x, now, openFails))
  {
    hide *;
    var t := s.(sessions := rolledBack.sessions);
    var bk := s.bookings[b];
    var held := bk.(status := Pending, holdExpires := Some(now + HOLD_LIFETIME), session := Some(x));
    var r := Reopened(rolledBack, s, b, x, now, openFails);
    ReopenedCases(rolledBack, s, b, x, now, openFails);
    BookingFacts(t, b);
    UnpaidRows(bk, now + HOLD_LIFETIME, x);
    SessionIsNoSlot(s.bookings, b, held, held.(session := bk.session));
    assert SameClaim(bk, held) by { SameOwner(bk, held); }
    ReopeningKeepsInv(t, b, held, x, now);
    SoundWhen(r);
  }

  lemma SoundWhen(r: Result)
    requires Inv(r.state) && r.reply != Refused(LostRace)
    ensures Sound(r)
  {
    hide Inv;
  }

  lemma SameOwner(bk: Booking, bk': Booking)
    requires bk' == bk.(status := bk'.status, holdExpires := bk'.holdExpires, session := bk'.session)
    ensures SameClaim(bk, bk')
  {
  }

  /** The four ways a resume ends once nothing stands in its way but hours and faults. */
  lemma ReopenedCases(rolledBack: State, s: State, b: BookingId, x: SessionId, now: int, openFails: bool)
    requires b in s.bookings
    requires !Excluded(s.bookings, b, s.bookings[b].(status := Pending, holdExpires := Some(now + HOLD_LIFETIME)))
    ensures var r := Reopened(rolledBack, s, b, x, now, openFails);
            var bk := s.bookings[b];
            var settled := SettledStatus(s.ledger, b, bk, bk.status, Pending, now);
            var held := bk.(status := Pending, holdExpires := Some(now + HOLD_LIFETIME), session := Some(x));
            && r.reply != Refused(LostRace)
            && (r.state == rolledBack
                || (settled.Some?
                    && r.state == State(settled.value, s.bookings[b := held], rolledBack.sessions[x := Session(b, Open)], s.blocks, s.closed)))
  {
    hide SettledStatus, Excluded;
  }

  lemma ReopenedAre(rolledBack: State, s: State, b: BookingId, session: SessionId, now: int, openFails: bool)
    requires b in s.bookings
    ensures var bk := s.bookings[b];
            var settled := SettledStatus(s.ledger, b, bk, bk.status, Pending, now);
            var held := bk.(status := Pending, holdExpires := Some(now + HOLD_LIFETIME));
            Reopened(rolledBack, s, b, session, now, openFails)
            == if settled.None? then Result(rolledBack, Refused(NotEnoughHours))
               else if Excluded(s.bookings, b, held) then Result(rolledBack, Refused(LostRace))
               else if openFails then Result(rolledBack, Refused(ProviderDown))
               else Result(State(settled.value, s.bookings[b := held.(session := Some(session))],
                                 rolledBack.sessions[session := Session(b, Open)], s.blocks, s.closed),
                           Done)
  {
    hide SettledStatus, Excluded;
  }

  lemma UnpaidIsNotResting(s: State, b: BookingId)
    requires Inv(s) && b in s.bookings && s.bookings[b].session.Some? && s.bookings[b].paidAt.None?
    ensures !Resting(s.bookings[b])
  {
    assert PaymentState(s.bookings[b]);
  }

  lemma ReopeningKeepsInv(s: State, b: BookingId, held: Booking, x: SessionId, now: int)
    requires Inv(s) && b in s.bookings && x !in s.sessions
    requires SameClaim(s.bookings[b], held) && held.start < held.end && !Excluded(s.bookings, b, held)
    requires PaymentState(held) && held.session == Some(x) && held.paidAt == s.bookings[b].paidAt == None
    requires s.bookings[b].session.Some? && s.bookings[b].session.value in s.sessions
             && s.sessions[s.bookings[b].session.value].state == Closed
    ensures var settled := SettledStatus(s.ledger, b, s.bookings[b], s.bookings[b].status, held.status, now);
            settled.Some? ==>
              Inv(State(settled.value, s.bookings[b := held], s.sessions[x := Session(b, Open)], s.blocks, s.closed))
  {
    UnpaidIsNotResting(s, b);
    hide SettledStatus, MayHold, BooksMatch, CreditsMatch, Excluded, PaymentState, Resting;
    OnlyRestingHasCredit(s, b);
    StatusChangeKeepsBooks(s.ledger, s.bookings, b, held, now);
    WritingKeepsSlots(s.bookings, b, held);
    OpeningKeepsSessions(s.bookings, s.sessions, b, held, x);
    hide NoDoubleBooking, SessionsMatch;
  }

  /** What ResumeRefusal leaves: an unpaid hold of the customer, with its session. */
  lemma ResumableHasSession(s: State, b: BookingId, user: UserId, now: int)
    requires Inv(s) && ResumeRefusal(s, b, user, now).None?
    ensures b in s.bookings
    ensures var bk := s.bookings[b];
            && (bk.status == Pending || bk.status == Expired) && bk.paidAt.None?
            && bk.session.Some? && bk.session.value in s.sessions
            && (LiveHold(bk, now) ==> bk.status == Pending) && (!LiveHold(bk, now) ==> bk.status == Expired || Lapsed(bk, now))
  {
    assert PaymentState(s.bookings[b]);
  }

  lemma ReopeningIsFree(s: State, b: BookingId, now: int, live: bool, held: Booking)
    requires Inv(s) && b in s.bookings
    requires held.room == s.bookings[b].room && held.start == s.bookings[b].start && held.end == s.bookings[b].end
    requires if live then Occupies(s.bookings[b].status) else
             !BookedOver(Reconciled(s, RoomWindow(held.room, held.start, held.end), now).bookings,
                         held.room, held.start, held.end, Some(b), now)
    ensures !Excluded(if live then s.bookings else Reconciled(s, RoomWindow(held.room, held.start, held.end), now).bookings,
                      b, held)
  {
    if live {
      StayingIsNotExcluded(s.bookings, b, held);
    } else {
      FreeSlotIsNotExcluded(s, held.room, held.start, held.end, b, now, held);
    }
  }

  lemma ReopeningIsSound(s: State, b: BookingId, x: SessionId, now: int, live: bool, openFails: bool)
    requires Inv(s) && x !in s.sessions && b in s.bookings
    requires var bk := s.bookings[b];
             && (bk.status == Pending || bk.status == Expired) && bk.paidAt.None?
             && bk.session.Some? && bk.session.value in s.sessions
             && s.sessions[bk.session.value].state != Paid
             && (live ==> bk.status == Pending)
             && (!live ==> !BookedOver(Reconciled(s, RoomWindow(bk.room, bk.start, bk.end), now).bookings,
                                       bk.room, bk.start, bk.end, Some(b), now))
    ensures var bk := s.bookings[b];
            var swept := if live then s else Reconciled(s, RoomWindow(bk.room, bk.start, bk.end), now);
            var closed := s.(sessions := Close(s.sessions, bk.session.value));
            && Inv(closed) && b in swept.bookings && Sound(Reopened(closed, swept, b, x, now, openFails))
  {
    var bk := s.bookings[b];
    var scope := RoomWindow(bk.room, bk.start, bk.end);
    var swept := if live then s else Reconciled(s, scope, now);
    var closed := s.(sessions := Close(s.sessions, bk.session.value));
    var held := bk.(status := Pending, holdExpires := Some(now + HOLD_LIFETIME));
    hide *;
    SweepingTheOwnWindow(s, b, scope, now);
    OccupiesMeans(bk.status);
    ReopeningIsFree(s, b, now, live, held);
    RunOutIs(s, bk.session.value);
    RunOutIs(swept, bk.session.value);
    RunOutKeepsInv(s, bk.session.value);
    ReconciledKeepsInv(s, scope, now);
    RunOutKeepsInv(swept, bk.session.value);
    ReopenedIsSound(closed, swept, b, x, now, openFails);
  }

  lemma RunOutIs(s: State, x: SessionId)
    ensures RunOut(s, x) == s.(sessions := Close(s.sessions, x)) && Close(s.sessions, x).Keys == s.sessions.Keys
    ensures x in s.sessions && s.sessions[x].state != Paid ==> Close(s.sessions, x)[x].state == Closed
  {
  }

  /** The branches of a resume, in order. */
  lemma ResumeCases(s: State, b: BookingId, user: UserId, session: SessionId, now: int, faults: Faults)
    requires session !in s.sessions
    ensures var r := Resume(s, b, user, session, now, faults);
            var refusal := ResumeRefusal(s, b, user, now);
            if refusal.Some? then r == Result(s, Refused(refusal.value))
            else
              && b in s.bookings
              && var bk := s.bookings[b];
              var live := LiveHold(bk, now);
              var swept := if live then s else Reconciled(s, RoomWindow(bk.room, bk.start, bk.end), now);
              && b in swept.bookings && swept.sessions == s.sessions && swept.blocks == s.blocks && swept.closed == s.closed
              && (if !live && Conflict(swept, bk.room, bk.start, bk.end, Some(b), now) then r == Result(s, Refused(SlotTaken))
                  else if live && bk.session.Some? && faults.lookup then r == Result(s, Refused(ProviderDown))
                  else if live && SessionOf(s, bk) == Some(Paid) then r == Result(s, Refused(AlreadyPaid))
                  else if live && SessionOf(s, bk) == Some(Open) then r == Result(s, Done)
                  else if bk.session.Some? && faults.close then r == Result(s, Refused(ProviderDown))
                  else if SessionOf(s, bk) == Some(Paid) then r == Result(s, Refused(AlreadyPaid))
                  else
                    var sessions := if bk.session.Some? then Close(s.sessions, bk.session.value) else s.sessions;
                    r == Reopened(s.(sessions := sessions), swept, b, session, now, faults.open))
  {
    if b in s.bookings {
      var bk := s.bookings[b];
      SweepingTheOwnWindow(s, b, RoomWindow(bk.room, bk.start, bk.end), now);
    }
    hide Reconciled, BookedOver, BlockedOver, Reopened, SessionOf, LiveHold, Close;
  }

  lemma ResumeIsSound(s: State, b: BookingId, user: UserId, x: SessionId, now: int, faults: Faults)
    requires Inv(s) && x !in s.sessions
    ensures Sound(Resume(s, b, user, x, now, faults))
  {
    hide *;
    var r := Resume(s, b, user, x, now, faults);
    ResumeCases(s, b, user, x, now, faults);
    RefusalsOfResuming(s, b, user, now);
    if ResumeRefusal(s, b, user, now).None? {
      ResumableHasSession(s, b, user, now);
      var bk := s.bookings[b];
      var live := LiveHold(bk, now);
      var scope := RoomWindow(bk.room, bk.start, bk.end);
      SessionOfIs(s, bk);
      NoConflictIsFree(Reconciled(s, scope, now), bk.room, bk.start, bk.end, Some(b), now);
      if s.sessions[bk.session.value].state != Paid
         && (live || !Conflict(Reconciled(s, scope, now), bk.room, bk.start, bk.end, Some(b), now))
      {
        ReopeningIsSound(s, b, x, now, live, faults.open);
      }
    }
    if r == Result(s, r.reply) && r.reply != Refused(LostRace) {
      SoundWhen(r);
    }
  }

  lemma RefusalsOfResuming(s: State, b: BookingId, user: UserId, now: int)
    ensures ResumeRefusal(s, b, user, now) != Some(LostRace)
  {
  }

  lemma SessionOfIs(s: State, bk: Booking)
    ensures bk.session.Some? && bk.session.value in s.sessions ==> SessionOf(s, bk) == Some(s.sessions[bk.session.value].state)
  {
  }

  lemma NoConflictIsFree(s: State, room: RoomId, start: int, end: int, except: Option<BookingId>, now: int)
    ensures !Conflict(s, room, start, end, except, now) ==> !BookedOver(s.bookings, room, start, end, except, now)
  {
    hide BookedOver, BlockedOver;
  }

  // ---- cancelling and reinstating ----------------------------------------------------------

  /** What cancelling puts in the bank fits the books of the cancelled booking. */
  lemma CreditingKeepsBooks(l: Ledger, bookings: BookingTable, b: BookingId, previous: Status, rate: int, now: int,
                            newId: PurchaseId, strict: bool := true)
    requires BooksMatch(l, bookings) && CreditsMatch(l, bookings, strict) && newId !in l.purchases
    requires b in bookings && !HoldsHours(bookings[b].status)
    requires strict && IsCreditable(bookings[b], previous) ==> Resting(bookings[b])
    ensures var credit := CreditFor(l.purchases, b, bookings[b], previous, rate, now, newId);
            credit.CreditRow? ==>
              var l' := l.(purchases := l.purchases[credit.id := credit.row]);
              BooksMatch(l', bookings) && CreditsMatch(l', bookings, strict)
  {
    hide CreditHours, BooksMatch;
    var credit := CreditFor(l.purchases, b, bookings[b], previous, rate, now, newId);
    if credit.CreditRow? {
      assert credit.id in l.purchases ==> l.purchases[credit.id].used == 0 by { UsedIsNatural(l, bookings); }
      assert CreditStands(credit.row, bookings, strict);
      assert CreditsOf(l.purchases, b) <= {credit.id};
      PurchaseKeepsBooks(l, bookings, credit.id, credit.row, strict);
    }
  }

  lemma UsedIsNatural(l: Ledger, bookings: BookingTable)
    requires BooksMatch(l, bookings)
    ensures forall p | p in l.purchases :: l.purchases[p].used >= 0
  {
    forall p | p in l.purchases ensures l.purchases[p].used >= 0 {
      assert BalancedPurchase(l, p);
    }
  }

  lemma SettlingKeepsIds(l: Ledger, b: BookingId, bk: Booking, previous: Status, next: Status, now: int)
    requires !HoldsHours(next)
    ensures var settled := SettledStatus(l, b, bk, previous, next, now);
            settled.Some? && settled.value.purchases.Keys == l.purchases.Keys
  {
  }

  lemma CancelledRow(bk: Booking)
    requires PaymentState(bk) && Occupies(bk.status)
    ensures var gone := bk.(status := Cancelled);
            && PaymentState(gone) && SameClaim(bk, gone) && !Resting(bk) && !HoldsHours(gone.status)
            && (IsCreditable(gone, bk.status) ==> Resting(gone))
  {
  }

  /** Whatever a cancellation puts in the bank keeps the whole invariant. */
  lemma CreditingKeepsInv(s: State, b: BookingId, previous: Status, rate: int, now: int, newId: PurchaseId)
    requires Inv(s) && newId !in s.ledger.purchases
    requires b in s.bookings && !HoldsHours(s.bookings[b].status)
    requires IsCreditable(s.bookings[b], previous) ==> Resting(s.bookings[b])
    ensures var credit := CreditFor(s.ledger.purchases, b, s.bookings[b], previous, rate, now, newId);
            credit.CreditRow? ==> Inv(s.(ledger := s.ledger.(purchases := s.ledger.purchases[credit.id := credit.row])))
  {
    hide BooksMatch, CreditsMatch, NoDoubleBooking, SessionsMatch, CreditFor, IsCreditable;
    CreditingKeepsBooks(s.ledger, s.bookings, b, previous, rate, now, newId);
  }

  lemma CreditReadsTerms(purchases: PurchaseTable, b: BookingId, bk: Booking, bk': Booking, previous: Status,
                         rate: int, now: int, newId: PurchaseId)
    requires bk' == bk.(status := bk'.status, holdExpires := bk'.holdExpires)
    ensures CreditFor(purchases, b, bk, previous, rate, now, newId) == CreditFor(purchases, b, bk', previous, rate, now, newId)
  {
    hide CreditHours;
  }

  lemma RestsOrMayHold(s: State, b: BookingId)
    requires b in s.bookings && !Resting(s.bookings[b])
    ensures MayHold(s.ledger, s.bookings, b)
  {
  }

  lemma PaidThroughSession(s: State, b: BookingId)
    requires Inv(s) && b in s.bookings && s.bookings[b].paidAt.Some?
    ensures var bk := s.bookings[b];
            bk.session.Some? && bk.session.value in s.sessions && s.sessions[bk.session.value].state == Paid
  {
    BookingFacts(s, b);
  }

  lemma CancelledRowKeepsInv(s: State, b: BookingId, now: int)
    requires Inv(s) && b in s.bookings && Occupies(s.bookings[b].status)
    ensures var bk := s.bookings[b];
            var settled := SettledStatus(s.ledger, b, bk, bk.status, Cancelled, now);
            var gone := bk.(status := Cancelled);
            && settled.Some? && settled.value.purchases.Keys == s.ledger.purchases.Keys
            && Inv(s.(ledger := settled.value, bookings := s.bookings[b := gone]))
            && !HoldsHours(gone.status) && (IsCreditable(gone, bk.status) ==> Resting(gone))
  {
    var bk := s.bookings[b];
    var gone := bk.(status := Cancelled);
    SettlingKeepsIds(s.ledger, b, bk, bk.status, Cancelled, now);
    NoDoubleBookingOf(s);
    StayingIsNotExcluded(s.bookings, b, gone);
    hide *;
    BookingFacts(s, b);
    OccupiesMeans(bk.status);
    CancelledRow(bk);
    RestsOrMayHold(s, b);
    if bk.paidAt.Some? { PaidThroughSession(s, b); }
    StatusChangeKeepsInv(s, b, gone, now);
  }

  lemma NoDoubleBookingOf(s: State)
    requires Inv(s)
    ensures NoDoubleBooking(s.bookings)
  {
    hide NoDoubleBooking;
  }

  lemma OccupiesMeans(status: Status)
    ensures Occupies(status) <==> status == Pending || status == Confirmed
  {
  }

  /** The cancellation of a booking that holds its slot, hours and credit together. */
  lemma CancellationIsSound(s: State, b: BookingId, now: int, rate: int, newId: PurchaseId)
    requires Inv(s) && newId !in s.ledger.purchases && b in s.bookings && Occupies(s.bookings[b].status)
    ensures var r := ApplyCancellation(s, b, now, rate, newId);
            Sound(r) && (r.reply == Done || r == Result(s, Refused(CreditTooLarge)))
  {
    var bk := s.bookings[b];
    var gone := bk.(status := Cancelled);
    CancelledRowKeepsInv(s, b, now);
    hide SettledStatus, CreditFor, Inv, IsCreditable;
    var ledger := SettledStatus(s.ledger, b, bk, bk.status, Cancelled, now).value;
    CreditReadsTerms(ledger.purchases, b, bk, gone, bk.status, rate, now, newId);
    CreditingKeepsInv(s.(ledger := ledger, bookings := s.bookings[b := gone]), b, bk.status, rate, now, newId);
  }

  /** The cancellation itself: what it leaves, or that its credit is too large. */
  lemma CancellationIs(s: State, b: BookingId, now: int, rate: int, newId: PurchaseId)
    requires b in s.bookings
    ensures var r := ApplyCancellation(s, b, now, rate, newId);
            var bk := s.bookings[b];
            var settled := SettledStatus(s.ledger, b, bk, bk.status, Cancelled, now);
            && settled.Some?
            && var l := settled.value;
            var credit := CreditFor(l.purchases, b, bk, bk.status, rate, now, newId);
            if credit.TooLarge? then r == Result(s, Refused(CreditTooLarge))
            else r == Result(State(Ledger(if credit.CreditRow? then l.purchases[credit.id := credit.row] else l.purchases, l.debits),
                                   s.bookings[b := bk.(status := Cancelled)], s.sessions, s.blocks, s.closed),
                             Done)
  {
    hide Released, Redebited, CreditFor;
  }

  lemma CancelCases(s: State, b: BookingId, user: UserId, now: int, rate: int, newId: PurchaseId)
    ensures var r := Cancel(s, b, user, now, rate, newId);
            var refusal := CancelRefusal(s, b, user, now);
            if refusal.Some? then r == Result(s, Refused(refusal.value))
            else b in s.bookings && r == ApplyCancellation(s, b, now, rate, newId)
  {
    hide ApplyCancellation;
  }

  lemma CancelIsSound(s: State, b: BookingId, user: UserId, now: int, rate: int, newId: PurchaseId)
    requires Inv(s) && newId !in s.ledger.purchases
    ensures Sound(Cancel(s, b, user, now, rate, newId))
  {
    if CancelRefusal(s, b, user, now).None? {
      hide ApplyCancellation, Inv;
      CancellationIsSound(s, b, now, rate, newId);
    }
  }

  // ---- the operator's edits ------------------------------------------------------------------

  /** An edit that does not cross between paid and unpaid leaves a row whose
      payment fields agree with its status. */
  lemma EditedRow(bk: Booking, next: Status, now: int)
    requires PaymentState(bk) && !Crosses(bk, next)
    ensures var edited := EditedTo(bk, next, now);
            && PaymentState(edited) && SameClaim(bk, edited)
            && edited == bk.(status := next, holdExpires := edited.holdExpires)
            && (!HoldsHours(next) && next == Cancelled ==> Resting(edited))
  {
  }

  /** The row an edit leaves, when it does not take a cancelled booking's hours again. */
  lemma EditedRowKeepsInv(s: State, b: BookingId, next: Status, now: int)
    requires Inv(s) && b in s.bookings && !Crosses(s.bookings[b], next)
    requires !StrandsCredit(s.ledger.purchases, b, next)
    requires !(s.bookings[b].status == Cancelled && HoldsHours(next))
    requires !Excluded(s.bookings, b, EditedTo(s.bookings[b], next, now))
    ensures var bk := s.bookings[b];
            var settled := SettledStatus(s.ledger, b, bk, bk.status, next, now);
            settled.Some? ==> Inv(s.(ledger := settled.value, bookings := s.bookings[b := EditedTo(bk, next, now)]))
  {
    var bk := s.bookings[b];
    var edited := EditedTo(bk, next, now);
    EditMayHold(s, b, next, now);
    hide *;
    BookingFacts(s, b);
    EditedRow(bk, next, now);
    StatusChangeKeepsInv(s, b, edited, now);
  }

  lemma EditMayHold(s: State, b: BookingId, next: Status, now: int)
    requires b in s.bookings && !StrandsCredit(s.ledger.purchases, b, next)
    requires !(s.bookings[b].status == Cancelled && HoldsHours(next))
    ensures Resting(EditedTo(s.bookings[b], next, now)) || MayHold(s.ledger, s.bookings, b)
  {
    if next != Cancelled && s.bookings[b].status == Cancelled {
      forall p | p in s.ledger.purchases && s.ledger.purchases[p].source == Some(b)
        ensures WrittenOff(s.ledger.purchases[p])
      {
        assert p in CreditsOf(s.ledger.purchases, b);
      }
    }
  }

  /** The row put back once its hours and its credit are settled. */
  lemma ReinstatedKeepsInv(s: State, b: BookingId, next: Status, now: int)
    requires Inv(s) && b in s.bookings && !Crosses(s.bookings[b], next)
    requires s.bookings[b].status == Cancelled && HoldsHours(next)
    requires !Excluded(s.bookings, b, EditedTo(s.bookings[b], next, now))
    ensures var bk := s.bookings[b];
            var settled := SettledStatus(s.ledger, b, bk, bk.status, next, now);
            settled.Some? && !ReversalOf(settled.value.purchases, b).AlreadySpent? ==>
              Inv(s.(ledger := CreditReversed(settled.value, b), bookings := s.bookings[b := EditedTo(bk, next, now)]))
  {
    var bk := s.bookings[b];
    var edited := EditedTo(bk, next, now);
    var settled := SettledStatus(s.ledger, b, bk, bk.status, next, now);
    if settled.Some? && !ReversalOf(settled.value.purchases, b).AlreadySpent? {
      hide *;
      BooksAndCredits(s);
      ReinstatedBooks(s, b, next, now);
      BookingFacts(s, b);
      EditedRow(bk, next, now);
      SameTimes(bk, next, now);
      WritingKeepsInv(s, b, edited, CreditReversed(settled.value, b));
    }
  }

  lemma SameTimes(bk: Booking, next: Status, now: int)
    ensures EditedTo(bk, next, now).start == bk.start && EditedTo(bk, next, now).end == bk.end
    ensures EditedTo(bk, next, now).room == bk.room && EditedTo(bk, next, now).status == next
    ensures EditedTo(bk, next, now).session == bk.session && EditedTo(bk, next, now).paidAt == bk.paidAt
  {
  }

  lemma ReinstatedBooks(s: State, b: BookingId, next: Status, now: int, strict: bool := true)
    requires BooksMatch(s.ledger, s.bookings) && CreditsMatch(s.ledger, s.bookings, strict)
    requires b in s.bookings && s.bookings[b].status == Cancelled && HoldsHours(next)
    ensures var bk := s.bookings[b];
            var settled := SettledStatus(s.ledger, b, bk, bk.status, next, now);
            settled.Some? && !ReversalOf(settled.value.purchases, b).AlreadySpent? ==>
              var l, bookings' := CreditReversed(settled.value, b), s.bookings[b := EditedTo(bk, next, now)];
              BooksMatch(l, bookings') && CreditsMatch(l, bookings', strict)
  {
    hide SettledStatus, ReversalOf, BooksMatch, CreditsMatch, Reversed;
    ReinstatingKeepsBooks(s.ledger, s.bookings, b, EditedTo(s.bookings[b], next, now), now, strict);
  }

  /** The branches of an edit that is not refused, on the swept state. */
  ghost function EditedState(s: State, b: BookingId, next: Status, now: int): Option<State>
    requires b in s.bookings
  {
    var bk := s.bookings[b];
    var settled := SettledStatus(s.ledger, b, bk, bk.status, next, now);
    var takesBack := bk.status == Cancelled && HoldsHours(next);
    if settled.None? || (takesBack && ReversalOf(settled.value.purchases, b).AlreadySpent?) then None
    else Some(s.(ledger := if takesBack then CreditReversed(settled.value, b) else settled.value,
                 bookings := s.bookings[b := EditedTo(bk, next, now)]))
  }

  /** The state an edit works in. */
  ghost function SweptForEdit(s: State, b: BookingId, next: Status, now: int): State
    requires b in s.bookings
  {
    var bk := s.bookings[b];
    if Occupies(next) && !Occupies(bk.status) then Reconciled(s, RoomWindow(bk.room, bk.start, bk.end), now) else s
  }

  lemma SweptForEditIs(s: State, b: BookingId, next: Status, now: int)
    requires b in s.bookings
    ensures var bk, swept := s.bookings[b], SweptForEdit(s, b, next, now);
            && swept == (if Occupies(next) && !Occupies(bk.status) then Reconciled(s, RoomWindow(bk.room, bk.start, bk.end), now) else s)
            && b in swept.bookings && swept.bookings[b] == bk && swept.sessions == s.sessions && swept.blocks == s.blocks && swept.closed == s.closed
  {
    SweepingTheOwnWindow(s, b, RoomWindow(s.bookings[b].room, s.bookings[b].start, s.bookings[b].end), now);
    hide Reconciled;
  }

  lemma EditedStateIs(s: State, b: BookingId, next: Status, now: int)
    requires b in s.bookings
    ensures var bk := s.bookings[b];
            var settled := SettledStatus(s.ledger, b, bk, bk.status, next, now);
            var takesBack := bk.status == Cancelled && HoldsHours(next);
            EditedState(s, b, next, now)
            == if settled.None? || (takesBack && ReversalOf(settled.value.purchases, b).AlreadySpent?) then None
               else Some(s.(ledger := if takesBack then CreditReversed(settled.value, b) else settled.value,
                            bookings := s.bookings[b := EditedTo(bk, next, now)]))
  {
    hide SettledStatus, ReversalOf, CreditReversed, EditedTo, HoldsHours;
  }

  lemma EditCases(s: State, b: BookingId, next: Status, credited: bool, rate: int, now: int, newId: PurchaseId)
    requires b in s.bookings
    ensures var r := EditStatus(s, b, next, credited, rate, now, newId);
            var bk, swept := s.bookings[b], SweptForEdit(s, b, next, now);
            && b in swept.bookings && swept.bookings[b] == bk && swept.sessions == s.sessions && swept.blocks == s.blocks && swept.closed == s.closed
            && (r.reply == Done || r.state == s)
            && (r.reply == Refused(LostRace) ==>
                  Excluded(swept.bookings, b, EditedTo(bk, next, now))
                  && (Occupies(next) && !Occupies(bk.status) ==>
                        !Conflict(swept, bk.room, bk.start, bk.end, Some(b), now)))
            && (r.reply == Done ==>
                  var edited := EditedState(swept, b, next, now);
                  && edited.Some? && !Excluded(swept.bookings, b, EditedTo(bk, next, now))
                  && var credit := if credited && next == Cancelled && bk.status != Cancelled
                                   then CreditFor(edited.value.ledger.purchases, b, bk, bk.status, rate, now, newId) else NoCredit;
                  && !credit.TooLarge?
                  && r.state == if credit.CreditRow?
                                then edited.value.(ledger := edited.value.ledger.(purchases := edited.value.ledger.purchases[credit.id := credit.row]))
                                else edited.value)
  {
    SweptForEditIs(s, b, next, now);
    EditedStateIs(SweptForEdit(s, b, next, now), b, next, now);
    hide Reconciled, SettledStatus, CreditFor, ReversalOf, Excluded, Conflict, CreditReversed, EditedTo, HoldsHours, Occupies,
      SweptForEdit, EditedState;
  }

  lemma SweptForEditIsSound(s: State, b: BookingId, next: Status, now: int)
    requires Inv(s) && b in s.bookings
    ensures var bk, swept := s.bookings[b], SweptForEdit(s, b, next, now);
            && Inv(swept) && swept.ledger.purchases.Keys == s.ledger.purchases.Keys
            && ((Occupies(next) && !Occupies(bk.status)) ==>
                  !Conflict(swept, bk.room, bk.start, bk.end, Some(b), now) ==> !Excluded(swept.bookings, b, EditedTo(bk, next, now)))
            && (!(Occupies(next) && !Occupies(bk.status)) ==> swept == s && !Excluded(s.bookings, b, EditedTo(bk, next, now)))
  {
    var bk := s.bookings[b];
    var scope := RoomWindow(bk.room, bk.start, bk.end);
    var edited := EditedTo(bk, next, now);
    SameTimes(bk, next, now);
    hide EditedTo;
    if Occupies(next) && !Occupies(bk.status) {
      ReconciledKeepsInv(s, scope, now);
      SweepKeepsPurchases(s, scope, now);
      hide Reconciled, Inv;
      if !Conflict(SweptForEdit(s, b, next, now), bk.room, bk.start, bk.end, Some(b), now) {
        FreeSlotIsNotExcluded(s, bk.room, bk.start, bk.end, b, now, edited);
      }
    } else {
      NoDoubleBookingOf(s);
      StayingIsNotExcluded(s.bookings, b, edited);
    }
  }

  lemma SweepKeepsPurchases(s: State, scope: Scope, now: int)
    ensures Reconciled(s, scope, now).ledger.purchases.Keys == s.ledger.purchases.Keys
  {
  }

  lemma EditedStateKeepsInv(s: State, b: BookingId, next: Status, now: int)
    requires Inv(s) && b in s.bookings && !Crosses(s.bookings[b], next)
    requires !StrandsCredit(s.ledger.purchases, b, next)
    requires !Excluded(s.bookings, b, EditedTo(s.bookings[b], next, now))
    ensures var edited := EditedState(s, b, next, now);
            edited.Some? ==> Inv(edited.value)
  {
    hide Inv, SettledStatus, ReversalOf, EditedTo, Crosses, StrandsCredit, Excluded, CreditReversed;
    if s.bookings[b].status == Cancelled && HoldsHours(next) {
      ReinstatedKeepsInv(s, b, next, now);
    } else {
      EditedRowKeepsInv(s, b, next, now);
    }
  }

  lemma StrandingReadsCredits(s: State, b: BookingId, next: Status, now: int)
    requires b in s.bookings && !StrandsCredit(s.ledger.purchases, b, next)
    ensures !StrandsCredit(SweptForEdit(s, b, next, now).ledger.purchases, b, next)
  {
  }

  /** Any edit of a booking's status that neither crosses between paid and
      unpaid nor strands a credit keeps the whole invariant. */
  lemma EditIsSound(s: State, b: BookingId, next: Status, credited: bool, rate: int, now: int, newId: PurchaseId)
    requires Inv(s) && (next == Cancelled ==> newId !in s.ledger.purchases)
    requires b in s.bookings ==> !Crosses(s.bookings[b], next) && !StrandsCredit(s.ledger.purchases, b, next)
    ensures Sound(EditStatus(s, b, next, credited, rate, now, newId))
  {
    var r := EditStatus(s, b, next, credited, rate, now, newId);
    if b !in s.bookings {
      return;
    }
    var bk, swept := s.bookings[b], SweptForEdit(s, b, next, now);
    hide *;
    EditCases(s, b, next, credited, rate, now, newId);
    SweptForEditIsSound(s, b, next, now);
    StrandingReadsCredits(s, b, next, now);
    if r.reply == Done {
      BooksAndCredits(swept);
      EditedStateKeepsInv(swept, b, next, now);
      var edited := EditedState(swept, b, next, now).value;
      EditedIds(swept, b, next, now);
      if credited && next == Cancelled && bk.status != Cancelled {
        CancelledByEdit(bk, now);
        CreditReadsTerms(edited.ledger.purchases, b, bk, EditedTo(bk, next, now), bk.status, rate, now, newId);
        CreditingKeepsInv(edited, b, bk.status, rate, now, newId);
      }
    }
    SoundWhen(r);
  }

  lemma CancelledByEdit(bk: Booking, now: int)
    ensures var edited := EditedTo(bk, Cancelled, now);
            Resting(edited) && !HoldsHours(edited.status) && edited == bk.(status := edited.status, holdExpires := edited.holdExpires)
  {
  }

  lemma EditedIds(s: State, b: BookingId, next: Status, now: int)
    requires Balanced(s.ledger) && b in s.bookings && EditedState(s, b, next, now).Some?
    ensures var edited := EditedState(s, b, next, now).value;
            edited.ledger.purchases.Keys == s.ledger.purchases.Keys
            && edited.bookings == s.bookings[b := EditedTo(s.bookings[b], next, now)]
            && edited.sessions == s.sessions && edited.blocks == s.blocks && edited.closed == s.closed
  {
    hide EditedTo, ReversalOf;
    SettlingKeepsAllIds(s, b, next, now);
    hide SettledStatus;
  }

  lemma SettlingKeepsAllIds(s: State, b: BookingId, next: Status, now: int)
    requires Balanced(s.ledger) && b in s.bookings
    ensures var bk := s.bookings[b];
            var settled := SettledStatus(s.ledger, b, bk, bk.status, next, now);
            settled.Some? ==> settled.value.purchases.Keys == s.ledger.purchases.Keys
  {
    var bk := s.bookings[b];
    if !HoldsHours(next) {
      SettlingKeepsIds(s.ledger, b, bk, bk.status, next, now);
    } else {
      RedebitSparesOwnCredit(s.ledger, b, bk, bk.status, next, now);
    }
  }

  /** Whatever an edit does, slots stay disjoint and every booking holds its
      share in the statuses that hold hours. */
  lemma EditedStateKeepsBooks(s: State, b: BookingId, next: Status, now: int, strict: bool := true)
    requires BooksMatch(s.ledger, s.bookings) && CreditsMatch(s.ledger, s.bookings, strict) && NoDoubleBooking(s.bookings)
    requires b in s.bookings && !Excluded(s.bookings, b, EditedTo(s.bookings[b], next, now))
    ensures var edited := EditedState(s, b, next, now);
            edited.Some? ==>
              && BooksMatch(edited.value.ledger, edited.value.bookings) && NoDoubleBooking(edited.value.bookings)
              && (!strict || next == Cancelled ==> CreditsMatch(edited.value.ledger, edited.value.bookings, strict))
  {
    var bk := s.bookings[b];
    var edited := EditedTo(bk, next, now);
    hide *;
    EditedStateUnfolds(s, b, next, now);
    TimesOf(s.bookings, b);
    SameTimes(bk, next, now);
    WritingKeepsSlots(s.bookings, b, edited);
    EditedClaim(bk, next, now);
    if bk.status == Cancelled && HoldsHours(next) { ReinstatedBooks(s, b, next, now, strict); }
    StatusChangeKeepsBooks(s.ledger, s.bookings, b, edited, now, strict);
  }

  lemma EditedClaim(bk: Booking, next: Status, now: int)
    ensures SameClaim(bk, EditedTo(bk, next, now))
    ensures next == Cancelled ==> Resting(EditedTo(bk, next, now)) && !HoldsHours(next)
  {
  }

  lemma TimesOf(bookings: BookingTable, b: BookingId)
    requires NoDoubleBooking(bookings) && b in bookings
    ensures bookings[b].start < bookings[b].end
  {
  }

  lemma EditedStateUnfolds(s: State, b: BookingId, next: Status, now: int)
    requires b in s.bookings
    ensures var bk := s.bookings[b];
            var settled := SettledStatus(s.ledger, b, bk, bk.status, next, now);
            var edited := EditedState(s, b, next, now);
            edited.Some? ==>
              && settled.Some?
              && edited.value.bookings == s.bookings[b := EditedTo(bk, next, now)]
              && (if bk.status == Cancelled && HoldsHours(next)
                  then !ReversalOf(settled.value.purchases, b).AlreadySpent? && edited.value.ledger == CreditReversed(settled.value, b)
                  else edited.value.ledger == settled.value)
  {
    hide SettledStatus, ReversalOf, CreditReversed, EditedTo;
  }

  /** An edit that goes through always leaves slots disjoint and the books in
      order. It keeps the whole invariant if and only if it neither crosses
      between paid and unpaid nor strands a credit. */
  lemma EditKeepsInvExactlyIf(s: State, b: BookingId, next: Status, credited: bool, rate: int, now: int, newId: PurchaseId)
    requires Inv(s) && (next == Cancelled ==> newId !in s.ledger.purchases)
    requires b in s.bookings && EditStatus(s, b, next, credited, rate, now, newId).reply == Done
    ensures var r := EditStatus(s, b, next, credited, rate, now, newId);
            && BooksMatch(r.state.ledger, r.state.bookings) && NoDoubleBooking(r.state.bookings)
            && (Inv(r.state) <==> !Crosses(s.bookings[b], next) && !StrandsCredit(s.ledger.purchases, b, next))
  {
    var r := EditStatus(s, b, next, credited, rate, now, newId);
    var bk, swept := s.bookings[b], SweptForEdit(s, b, next, now);
    hide *;
    EditCases(s, b, next, credited, rate, now, newId);
    SweptForEditIsSound(s, b, next, now);
    BooksAndCredits(swept);
    NoDoubleBookingOf(swept);
    EditedStateKeepsBooks(swept, b, next, now);
    var edited := EditedState(swept, b, next, now).value;
    EditedIds(swept, b, next, now);
    if credited && next == Cancelled && bk.status != Cancelled {
      CancelledByEdit(bk, now);
      CreditReadsTerms(edited.ledger.purchases, b, bk, EditedTo(bk, next, now), bk.status, rate, now, newId);
      CreditingKeepsBooks(edited.ledger, edited.bookings, b, bk.status, rate, now, newId);
    }
    if !Crosses(bk, next) && !StrandsCredit(s.ledger.purchases, b, next) {
      EditIsSound(s, b, next, credited, rate, now, newId);
      SoundKeepsInv(r);
    } else {
      BookingFacts(s, b);
      if Crosses(bk, next) {
        CrossingBreaksPayments(r.state, b, bk, next, now);
      } else {
        StrandedCredit(s, b, bk, next, now);
        StrandingBreaksCredits(r.state, b, bk, next, now);
      }
    }
  }

  lemma SoundKeepsInv(r: Result)
    requires Sound(r)
    ensures Inv(r.state)
  {
    hide Inv;
  }

  lemma CrossingBreaksPayments(s: State, b: BookingId, bk: Booking, next: Status, now: int)
    requires PaymentState(bk) && Crosses(bk, next)
    requires b in s.bookings && s.bookings[b] == EditedTo(bk, next, now)
    ensures !Inv(s)
  {
    hide BooksMatch, CreditsMatch, NoDoubleBooking;
    assert !PaymentState(s.bookings[b]);
  }

  /** Where an edit strands a credit, no hours move and nothing is credited. */
  lemma StrandedCredit(s: State, b: BookingId, bk: Booking, next: Status, now: int)
    requires Inv(s) && b in s.bookings && bk == s.bookings[b] && StrandsCredit(s.ledger.purchases, b, next)
    requires EditedState(SweptForEdit(s, b, next, now), b, next, now).Some?
    ensures next != Cancelled && StrandsCredit(EditedState(SweptForEdit(s, b, next, now), b, next, now).value.ledger.purchases, b, next)
  {
    StrandingIsOfResting(s, b, next);
    hide *;
    SweptForEditIs(s, b, next, now);
    StrandingMeans(s.ledger.purchases, b, next);
    EditedStateUnfolds(s, b, next, now);
    NothingSettled(s.ledger, b, bk, next, now);
  }

  lemma StrandingIsOfResting(s: State, b: BookingId, next: Status)
    requires Inv(s) && b in s.bookings && StrandsCredit(s.ledger.purchases, b, next)
    ensures s.bookings[b].status == Cancelled
  {
    if !Resting(s.bookings[b]) { OnlyRestingHasCredit(s, b); }
    hide Inv;
  }

  lemma StrandingMeans(purchases: PurchaseTable, b: BookingId, next: Status)
    requires StrandsCredit(purchases, b, next)
    ensures next != Cancelled && !HoldsHours(next) && !Occupies(next) && !HoldsHours(Cancelled)
  {
    hide CreditsOf;
  }

  lemma NothingSettled(l: Ledger, b: BookingId, bk: Booking, next: Status, now: int)
    requires HoldsHours(bk.status) == HoldsHours(next)
    ensures SettledStatus(l, b, bk, bk.status, next, now) == Some(l)
  {
  }

  lemma StrandingBreaksCredits(s: State, b: BookingId, bk: Booking, next: Status, now: int)
    requires StrandsCredit(s.ledger.purchases, b, next)
    requires b in s.bookings && s.bookings[b] == EditedTo(bk, next, now)
    ensures !Inv(s)
  {
    hide BooksMatch, SessionsMatch, NoDoubleBooking;
    var p :| p in CreditsOf(s.ledger.purchases, b) && !WrittenOff(s.ledger.purchases[p]);
    assert !CreditStands(s.ledger.purchases[p], s.bookings);
  }

  /** A booking that rests cancelled and was paid for can be put back. */
  lemma ReinstateIsSound(s: State, b: BookingId, now: int)
    requires Inv(s)
    ensures Sound(Reinstate(s, b, now))
  {
    if b in s.bookings && Resting(s.bookings[b]) {
      BookingFacts(s, b);
      RestingDoesNotCross(s.bookings[b]);
      hide EditStatus, Inv, Crosses;
      EditIsSound(s, b, Confirmed, true, 0, now, 0);
    }
  }

  lemma RestingDoesNotCross(bk: Booking)
    requires PaymentState(bk) && Resting(bk)
    ensures !Crosses(bk, Confirmed)
  {
  }

  // ---- moving ----------------------------------------------------------------------------

  lemma RowsHavePurchases(s: State)
    requires Inv(s)
    ensures forall k | k in s.ledger.debits :: k.purchase in s.ledger.purchases
  {
  }

  /** The row a move writes. */
  function MovedRow(bk: Booking, room: RoomId, start: int, end: int, share: int, now: int): Booking {
    EditedTo(bk, bk.status, now).(room := room, start := start, end := end,
                                  duration := WholeHours(start, end), share := share)
  }

  lemma MovedRowIs(bk: Booking, room: RoomId, start: int, end: int, share: int, now: int)
    ensures var moved := MovedRow(bk, room, start, end, share, now);
            && moved.user == bk.user && moved.org == bk.org && moved.status == bk.status && moved.session == bk.session
            && moved.paidAt == bk.paidAt && moved.room == room && moved.start == start && moved.end == end
            && moved.duration == WholeHours(start, end) && moved.share == share
            && (Resting(bk) ==> Resting(moved))
    ensures PaymentState(bk) && !Crosses(bk, bk.status) && (bk.session.None? ==> bk.share == share || bk.series.None?) ==>
              PaymentState(MovedRow(bk, room, start, end, share, now))
  {
    hide WholeHours;
  }

  lemma WholeHoursAreNatural(start: int, end: int)
    requires start < end
    ensures WholeHours(start, end) >= 0
  {
  }

  /** A move, once the time is accepted and the slot is free. */
  lemma MoveCasesOf(s: State, cal: Calendar, b: BookingId, room: RoomId, start: int, end: int, now: int)
    requires forall k | k in s.ledger.debits :: k.purchase in s.ledger.purchases
    ensures var r := MoveTo(s, cal, b, room, start, end, now);
            r == Result(s, r.reply)
            || (&& b in s.bookings && start < end
                && var swept := if Occupies(s.bookings[b].status) then Reconciled(s, RoomWindow(room, start, end), now) else s;
                && b in swept.bookings
                && (forall k | k in swept.ledger.debits :: k.purchase in swept.ledger.purchases)
                && var bk := swept.bookings[b];
                   var move := SettledMove(swept.ledger, b, bk, WholeHours(start, end), now);
                   var moved := MovedRow(bk, room, start, end, move.share, now);
                && !Excluded(swept.bookings, b, moved)
                && r == Result(swept.(ledger := move.ledger, bookings := swept.bookings[b := moved]), Done))
  {
    var scope := RoomWindow(room, start, end);
    hide IsOpen, SettledMove, EditedTo, Conflict, WholeHours, Excluded;
    if b in s.bookings {
      SweepingTheOwnWindow(s, b, scope, now);
    }
    hide Reconciled;
  }

  /** A move never loses its slot to the constraint once it saw no conflict. */
  lemma MovingIntoAFreeSlot(s: State, cal: Calendar, b: BookingId, room: RoomId, start: int, end: int, now: int)
    requires NoDoubleBooking(s.bookings)
    requires forall k | k in s.ledger.debits :: k.purchase in s.ledger.purchases
    ensures MoveTo(s, cal, b, room, start, end, now).reply != Refused(LostRace)
  {
    if MoveRefusal(s, cal, b, room, start, end, now).None? {
      hide IsOpen, SettledMove, EditedTo, WholeHours;
      var scope := RoomWindow(room, start, end);
      var occupies := Occupies(s.bookings[b].status);
      var swept := if occupies then Reconciled(s, scope, now) else s;
      SweepingTheOwnWindow(s, b, scope, now);
      if occupies && !Conflict(swept, room, start, end, Some(b), now) {
        var bk := swept.bookings[b];
        var share := SettledMove(swept.ledger, b, bk, WholeHours(start, end), now).share;
        hide Reconciled;
        MovedRowIs(bk, room, start, end, share, now);
        FreeSlotIsNotExcluded(s, room, start, end, b, now, MovedRow(bk, room, start, end, share, now));
      }
    }
  }

  lemma MoveIsSound(s: State, cal: Calendar, b: BookingId, room: RoomId, start: int, end: int, now: int)
    requires Inv(s)
    requires b in s.bookings ==> !Crosses(s.bookings[b], s.bookings[b].status)
    ensures (forall k | k in s.ledger.debits :: k.purchase in s.ledger.purchases)
    ensures Sound(MoveTo(s, cal, b, room, start, end, now))
  {
    RowsHavePurchases(s);
    var r := MoveTo(s, cal, b, room, start, end, now);
    hide *;
    NoDoubleBookingOf(s);
    MovingIntoAFreeSlot(s, cal, b, room, start, end, now);
    MoveCasesOf(s, cal, b, room, start, end, now);
    if r != Result(s, r.reply) {
      var scope := RoomWindow(room, start, end);
      ReconciledKeepsInv(s, scope, now);
      SweepingDoesNotCross(s, b, scope, now);
      var swept := if Occupies(s.bookings[b].status) then Reconciled(s, scope, now) else s;
      var bk := swept.bookings[b];
      WholeHoursAreNatural(start, end);
      MovedKeepsInv(swept, b, room, start, end, now);
    }
    SoundWhen(r);
  }

  /** Whatever a move does, slots stay disjoint and the books and credits in
      order. It keeps the whole invariant if and only if it is not one of an
      unpaid hold the customer had cancelled, which it makes look settled. */
  lemma MoveKeepsInvExactlyIf(s: State, cal: Calendar, b: BookingId, room: RoomId, start: int, end: int, now: int)
    requires Inv(s) && b in s.bookings
    ensures (forall k | k in s.ledger.debits :: k.purchase in s.ledger.purchases)
    ensures var r := MoveTo(s, cal, b, room, start, end, now);
            && r.reply != Refused(LostRace)
            && BooksMatch(r.state.ledger, r.state.bookings) && CreditsMatch(r.state.ledger, r.state.bookings)
            && NoDoubleBooking(r.state.bookings)
            && (r != Result(s, r.reply) ==>
                  (Inv(r.state) <==> !(s.bookings[b].status == Cancelled && s.bookings[b].session.Some? && s.bookings[b].paidAt.None?)))
  {
    RowsHavePurchases(s);
    var r := MoveTo(s, cal, b, room, start, end, now);
    hide *;
    NoDoubleBookingOf(s);
    BooksAndCredits(s);
    MovingIntoAFreeSlot(s, cal, b, room, start, end, now);
    MoveCasesOf(s, cal, b, room, start, end, now);
    if r != Result(s, r.reply) {
      var scope := RoomWindow(room, start, end);
      ReconciledKeepsInv(s, scope, now);
      BookingFacts(s, b);
      SweepingTheOwnWindow(s, b, scope, now);
      CrossingMoves(s.bookings[b]);
      var swept := if Occupies(s.bookings[b].status) then Reconciled(s, scope, now) else s;
      BooksAndCredits(swept);
      NoDoubleBookingOf(swept);
      MovedKeepsBooks(swept, b, room, start, end, now);
      if Crosses(s.bookings[b], s.bookings[b].status) {
        OccupiesMeans(s.bookings[b].status);
        MovedAcross(r.state, b, s.bookings[b], room, start, end,
                    SettledMove(swept.ledger, b, s.bookings[b], WholeHours(start, end), now).share, now);
      } else {
        MoveIsSound(s, cal, b, room, start, end, now);
        SoundKeepsInv(r);
      }
    }
  }

  lemma CrossingMoves(bk: Booking)
    requires PaymentState(bk)
    ensures Crosses(bk, bk.status) <==> bk.status == Cancelled && bk.session.Some? && bk.paidAt.None?
  {
  }

  lemma MovedAcross(s: State, b: BookingId, bk: Booking, room: RoomId, start: int, end: int, share: int, now: int)
    requires PaymentState(bk) && Crosses(bk, bk.status)
    requires b in s.bookings && s.bookings[b] == MovedRow(bk, room, start, end, share, now)
    ensures !Inv(s)
  {
    hide BooksMatch, CreditsMatch, NoDoubleBooking, WholeHours;
    assert !PaymentState(s.bookings[b]);
  }

  lemma MovedKeepsBooks(s: State, b: BookingId, room: RoomId, start: int, end: int, now: int, strict: bool := true)
    requires BooksMatch(s.ledger, s.bookings) && CreditsMatch(s.ledger, s.bookings, strict) && NoDoubleBooking(s.bookings)
    requires b in s.bookings && start < end
    requires forall k | k in s.ledger.debits :: k.purchase in s.ledger.purchases
    requires var bk := s.bookings[b];
             !Excluded(s.bookings, b,
                       MovedRow(bk, room, start, end, SettledMove(s.ledger, b, bk, WholeHours(start, end), now).share, now))
    ensures var bk := s.bookings[b];
            var move := SettledMove(s.ledger, b, bk, WholeHours(start, end), now);
            var bookings' := s.bookings[b := MovedRow(bk, room, start, end, move.share, now)];
            BooksMatch(move.ledger, bookings') && CreditsMatch(move.ledger, bookings', strict) && NoDoubleBooking(bookings')
  {
    var bk := s.bookings[b];
    var move := SettledMove(s.ledger, b, bk, WholeHours(start, end), now);
    var moved := MovedRow(bk, room, start, end, move.share, now);
    hide *;
    WholeHoursAreNatural(start, end);
    MovedRowIs(bk, room, start, end, move.share, now);
    MovingKeepsBooks(s.ledger, s.bookings, b, moved, now, strict);
    WritingKeepsSlots(s.bookings, b, moved);
  }

  lemma SweepingDoesNotCross(s: State, b: BookingId, scope: Scope, now: int)
    requires b in s.bookings && !Crosses(s.bookings[b], s.bookings[b].status)
    ensures b in Reconciled(s, scope, now).bookings
    ensures var swept := Reconciled(s, scope, now).bookings[b];
            !Crosses(swept, swept.status)
  {
    hide Released;
  }

  lemma MovedKeepsInv(s: State, b: BookingId, room: RoomId, start: int, end: int, now: int)
    requires Inv(s) && b in s.bookings && start < end && !Crosses(s.bookings[b], s.bookings[b].status)
    requires forall k | k in s.ledger.debits :: k.purchase in s.ledger.purchases
    requires var bk := s.bookings[b];
             !Excluded(s.bookings, b,
                       MovedRow(bk, room, start, end, SettledMove(s.ledger, b, bk, WholeHours(start, end), now).share, now))
    ensures var bk := s.bookings[b];
            var move := SettledMove(s.ledger, b, bk, WholeHours(start, end), now);
            Inv(s.(ledger := move.ledger, bookings := s.bookings[b := MovedRow(bk, room, start, end, move.share, now)]))
  {
    var bk := s.bookings[b];
    var move := SettledMove(s.ledger, b, bk, WholeHours(start, end), now);
    var moved := MovedRow(bk, room, start, end, move.share, now);
    hide *;
    BookingFacts(s, b);
    SharelessStaysShareless(s.ledger, b, bk, WholeHours(start, end), now);
    MovedRowIs(bk, room, start, end, move.share, now);
    BooksAndCredits(s);
    NoDoubleBookingOf(s);
    MovedKeepsBooks(s, b, room, start, end, now);
    WritingKeepsInv(s, b, moved, move.ledger);
  }

  lemma SharelessStaysShareless(l: Ledger, b: BookingId, bk: Booking, newDuration: int, now: int)
    requires forall k | k in l.debits :: k.purchase in l.purchases
    requires PaymentState(bk)
    ensures bk.session.None? && bk.series.Some? ==> SettledMove(l, b, bk, newDuration, now).share == bk.share
  {
  }

  lemma BooksAndCredits(s: State)
    requires Inv(s)
    ensures BooksMatch(s.ledger, s.bookings) && CreditsMatch(s.ledger, s.bookings) && Balanced(s.ledger)
  {
    hide CreditsMatch, Balanced;
  }

  // ---- purchases ---------------------------------------------------------------------------

  lemma AddPurchaseKeepsInv(s: State, p: PurchaseId, user: UserId, org: OrgId, hours: int, expires: int, paid: bool)
    requires Inv(s) && p !in s.ledger.purchases && hours >= 0
    ensures Inv(AddPurchase(s, p, user, org, hours, expires, paid))
  {
    hide BooksMatch, NoDoubleBooking, SessionsMatch;
    PurchaseKeepsBooks(s.ledger, s.bookings, p,
                       Purchase(user, org, hours, 0, hours, if paid then Spendable else AwaitingPayment, expires, None));
  }

  lemma SettlePurchaseKeepsInv(s: State, p: PurchaseId, paid: bool)
    requires Inv(s)
    ensures Inv(SettlePurchase(s, p, paid))
  {
    hide BooksMatch, NoDoubleBooking, SessionsMatch;
    if p in s.ledger.purchases && s.ledger.purchases[p].status == AwaitingPayment {
      assert CreditStands(s.ledger.purchases[p], s.bookings);
      StatusKeepsBooks(s.ledger, s.bookings, p, if paid then Spendable else Withdrawn);
    }
  }
}
