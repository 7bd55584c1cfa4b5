/** From booking to cancellation: what an unmoved booking is worth. */
module UnmovedBookings {
  import opened Model
  import opened Ledgers
  import opened Settlement
  import opened Credit
  import opened Lifecycle
  import opened Invariant
  import opened Preservation
  import opened Runs
  import opened Payments
  import opened Refunds
  import opened BankBalance
  import opened VisibleBalance

  /** The row a successful request becomes. */
  lemma CreatedRow(s: State, cal: Calendar, req: Request, id: BookingId, session: SessionId, now: int, rate: int,
                   providerUp: bool)
    requires Inv(s) && id !in s.bookings && session !in s.sessions && rate >= 0
    requires Create(s, cal, req, id, session, now, rate, providerUp).reply == Done
    ensures var r := Create(s, cal, req, id, session, now, rate, providerUp);
            && id in r.state.bookings
            && AsPriced(r.state.bookings[id], rate)
            && r.state.bookings[id].user == req.user && r.state.bookings[id].org == req.org
            && r.state.bookings[id].duration == WholeHours(req.start, req.end) <= MAX_LEDGER_HOURS
  {
    hide Inv, IsOpen, Conflict, Excluded, Drawn, Reconciled, AmountFor, AsPriced, WalkDraws;
    var before := BeforeCreate(s, req, now);
    ShareDrawsFit(before.ledger.purchases, req.user, req.org, WholeHours(req.start, req.end), now, None);
    var share := TotalDrawn(RequestDraws(before.ledger.purchases, req, now));
    NewBookingsAreAsPriced(req, share, rate, session, now);
    LengthsAreModest(req.start, req.end);
    hide BeforeCreate, WholeHours;
  }

  lemma LengthsAreModest(start: int, end: int)
    requires end - start <= MAX_BOOKING_LENGTH
    ensures WholeHours(start, end) <= MAX_LEDGER_HOURS
  {
  }

  lemma TermsKeepThePrice(bk: Booking, bk': Booking, rate: int)
    requires SameTerms(bk, bk') && AsPriced(bk, rate)
    ensures AsPriced(bk', rate)
  {
    hide AmountFor;
  }

  /** A booking made at a rate of at least 1.00 an hour and never moved, once
      confirmed, is worth exactly its length to whoever cancels it in time at
      that rate, whatever happened in between and however it was paid; the
      balance shown rises by all of it but what lies on lapsed packs. */
  lemma CancellingAnUnmovedBooking(s: State, cal: Calendar, req: Request, id: BookingId, session: SessionId, made: int,
                                   rate: int, providerUp: bool, events: seq<Event>, now: int, newId: PurchaseId,
                                   user: UserId, org: OrgId)
    requires Inv(s) && id !in s.bookings && session !in s.sessions && rate >= 100 && id !in AllMoved(events)
    ensures var created := Create(s, cal, req, id, session, made, rate, providerUp);
            created.reply == Done ==>
              var later := After(created.state, events);
              && id in later.bookings
              && (later.bookings[id].status == Confirmed && later.bookings[id].start - now >= CANCELLATION_NOTICE
                  && newId !in later.ledger.purchases ==>
                    var r := Cancel(later, id, req.user, now, rate, newId);
                    && r.reply == Done
                    && BankTotal(r.state.ledger.purchases, user, org)
                       == BankTotal(later.ledger.purchases, user, org)
                          + (if user == req.user && org == req.org then WholeHours(req.start, req.end) else 0)
                    && BalanceOf(r.state.ledger.purchases, user, org, now).available
                       == BalanceOf(later.ledger.purchases, user, org, now).available
                          + (if user == req.user && org == req.org
                             then PaidHours(later.bookings[id]) + ShareStillLive(later.ledger, id, user, org, now) else 0))
  {
    hide *;
    if Create(s, cal, req, id, session, made, rate, providerUp).reply != Done {
      return;
    }
    var created := Create(s, cal, req, id, session, made, rate, providerUp).state;
    CreateIsSound(s, cal, req, id, session, made, rate, providerUp);
    SoundKeepsInv(Create(s, cal, req, id, session, made, rate, providerUp));
    CreatedRow(s, cal, req, id, session, made, rate, providerUp);
    RunsRemember(created, events);
    RunKeepsInv(created, events);
    var later := After(created, events);
    RememberedTerms(created, later, AllMoved(events), id);
    TermsKeepThePrice(created.bookings[id], later.bookings[id], rate);
    TermsAre(created.bookings[id], later.bookings[id]);
    if later.bookings[id].status == Confirmed && later.bookings[id].start - now >= CANCELLATION_NOTICE
       && newId !in later.ledger.purchases
    {
      CancellingGivesTheHoursBack(later, id, now, rate, newId, user, org);
      CancellingRaisesTheBalance(later, id, now, rate, newId, user, org);
    }
  }

  lemma RememberedTerms(s: State, s': State, moved: set<BookingId>, b: BookingId)
    requires Remembers(s, s', moved) && b in s.bookings && b !in moved
    ensures b in s'.bookings && SameTerms(s.bookings[b], s'.bookings[b])
  {
    hide SameTerms;
  }

  lemma TermsAre(bk: Booking, bk': Booking)
    requires SameTerms(bk, bk')
    ensures bk'.user == bk.user && bk'.org == bk.org && bk'.duration == bk.duration
  {
  }
}
