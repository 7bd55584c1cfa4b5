/** The handlers as they run: checks in order, rows and sessions updated in
    place, and a rollback or a savepoint where the program takes one. Each
    leaves what its function in Lifecycle says. */
module Desks {
  import opened Model
  import opened Ledgers
  import opened Settlement
  import opened Credit
  import opened Books
  import opened Zones
  import opened OpenWindow
  import opened Lifecycle
  import opened Invariant
  import opened Preservation
  import opened Bank

  // ---- what the handlers need of the invariant ---------------------------------------------

  /** Rows point at purchases, and only bookings that hold hours have any. */
  lemma RowFacts(s: State, b: BookingId)
    requires Inv(s)
    ensures PositiveRows(s.ledger.debits) && OneCreditEach(s.ledger.purchases)
    ensures forall k | k in s.ledger.debits :: k.purchase in s.ledger.purchases
    ensures b !in s.bookings || Held(s.bookings[b]) == 0 ==> forall k | k in s.ledger.debits :: k.booking != b
  {
    hide NoDoubleBooking, SessionsMatch, HoursFor, HoursOn;
    if b in s.bookings && Held(s.bookings[b]) == 0 {
      NoHoursNoRows(s.ledger.debits, b);
    }
  }

  lemma ShareIsNatural(s: State, b: BookingId)
    requires Inv(s) && b in s.bookings
    ensures s.bookings[b].share >= 0 && s.bookings[b].start < s.bookings[b].end
    ensures !HoldsHours(s.bookings[b].status) || s.bookings[b].share == 0 ==> Held(s.bookings[b]) == 0
  {
    BookingFacts(s, b);
    hide Inv;
  }

  lemma NothingReleased(l: Ledger)
    ensures Released(l, {}) == l
  {
    assert Without(l.debits, {}) == l.debits;
    RebaseInPlace(l);
  }

  /** Releasing a booking without rows changes nothing. */
  lemma ReleasingNothing(l: Ledger, done: set<BookingId>, b: BookingId)
    requires forall k | k in l.debits :: k.booking != b
    ensures Released(l, done + {b}) == Released(l, done)
  {
    assert Without(l.debits, done + {b}) == Without(l.debits, done);
  }

  /** After some bookings are released the others' rows are still as they were. */
  lemma RowsAfterReleasing(l: Ledger, done: set<BookingId>)
    requires forall k | k in l.debits :: k.purchase in l.purchases
    ensures forall k | k in Released(l, done).debits :: k.purchase in Released(l, done).purchases
  {
  }

  lemma ReconciledIs(s: State, scope: Scope, now: int)
    ensures var lapsed := LapsedIn(s.bookings, scope, now);
            Reconciled(s, scope, now)
            == State(Released(s.ledger, lapsed), Expire(s.bookings, lapsed), s.sessions, s.blocks, s.closed)
  {
    hide Released, Expire, LapsedIn;
  }

  lemma ConflictIs(s: State, room: RoomId, start: int, end: int, except: Option<BookingId>, now: int)
    ensures Conflict(s, room, start, end, except, now)
            <==> BookedOver(s.bookings, room, start, end, except, now) || BlockedOver(s.blocks, room, start, end)
  {
  }

  // ---- letting a hold go ----------------------------------------------------------------------------

  /** At most one booking has a given session, so the query finds the one. */
  lemma OneHoldPerSession(s: State, x: SessionId)
    requires Inv(s)
    ensures forall b | b in HoldsWith(s.bookings, x) :: b in s.bookings && LetGo(s, x, 0).reply == Done
    ensures forall b, c | b in HoldsWith(s.bookings, x) && c in HoldsWith(s.bookings, x) :: b == c
  {
    hide BooksMatch, CreditsMatch, NoDoubleBooking, Abandoned, PaymentState;
  }

  lemma LetGoCases(s: State, x: SessionId, now: int)
    requires Inv(s)
    ensures HoldsWith(s.bookings, x) == {} ==> LetGo(s, x, now) == Result(s, Ignored)
    ensures forall b | b in HoldsWith(s.bookings, x) :: b in s.bookings && LetGo(s, x, now) == Result(Abandoned(s, b, now), Done)
  {
    OneHoldPerSession(s, x);
    hide Inv, Abandoned;
  }

  // ---- the branches of the other handlers -----------------------------------------------------------

  lemma TimeCases(cal: Calendar, room: RoomId, start: int, end: int, now: int)
    ensures TimeRefusal(cal, room, start, end, now)
            == if end <= start then Some(EmptyInterval)
               else if start < now then Some(InThePast)
               else if start > now + BOOKING_WINDOW then Some(TooFarAhead)
               else if end - start > MAX_BOOKING_LENGTH then Some(TooLong)
               else if !WithinOpenHours(RulesOf(cal, room), ZoneOf(cal, room), start, end) then Some(ClosedHours)
               else None
  {
    hide WithinOpenHours, RulesOf, ZoneOf;
  }

  lemma BeforeCreateIs(s: State, req: Request, now: int)
    ensures var swept := Reconciled(s, RoomWindow(req.room, req.start, req.end), now);
            BeforeCreate(s, req, now) == if req.payment == Hourly then swept else Reconciled(swept, OfUser(req.user), now)
  {
    hide Reconciled;
  }

  lemma ReopenedReadsNoSessions(rolledBack: State, s: State, sessions: map<SessionId, Session>, b: BookingId,
                                session: SessionId, now: int, openFails: bool)
    requires b in s.bookings
    ensures Reopened(rolledBack, s.(sessions := sessions), b, session, now, openFails)
            == Reopened(rolledBack, s, b, session, now, openFails)
  {
    hide SettledStatus, Excluded;
  }

  lemma SettlingKeepsOneCredit(s: State, b: BookingId, now: int)
    requires Inv(s) && b in s.bookings
    ensures var settled := SettledStatus(s.ledger, b, s.bookings[b], s.bookings[b].status, Cancelled, now);
            settled.Some? && OneCreditEach(settled.value.purchases)
  {
    hide BooksMatch, NoDoubleBooking, SessionsMatch, Released, Redebited;
    StatusChangeKeepsBooks(s.ledger, s.bookings, b, s.bookings[b].(status := Cancelled), now);
  }

  const PACK_CHECKOUT_LIFETIME := HOUR

  /** Purchases awaiting payment since before the cutoff. */
  function Stale(purchases: PurchaseTable, purchasedAt: map<PurchaseId, int>, now: int): set<PurchaseId> {
    set p | p in purchases && purchases[p].status == AwaitingPayment
            && p in purchasedAt && purchasedAt[p] < now - PACK_CHECKOUT_LIFETIME
  }

  /** Reconciling lapsed holds makes no purchase more or less stale. */
  lemma SweepingKeepsStale(s: State, scope: Scope, purchasedAt: map<PurchaseId, int>, now: int)
    ensures Stale(Reconciled(s, scope, now).ledger.purchases, purchasedAt, now) == Stale(s.ledger.purchases, purchasedAt, now)
  {
    hide HoursOn;
  }

  /** Purchases awaiting payment for too long, given up. */
  function GivenUp(purchases: PurchaseTable, stale: set<PurchaseId>): PurchaseTable {
    map p | p in purchases ::
      if p in stale && purchases[p].status == AwaitingPayment then purchases[p].(status := Withdrawn) else purchases[p]
  }

  lemma GivingUpOneFirst(s: State, stale: set<PurchaseId>, p: PurchaseId)
    requires p in stale
    ensures var once := SettlePurchase(s, p, false);
            once.(ledger := once.ledger.(purchases := GivenUp(once.ledger.purchases, stale - {p})))
            == s.(ledger := s.ledger.(purchases := GivenUp(s.ledger.purchases, stale)))
  {
    var once := SettlePurchase(s, p, false);
    assert GivenUp(once.ledger.purchases, stale - {p}) == GivenUp(s.ledger.purchases, stale);
  }

  lemma {:induction false} GivingUpKeepsInv(s: State, stale: set<PurchaseId>)
    requires Inv(s)
    ensures Inv(s.(ledger := s.ledger.(purchases := GivenUp(s.ledger.purchases, stale))))
    decreases |stale|
  {
    if stale == {} {
      assert GivenUp(s.ledger.purchases, {}) == s.ledger.purchases;
      assert s == s.(ledger := s.ledger.(purchases := s.ledger.purchases));
    } else {
      hide Inv;
      var p :| p in stale;
      var once := SettlePurchase(s, p, false);
      GivingUpOneFirst(s, stale, p);
      SettlePurchaseKeepsInv(s, p, false);
      GivingUpKeepsInv(once, stale - {p});
    }
  }

  /** What the state of the row's checkout answers a resume with, if it ends there. */
  function SessionObstacle(bk: Booking, current: Option<SessionState>, live: bool, faults: Faults): Option<Reply> {
    if live && bk.session.Some? && faults.lookup then Some(Refused(ProviderDown))
    else if live && current == Some(Paid) then Some(Refused(AlreadyPaid))
    else if live && current == Some(SessionState.Open) then Some(Done)
    else if bk.session.Some? && faults.close then Some(Refused(ProviderDown))
    else if current == Some(Paid) then Some(Refused(AlreadyPaid))
    else None
  }

  lemma ResumeInShort(s: State, b: BookingId, user: UserId, session: SessionId, now: int, faults: Faults)
    requires session !in s.sessions
    ensures var r := Resume(s, b, user, session, now, faults);
            var refusal := ResumeRefusal(s, b, user, now);
            if refusal.Some? then r == Result(s, Refused(refusal.value))
            else
              && b in s.bookings
              && var bk := s.bookings[b];
              var live := LiveHold(bk, now);
              var swept := if live then s else Reconciled(s, RoomWindow(bk.room, bk.start, bk.end), now);
              var obstacle := SessionObstacle(bk, SessionOf(s, bk), live, faults);
              && b in swept.bookings && swept.sessions == s.sessions && swept.blocks == s.blocks && swept.closed == s.closed
              && (bk.session.None? ==> SessionOf(s, bk).None?)
              && (if !live && Conflict(swept, bk.room, bk.start, bk.end, Some(b), now) then r == Result(s, Refused(SlotTaken))
                  else if obstacle.Some? then r == Result(s, obstacle.value)
                  else
                    var sessions := if bk.session.Some? then Close(s.sessions, bk.session.value) else s.sessions;
                    r == Reopened(s.(sessions := sessions), swept, b, session, now, faults.open))
  {
    ResumeCases(s, b, user, session, now, faults);
    hide Resume, ResumeRefusal, Reconciled, Conflict, Reopened, Close, LiveHold;
  }

  // ---- the desk --------------------------------------------------------------------------------

  /** The tables a failed request goes back to. */
  datatype Savepoint = Savepoint(ledger: Ledger, bookings: BookingTable)

  class Desk {
    const bank: HourBank
    var bookings: BookingTable
    var sessions: map<SessionId, Session>
    var blocks: set<Block>
    var closed: set<SeriesId>

    constructor (bank: HourBank)
      ensures this.bank == bank && bookings == map[] && sessions == map[] && blocks == {} && closed == {}
    {
      this.bank := bank;
      bookings := map[];
      sessions := map[];
      blocks := {};
      closed := {};
    }

    function View(): State
      reads this, bank
    {
      State(bank.Books(), bookings, sessions, blocks, closed)
    }

    lemma ViewIs()
      ensures View() == State(bank.Books(), bookings, sessions, blocks, closed)
      ensures bank.Books() == Ledger(bank.purchases, bank.debits)
    {
    }

    /** The transaction undone; what the provider did stays done. */
    method RollBack(saved: Savepoint)
      modifies this`bookings, bank
      ensures View() == State(saved.ledger, saved.bookings, sessions, blocks, closed)
    {
      bookings, bank.purchases, bank.debits := saved.bookings, saved.ledger.purchases, saved.ledger.debits;
    }

    /** The one place a hold lapses: the status in one sweep, then each booking's
        hours back. */
    method ExpireLapsedHolds(scope: Scope, now: int) returns (flipped: nat)
      requires Inv(View())
      modifies this`bookings, bank
      ensures View() == Reconciled(old(View()), scope, now)
      ensures flipped == |LapsedIn(old(bookings), scope, now)|
    {
      hide *;
      ghost var s := View();
      ViewIs();
      var lapsed := LapsedIn(bookings, scope, now);
      LapsedAreBookings(bookings, scope, now);
      ReconciledIs(s, scope, now);
      NothingReleased(s.ledger);
      var before := bookings;
      bookings := Expire(bookings, lapsed);
      var todo := lapsed;
      ghost var done: set<BookingId> := {};
      while todo != {}
        invariant todo <= lapsed && done == lapsed - todo
        invariant bank.Books() == Released(s.ledger, done)
        invariant bookings == Expire(s.bookings, lapsed) && sessions == s.sessions && blocks == s.blocks && closed == s.closed
        decreases |todo|
      {
        var b :| b in todo;
        todo := todo - {b};
        RowFacts(s, b);
        ShareIsNatural(s, b);
        if before[b].share > 0 {
          RowsAfterReleasing(s.ledger, done);
          BooksAreTables(bank.Books(), bank.purchases, bank.debits) by { bank.BooksAre(); }
          var _ := bank.ReleaseDebits(b);
          ReleasedTwice(s.ledger, done, {b});
        } else {
          ReleasingNothing(s.ledger, done, b);
        }
        done := done + {b};
      }
      assert done == lapsed;
      ViewIs();
      flipped := |lapsed|;
    }

    /** Reconciles the lapsed holds over an interval and looks whether it is free. */
    method ReconcileAndLook(room: RoomId, start: int, end: int, except: Option<BookingId>, now: int) returns (free: bool)
      requires Inv(View())
      modifies this`bookings, bank
      ensures View() == Reconciled(old(View()), RoomWindow(room, start, end), now) && Inv(View())
      ensures free <==> !Conflict(View(), room, start, end, except, now)
    {
      hide *;
      ghost var s := View();
      var _ := ExpireLapsedHolds(RoomWindow(room, start, end), now);
      ReconciledKeepsInv(s, RoomWindow(room, start, end), now);
      ViewIs();
      ConflictIs(View(), room, start, end, except, now);
      free := !BookedOver(bookings, room, start, end, except, now) && !BlockedOver(blocks, room, start, end);
    }

    /** A customer books: checks, hours, row, debits, checkout session. */
    method CreateBooking(cal: Calendar, req: Request, id: BookingId, session: SessionId, now: int, rate: int, providerUp: bool)
      returns (reply: Reply)
      requires Inv(View()) && id !in bookings && session !in sessions && rate >= 0
      requires Valid(ZoneOf(cal, req.room))
      modifies this, bank
      ensures Result(View(), reply) == Create(old(View()), cal, req, id, session, now, rate, providerUp)
    {
      hide *;
      ghost var s := View();
      ViewIs();
      var saved := Savepoint(bank.Books(), bookings);
      CreateCases(s, cal, req, id, session, now, rate, providerUp);
      TimeCases(cal, req.room, req.start, req.end, now);
      if req.end <= req.start { return Refused(EmptyInterval); }
      if req.start < now { return Refused(InThePast); }
      if req.start > now + BOOKING_WINDOW { return Refused(TooFarAhead); }
      if req.end - req.start > MAX_BOOKING_LENGTH { return Refused(TooLong); }
      var open := IsWithinOpenHours(RulesOf(cal, req.room), ZoneOf(cal, req.room), req.start, req.end);
      if !open { return Refused(ClosedHours); }
      var free := ReconcileAndLook(req.room, req.start, req.end, None, now);
      ghost var swept := View();
      ViewIs();
      if !free {
        RollBack(saved);
        return Refused(SlotTaken);
      }
      BeforeCreateIs(s, req, now);
      var draws: seq<Draw> := [];
      if req.payment != Hourly {
        var _ := ExpireLapsedHolds(OfUser(req.user), now);
        ReconciledKeepsInv(swept, OfUser(req.user), now);
      }
      ghost var before := View();
      ViewIs();
      SweepingKeepsIds(s, req, now, id, before);
      RowFacts(before, id);
      RequestDrawsAre(before.ledger.purchases, req, now);
      if req.payment != Hourly {
        if req.payment == Package {
          var whole := bank.RedeemHours(req.user, req.org, WholeHours(req.start, req.end), now, None);
          if whole == None {
            RollBack(saved);
            return Refused(NotEnoughHours);
          }
          draws := whole.value;
        } else {
          draws := bank.RedeemUpTo(req.user, req.org, WholeHours(req.start, req.end), now);
        }
      } else {
        NothingDebited(bank.purchases);
      }
      assert draws == RequestDraws(before.ledger.purchases, req, now);
      var bk := NewBooking(req, TotalDrawn(draws), rate, session, now);
      if Excluded(bookings, id, bk) {
        RollBack(saved);
        return Refused(LostRace);
      }
      bookings := bookings[id := bk];
      ViewIs();
      bank.RecordDebits(id, draws);
      if bk.session.Some? {
        if !providerUp {
          RollBack(saved);
          return Refused(ProviderDown);
        }
        sessions := sessions[session := Session(id, Open)];
      }
      ViewIs();
      return Done;
    }

    /** The customer pays an unpaid hold again: the open session, or a fresh one
        for the same row once the old one can no longer be paid. */
    method ResumeCheckout(b: BookingId, user: UserId, session: SessionId, now: int, faults: Faults) returns (reply: Reply)
      requires Inv(View()) && session !in sessions
      modifies this, bank
      ensures Result(View(), reply) == Resume(old(View()), b, user, session, now, faults)
    {
      hide *;
      ghost var s := View();
      ViewIs();
      var saved := Savepoint(bank.Books(), bookings);
      ResumeInShort(s, b, user, session, now, faults);
      var before := View();
      var refusal := ResumeRefusal(before, b, user, now);
      if refusal.Some? { return Refused(refusal.value); }
      var bk := bookings[b];
      var live := LiveHold(bk, now);
      if !live {
        var free := ReconcileAndLook(bk.room, bk.start, bk.end, Some(b), now);
        if !free {
          RollBack(saved);
          return Refused(SlotTaken);
        }
      }
      ghost var swept := View();
      ViewIs();
      var obstacle := CloseCurrentSession(bk, SessionOf(before, bk), live, faults);
      if obstacle.Some? {
        RollBack(saved);
        return obstacle.value;
      }
      ViewIs();
      RowFacts(swept, b);
      ShareIsNatural(swept, b);
      ReopenedReadsNoSessions(s.(sessions := sessions), swept, sessions, b, session, now, faults.open);
      reply := HoldAgain(b, session, now, faults.open, saved);
    }

    /** The checkout the row has is left to be paid, was paid, or is closed. */
    method CloseCurrentSession(bk: Booking, current: Option<SessionState>, live: bool, faults: Faults)
      returns (obstacle: Option<Reply>)
      requires bk.session.None? ==> current.None?
      modifies this`sessions
      ensures obstacle == SessionObstacle(bk, current, live, faults)
      ensures sessions == if obstacle.None? && bk.session.Some? then Close(old(sessions), bk.session.value) else old(sessions)
    {
      hide Close;
      if live && bk.session.Some? {
        if faults.lookup { return Some(Refused(ProviderDown)); }
        if current == Some(Paid) { return Some(Refused(AlreadyPaid)); }
        if current == Some(SessionState.Open) { return Some(Done); }
      }
      if bk.session.Some? {
        if faults.close { return Some(Refused(ProviderDown)); }
        if current == Some(Paid) { return Some(Refused(AlreadyPaid)); }
        sessions := Close(sessions, bk.session.value);
      }
      return None;
    }

    /** The slot and the hours held again, with a fresh session, or back to `saved`. */
    method HoldAgain(b: BookingId, session: SessionId, now: int, openFails: bool, saved: Savepoint) returns (reply: Reply)
      requires b in bookings
      requires forall k | k in bank.debits :: k.purchase in bank.purchases
      requires !HoldsHours(bookings[b].status) ==> forall k | k in bank.debits :: k.booking != b
      modifies this`bookings, this`sessions, bank
      ensures Result(View(), reply)
              == Reopened(State(saved.ledger, saved.bookings, old(sessions), blocks, closed), old(View()), b, session, now, openFails)
    {
      hide *;
      ViewIs();
      ReopenedAre(State(saved.ledger, saved.bookings, sessions, blocks, closed), View(), b, session, now, openFails);
      var row := bookings[b];
      var held := row.(status := Pending, holdExpires := Some(now + HOLD_LIFETIME));
      var ok := bank.SettleStatusChange(b, row, row.status, Pending, now);
      if !ok {
        RollBack(saved);
        return Refused(NotEnoughHours);
      }
      if Excluded(bookings, b, held) {
        RollBack(saved);
        return Refused(LostRace);
      }
      bookings := bookings[b := held];
      if openFails {
        RollBack(saved);
        return Refused(ProviderDown);
      }
      bookings := bookings[b := held.(session := Some(session))];
      sessions := sessions[session := Session(b, SessionState.Open)];
      ViewIs();
      return Done;
    }

    /** A customer cancels: hours back, money back as hours. */
    method CancelBooking(b: BookingId, user: UserId, now: int, rate: int, newId: PurchaseId) returns (reply: Reply)
      requires Inv(View())
      modifies this`bookings, bank
      ensures Result(View(), reply) == Cancel(old(View()), b, user, now, rate, newId)
    {
      hide *;
      ghost var s := View();
      ViewIs();
      CancelCases(s, b, user, now, rate, newId);
      var refusal := CancelRefusal(View(), b, user, now);
      if refusal.Some? { return Refused(refusal.value); }
      CancellationIs(s, b, now, rate, newId);
      var saved := Savepoint(bank.Books(), bookings);
      var bk := bookings[b];
      RowFacts(s, b);
      ShareIsNatural(s, b);
      SettlingKeepsOneCredit(s, b, now);
      bookings := bookings[b := bk.(status := Cancelled)];
      ViewIs();
      var _ := bank.SettleStatusChange(b, bk, bk.status, Cancelled, now);
      ViewIs();
      var credit := bank.CreateCredit(b, bk, bk.status, rate, now, newId);
      if credit.TooLarge? {
        RollBack(saved);
        return Refused(CreditTooLarge);
      }
      ViewIs();
      return Done;
    }

    /** The sweeper's tick: every lapsed hold, and every pack purchase that has
        awaited payment for too long, and how many rows that flipped; nothing
        when another process sweeps. */
    method SweepOnce(purchasedAt: map<PurchaseId, int>, lockTaken: bool, now: int) returns (flipped: Option<nat>)
      requires Inv(View())
      modifies this`bookings, bank
      ensures lockTaken ==> flipped == None && View() == old(View())
      ensures !lockTaken ==>
                var stale := Stale(old(bank.purchases), purchasedAt, now);
                && flipped == Some(|LapsedIn(old(bookings), Everywhere, now)| + |stale|) && Inv(View())
                && View() == (var swept := Reconciled(old(View()), Everywhere, now);
                              swept.(ledger := swept.ledger.(purchases := GivenUp(swept.ledger.purchases, stale))))
    {
      hide *;
      if lockTaken {
        return None;
      }
      ghost var s := View();
      ViewIs();
      var expired := ExpireLapsedHolds(Everywhere, now);
      ReconciledKeepsInv(s, Everywhere, now);
      SweepingKeepsStale(s, Everywhere, purchasedAt, now);
      ghost var swept := View();
      ViewIs();
      var stale := Stale(bank.purchases, purchasedAt, now);
      GivingUpKeepsInv(swept, stale);
      bank.purchases := GivenUp(bank.purchases, stale);
      ViewIs();
      return Some(expired + |stale|);
    }

    /** `checkout.session.completed` for session `x`. */
    method ConfirmBooking(x: SessionId, now: int) returns (reply: Reply)
      requires Inv(View())
      modifies this`bookings, bank
      ensures Result(View(), reply) == CheckoutCompleted(old(View()), x, now)
    {
      hide *;
      ghost var s := View();
      ViewIs();
      CompletionCases(s, x, now);
      if !CanStillBePaid(bookings, sessions, x) {
        return Ignored;
      }
      CanStillBePaidMeans(bookings, sessions, x);
      var b := sessions[x].booking;
      if PaidInTime(bookings[b], now) {
        bookings := bookings[b := Received(bookings[b], Confirmed, now)];
        ViewIs();
        return Done;
      }
      var scope := RoomWindow(bookings[b].room, bookings[b].start, bookings[b].end);
      var _ := ExpireLapsedHolds(scope, now);
      ghost var swept := View();
      ViewIs();
      ReconciledKeepsInv(s, scope, now);
      SweepingTheOwnWindow(s, b, scope, now);
      RowFacts(swept, b);
      ShareIsNatural(swept, b);
      var bk := bookings[b];
      LateCases(swept, b, now);
      ConflictIs(swept, bk.room, bk.start, bk.end, Some(b), now);
      UnfulfilledIs(swept, b, now);
      var confirmed := Received(bk, Confirmed, now);
      var taken := BookedOver(bookings, bk.room, bk.start, bk.end, Some(b), now) || BlockedOver(blocks, bk.room, bk.start, bk.end);
      if !taken {
        var purchases, debits := bank.purchases, bank.debits;
        var fulfillable := bank.SettleStatusChange(b, bk, bk.status, Confirmed, now);
        if fulfillable && !Excluded(bookings, b, confirmed) {
          bookings := bookings[b := confirmed];
        } else {
          bank.purchases, bank.debits := purchases, debits;
          taken := true;
        }
      }
      if taken {
        ViewIs();
        var _ := bank.SettleStatusChange(b, bk, bk.status, PaidUnfulfilled, now);
        bookings := bookings[b := Received(bk, PaidUnfulfilled, now)];
      }
      ViewIs();
      return Done;
    }

    /** `checkout.session.expired`, or backing out of the checkout page. */
    method ExpirePendingHold(x: SessionId, now: int) returns (reply: Reply)
      requires Inv(View())
      modifies this`bookings, bank
      ensures Result(View(), reply) == LetGo(old(View()), x, now)
    {
      hide *;
      ghost var s := View();
      ViewIs();
      LetGoCases(s, x, now);
      var holds := HoldsWith(bookings, x);
      if holds == {} {
        return Ignored;
      }
      var b :| b in holds;
      var bk := bookings[b];
      RowFacts(s, b);
      ShareIsNatural(s, b);
      AbandonedIs(s, b, now);
      var _ := bank.SettleStatusChange(b, bk, bk.status, Expired, now);
      bookings := bookings[b := bk.(status := Expired, holdExpires := Some(now))];
      ViewIs();
      return Done;
    }
  }

  lemma LapsedAreBookings(bookings: BookingTable, scope: Scope, now: int)
    ensures forall b | b in LapsedIn(bookings, scope, now) :: b in bookings
  {
  }

  lemma SweepingKeepsIds(s: State, req: Request, now: int, id: BookingId, before: State)
    requires before == BeforeCreate(s, req, now) && id !in s.bookings
    ensures id !in before.bookings && before.sessions == s.sessions && before.blocks == s.blocks && before.closed == s.closed
  {
    hide Released;
  }

  lemma NothingDebited(purchases: PurchaseTable)
    ensures Debited(purchases, []) == purchases
  {
  }

  lemma CanStillBePaidMeans(bookings: BookingTable, sessions: map<SessionId, Session>, x: SessionId)
    requires CanStillBePaid(bookings, sessions, x)
    ensures x in sessions && sessions[x].booking in bookings
  {
  }

  lemma BooksAreTables(l: Ledger, purchases: PurchaseTable, debits: DebitTable)
    requires l == Ledger(purchases, debits)
    ensures l.purchases == purchases && l.debits == debits
  {
  }
}
