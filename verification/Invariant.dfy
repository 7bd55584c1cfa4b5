/** What every reachable state satisfies, and that each handler keeps it. */
module Invariant {
  import opened Model
  import opened Ledgers
  import opened Settlement
  import opened Books
  import opened Lifecycle

  // ---- slots ---------------------------------------------------------------------

  /** No two pending or confirmed bookings of a room overlap. */
  ghost predicate NoDoubleBooking(bookings: BookingTable) {
    && (forall b | b in bookings :: bookings[b].start < bookings[b].end)
    && (forall b | b in bookings :: !Excluded(bookings, b, bookings[b]))
  }

  /** A row the exclusion constraint accepts can be written. */
  lemma WritingKeepsSlots(bookings: BookingTable, b: BookingId, bk: Booking)
    requires NoDoubleBooking(bookings) && bk.start < bk.end && !Excluded(bookings, b, bk)
    ensures NoDoubleBooking(bookings[b := bk])
  {
    var bookings' := bookings[b := bk];
    forall c | c in bookings' ensures !Excluded(bookings', c, bookings'[c]) {
      if c != b {
        assert !Excluded(bookings, c, bookings[c]);
      }
    }
  }

  /** A row that keeps its time, and occupies it only if it did before, stays acceptable. */
  lemma StayingIsNotExcluded(bookings: BookingTable, b: BookingId, bk: Booking)
    requires NoDoubleBooking(bookings) && b in bookings
    requires bk.room == bookings[b].room && bk.start == bookings[b].start && bk.end == bookings[b].end
    requires Occupies(bk.status) ==> Occupies(bookings[b].status)
    ensures !Excluded(bookings, b, bk)
  {
    assert !Excluded(bookings, b, bookings[b]);
  }

  // ---- payments --------------------------------------------------------------------

  /** How a booking's payment fields go together with its status. */
  ghost predicate PaymentState(bk: Booking) {
    if bk.session.None? then
      // Nothing to pay here: all packs, or a series occurrence.
      && bk.holdExpires.None? && bk.paidAt.None?
      && (if bk.series.None? then bk.payment == Package else bk.payment == Hourly && bk.share == 0)
    else
      && bk.series.None? && (bk.payment == Hourly || bk.payment == Mixed)
      && (bk.paidAt.None? <==> UnpaidHold(bk))
      && (bk.status == Pending ==> bk.holdExpires.Some?)
      && (bk.paidAt.Some? ==> bk.holdExpires.None?)
  }

  /** Each session belongs to a booking, and one that can be paid, or was, is
      that booking's current one. */
  ghost predicate SessionsStand(bookings: BookingTable, sessions: map<SessionId, Session>) {
    && (forall x | x in sessions ::
          && sessions[x].booking in bookings
          && (sessions[x].state != Closed ==> bookings[sessions[x].booking].session == Some(x)))
    && (forall b | b in bookings && bookings[b].session.Some? ::
          bookings[b].session.value in sessions && sessions[bookings[b].session.value].booking == b)
  }

  /** Sessions stand, and money was received exactly through them. */
  ghost predicate SessionsMatch(bookings: BookingTable, sessions: map<SessionId, Session>) {
    && SessionsStand(bookings, sessions)
    && (forall b | b in bookings :: PaymentState(bookings[b]))
    && (forall b | b in bookings && bookings[b].session.Some? && bookings[b].paidAt.Some? ::
          sessions[bookings[b].session.value].state == Paid)
  }

  lemma WritingKeepsStanding(bookings: BookingTable, sessions: map<SessionId, Session>, b: BookingId, bk: Booking)
    requires SessionsStand(bookings, sessions) && b in bookings && bk.session == bookings[b].session
    ensures SessionsStand(bookings[b := bk], sessions)
  {
  }

  lemma WritingKeepsSessions(bookings: BookingTable, sessions: map<SessionId, Session>, b: BookingId, bk: Booking)
    requires SessionsMatch(bookings, sessions) && PaymentState(bk)
    requires b in bookings && bk.session == bookings[b].session
    requires bk.paidAt.Some? ==> bk.session.Some? && sessions[bk.session.value].state == Paid
    ensures SessionsMatch(bookings[b := bk], sessions)
  {
  }

  /** A fresh session for a booking whose previous one can no longer be paid. */
  lemma OpeningKeepsStanding(bookings: BookingTable, sessions: map<SessionId, Session>, b: BookingId, bk: Booking,
                             x: SessionId)
    requires SessionsStand(bookings, sessions) && x !in sessions && bk.session == Some(x)
    requires b in bookings && bookings[b].session.Some? ==> sessions[bookings[b].session.value].state == Closed
    ensures SessionsStand(bookings[b := bk], sessions[x := Session(b, Open)])
  {
    var bookings', sessions' := bookings[b := bk], sessions[x := Session(b, Open)];
    forall y | y in sessions'
      ensures sessions'[y].booking in bookings'
      ensures sessions'[y].state != Closed ==> bookings'[sessions'[y].booking].session == Some(y)
    {
      if y != x && sessions[y].booking == b && sessions[y].state != Closed {
        assert bookings[b].session == Some(y);
      }
    }
    forall c | c in bookings' && bookings'[c].session.Some?
      ensures bookings'[c].session.value in sessions' && sessions'[bookings'[c].session.value].booking == c
    {
      if c != b {
        assert bookings[c].session.value in sessions;
      }
    }
  }

  lemma OpeningKeepsSessions(bookings: BookingTable, sessions: map<SessionId, Session>, b: BookingId, bk: Booking,
                             x: SessionId)
    requires SessionsMatch(bookings, sessions) && PaymentState(bk)
    requires x !in sessions && bk.session == Some(x) && bk.paidAt.None?
    requires b in bookings && bookings[b].session.Some? ==> sessions[bookings[b].session.value].state == Closed
    ensures SessionsMatch(bookings[b := bk], sessions[x := Session(b, Open)])
  {
    OpeningKeepsStanding(bookings, sessions, b, bk, x);
  }

  lemma ClosingKeepsStanding(bookings: BookingTable, sessions: map<SessionId, Session>, x: SessionId)
    requires SessionsStand(bookings, sessions)
    ensures SessionsStand(bookings, Close(sessions, x))
  {
    var sessions' := Close(sessions, x);
    forall y | y in sessions'
      ensures && sessions'[y].booking in bookings
              && (sessions'[y].state != Closed ==> bookings[sessions'[y].booking].session == Some(y))
    {
      assert y in sessions;
    }
  }

  lemma ClosingKeepsSessions(bookings: BookingTable, sessions: map<SessionId, Session>, x: SessionId)
    requires SessionsMatch(bookings, sessions)
    ensures SessionsMatch(bookings, Close(sessions, x))
  {
    ClosingKeepsStanding(bookings, sessions, x);
  }

  // ---- the whole state ---------------------------------------------------------------

  ghost predicate Inv(s: State) {
    && BooksMatch(s.ledger, s.bookings) && CreditsMatch(s.ledger, s.bookings)
    && NoDoubleBooking(s.bookings)
    && SessionsMatch(s.bookings, s.sessions)
  }

  function EmptyState(blocks: set<Block>): State {
    State(Ledger(map[], map[]), map[], map[], blocks, {})
  }

  lemma EmptyStateIsFine(blocks: set<Block>)
    ensures Inv(EmptyState(blocks))
  {
  }

  // ---- lapsed holds --------------------------------------------------------------------

  lemma ExpiringKeepsSlots(bookings: BookingTable, lapsed: set<BookingId>)
    requires NoDoubleBooking(bookings)
    ensures NoDoubleBooking(Expire(bookings, lapsed))
  {
    var bookings' := Expire(bookings, lapsed);
    forall b | b in bookings' ensures !Excluded(bookings', b, bookings'[b]) {
      assert !Excluded(bookings, b, bookings[b]);
    }
  }

  lemma ExpiringKeepsSessions(bookings: BookingTable, sessions: map<SessionId, Session>, lapsed: set<BookingId>, now: int)
    requires SessionsMatch(bookings, sessions)
    requires forall b | b in lapsed :: b in bookings && Lapsed(bookings[b], now)
    ensures SessionsMatch(Expire(bookings, lapsed), sessions)
  {
    var bookings' := Expire(bookings, lapsed);
    forall b | b in bookings' ensures PaymentState(bookings'[b]) {
      assert PaymentState(bookings[b]);
    }
  }

  lemma ExpiringStopsHolding(bookings: BookingTable, lapsed: set<BookingId>, b: BookingId, now: int)
    requires b in bookings && (b in lapsed ==> Lapsed(bookings[b], now))
    ensures var was, expired := bookings[b], Expire(bookings, lapsed)[b];
            && SameClaim(was, expired) && expired.paidAt == was.paidAt
            && (b in lapsed ==> !Resting(was)) && (b !in lapsed ==> expired == was)
            && Held(expired) == if b in lapsed then 0 else Held(was)
  {
  }

  lemma ExpiringKeepsBooks(s: State, lapsed: set<BookingId>, now: int, strict: bool := true)
    requires BooksMatch(s.ledger, s.bookings) && CreditsMatch(s.ledger, s.bookings, strict)
    requires forall b | b in lapsed :: b in s.bookings && Lapsed(s.bookings[b], now)
    ensures BooksMatch(Released(s.ledger, lapsed), Expire(s.bookings, lapsed))
    ensures CreditsMatch(Released(s.ledger, lapsed), Expire(s.bookings, lapsed), strict)
  {
    var bookings' := Expire(s.bookings, lapsed);
    assert bookings'.Keys == s.bookings.Keys;
    hide *;
    forall b | b in s.bookings
      ensures && SameClaim(s.bookings[b], bookings'[b])
              && (Resting(bookings'[b]) || MayHold(s.ledger, s.bookings, b))
              && Held(bookings'[b]) == if b in lapsed then 0 else Held(s.bookings[b])
    {
      ExpiringStopsHolding(s.bookings, lapsed, b, now);
      if !Resting(s.bookings[b]) { AlreadyHolding(s.ledger, s.bookings, b); }
    }
    ReleasingKeepsBooks(s.ledger, s.bookings, lapsed, bookings', strict);
  }

  lemma ExpireAllKeepsInv(s: State, lapsed: set<BookingId>, now: int)
    requires Inv(s)
    requires forall b | b in lapsed :: b in s.bookings && Lapsed(s.bookings[b], now)
    ensures Inv(ExpireAll(s, lapsed))
  {
    hide NoDoubleBooking, SessionsMatch, BooksMatch, CreditsMatch, Released, Expire;
    ExpiringKeepsSlots(s.bookings, lapsed);
    ExpiringKeepsSessions(s.bookings, s.sessions, lapsed, now);
    ExpiringKeepsBooks(s, lapsed, now);
  }

  lemma ReconciledKeepsInv(s: State, scope: Scope, now: int)
    requires Inv(s)
    ensures Inv(Reconciled(s, scope, now))
  {
    ExpireAllKeepsInv(s, LapsedIn(s.bookings, scope, now), now);
  }

  /** After a room's lapsed holds are reconciled, a slot without conflict is one
      the exclusion constraint accepts too, although it cannot see the clock. */
  lemma FreeSlotIsNotExcluded(s: State, room: RoomId, start: int, end: int, b: BookingId, now: int, bk: Booking)
    requires var swept := Reconciled(s, RoomWindow(room, start, end), now);
             !BookedOver(swept.bookings, room, start, end, Some(b), now)
    requires bk.room == room && bk.start == start && bk.end == end
    ensures !Excluded(Reconciled(s, RoomWindow(room, start, end), now).bookings, b, bk)
  {
    hide Released;
    var swept := Reconciled(s, RoomWindow(room, start, end), now);
    forall c | c in swept.bookings && c != b && swept.bookings[c].room == room && Occupies(swept.bookings[c].status)
      ensures !Overlap(swept.bookings[c].start, swept.bookings[c].end, start, end)
    {
      assert c !in LapsedIn(s.bookings, RoomWindow(room, start, end), now);
      assert swept.bookings[c] == s.bookings[c];
    }
  }

  /** Reconciling more holds frees slots, never takes one. */
  lemma ReconcilingFreesSlots(s: State, scope: Scope, now: int, b: BookingId, bk: Booking)
    requires !Excluded(s.bookings, b, bk)
    ensures !Excluded(Reconciled(s, scope, now).bookings, b, bk)
  {
  }

  /** Only a booking that rests cancelled has a credit in circulation. */
  lemma OnlyRestingHasCredit(s: State, b: BookingId)
    requires Inv(s) && (b in s.bookings ==> !Resting(s.bookings[b]))
    ensures forall p | p in s.ledger.purchases && s.ledger.purchases[p].source == Some(b) :: WrittenOff(s.ledger.purchases[p])
    ensures MayHold(s.ledger, s.bookings, b)
  {
    hide BooksMatch, NoDoubleBooking, SessionsMatch;
    forall p | p in s.ledger.purchases && s.ledger.purchases[p].source == Some(b) ensures WrittenOff(s.ledger.purchases[p]) {
      assert CreditStands(s.ledger.purchases[p], s.bookings);
    }
  }
}
