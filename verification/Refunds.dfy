/** What a cancellation gives back and a reinstatement takes, in hours of the
    customer's bank. */
module Refunds {
  import opened Model
  import opened Sums
  import opened Ledgers
  import opened Settlement
  import opened Credit
  import opened Books
  import opened Lifecycle
  import opened Invariant
  import opened Preservation

  // ---- the bank as one number ----------------------------------------------------------

  ghost function Balances(purchases: PurchaseTable, user: UserId, org: OrgId): map<PurchaseId, int> {
    map p | p in purchases && purchases[p].user == user && purchases[p].org == org :: purchases[p].remaining
  }

  /** Every hour left on the customer's purchases with an organisation. */
  ghost function BankTotal(purchases: PurchaseTable, user: UserId, org: OrgId): int {
    Total(Balances(purchases, user, org))
  }

  function Part(p: Purchase, user: UserId, org: OrgId): int {
    if p.user == user && p.org == org then p.remaining else 0
  }

  lemma WritingPurchase(purchases: PurchaseTable, p: PurchaseId, row: Purchase, user: UserId, org: OrgId)
    requires p in purchases ==> purchases[p].user == row.user && purchases[p].org == row.org
    ensures BankTotal(purchases[p := row], user, org)
            == BankTotal(purchases, user, org) - (if p in purchases then Part(purchases[p], user, org) else 0) + Part(row, user, org)
  {
    var m := Balances(purchases, user, org);
    if row.user == user && row.org == org {
      TotalUpdate(m, p, row.remaining);
      assert Balances(purchases[p := row], user, org) == m[p := row.remaining];
    } else {
      assert Balances(purchases[p := row], user, org) == m;
    }
  }

  ghost predicate RowsBelongTo(l: Ledger, b: BookingId, user: UserId, org: OrgId) {
    forall k | k in l.debits && k.booking == b ::
      k.purchase in l.purchases && l.purchases[k.purchase].user == user && l.purchases[k.purchase].org == org
  }

  lemma OneRowBack(l: Ledger, k: DebitKey, owner: UserId, at: OrgId, user: UserId, org: OrgId)
    requires k in l.debits && RowsBelongTo(l, k.booking, owner, at)
    ensures var once := Rebase(l, l.debits - {k});
            && RowsBelongTo(once, k.booking, owner, at)
            && BankTotal(once.purchases, user, org)
               == BankTotal(l.purchases, user, org) + (if user == owner && org == at then l.debits[k] else 0)
            && HoursFor(once.debits, k.booking) == HoursFor(l.debits, k.booking) - l.debits[k]
  {
    RebaseDropRow(l, k);
    DropRow(l.debits, k);
    hide BankTotal, HoursFor, HoursOn, Rebase;
    WritingPurchase(l.purchases, k.purchase, Spend(l.purchases[k.purchase], -Row(l.debits, k)), user, org);
    assert Rebase(l, l.debits - {k}).debits == l.debits - {k} by { RebaseShape(l, l.debits - {k}); }
  }

  lemma NothingToRelease(l: Ledger, b: BookingId)
    requires forall k | k in l.debits :: k.booking != b
    ensures Released(l, {b}) == l && HoursFor(l.debits, b) == 0
  {
    assert Without(l.debits, {b}) == l.debits;
    RebaseInPlace(l);
    assert RowsFor(l.debits, b) == map[];
  }

  /** Releasing a booking puts exactly its hours back, all in its customer's bank. */
  lemma {:induction false} ReleasingFillsTheBank(l: Ledger, b: BookingId, owner: UserId, at: OrgId, user: UserId, org: OrgId)
    requires RowsBelongTo(l, b, owner, at)
    ensures BankTotal(Released(l, {b}).purchases, user, org)
            == BankTotal(l.purchases, user, org) + if user == owner && org == at then HoursFor(l.debits, b) else 0
    decreases |l.debits|
  {
    hide BankTotal, HoursFor, Rebase, RowsBelongTo;
    if k :| k in l.debits && k.booking == b {
      var once := Rebase(l, l.debits - {k});
      OneRowBack(l, k, owner, at, user, org);
      RebaseShape(l, l.debits - {k});
      assert Without(l.debits - {k}, {b}) == Without(l.debits, {b});
      RebaseTwice(l, l.debits - {k}, Without(l.debits, {b}));
      ReleasingFillsTheBank(once, b, owner, at, user, org);
    } else {
      NothingToRelease(l, b);
    }
  }

  /** Draws leave the bank they are made on. */
  lemma {:induction false} DrawingEmptiesTheBank(purchases: PurchaseTable, draws: seq<Draw>, owner: UserId, at: OrgId,
                                                 user: UserId, org: OrgId)
    requires forall d | d in draws ::
               d.purchase in purchases && purchases[d.purchase].user == owner && purchases[d.purchase].org == at
    ensures BankTotal(Debited(purchases, draws), user, org)
            == BankTotal(purchases, user, org) - if user == owner && org == at then TotalDrawn(draws) else 0
    ensures forall p | p in purchases ::
              p in Debited(purchases, draws) && Debited(purchases, draws)[p].user == purchases[p].user
              && Debited(purchases, draws)[p].org == purchases[p].org
  {
    if draws != [] {
      var init, d := draws[..|draws| - 1], draws[|draws| - 1];
      assert draws == init + [d] && d in draws;
      assert forall e | e in init :: e in draws;
      TotalDrawnAppend(init, [d]);
      assert TotalDrawn([d]) == d.hours;
      hide BankTotal;
      DrawingEmptiesTheBank(purchases, init, owner, at, user, org);
      DebitedKeepsKeys(purchases, init);
      var before := Debited(purchases, init);
      WritingPurchase(before, d.purchase, Spend(before[d.purchase], d.hours), user, org);
    }
  }

  // ---- prices ---------------------------------------------------------------------------

  /** The booking costs what it did when it was made at `rate`. */
  predicate AsPriced(bk: Booking, rate: int) {
    0 <= bk.share <= bk.duration && rate >= 0
    && ((bk.payment == Package && bk.share == bk.duration)
        || ((bk.payment == Hourly || bk.payment == Mixed) && bk.amount == AmountFor(bk.duration - bk.share, rate)))
  }

  lemma NewBookingsAreAsPriced(req: Request, share: int, rate: int, session: SessionId, now: int)
    requires rate >= 0 && req.start < req.end && 0 <= share <= WholeHours(req.start, req.end)
    requires req.payment == Hourly ==> share == 0
    ensures AsPriced(NewBooking(req, share, rate, session, now), rate)
  {
    hide AmountFor, WholeHours;
  }

  /** The part of a booking that is not on a pack. */
  function PaidHours(bk: Booking): int {
    if bk.payment == Package then 0 else bk.duration - bk.share
  }

  // ---- cancelling -----------------------------------------------------------------------

  /** The credit of an as-priced booking is exactly its paid hours. */
  lemma CreditOfPriced(purchases: PurchaseTable, b: BookingId, bk: Booking, rate: int, now: int, newId: PurchaseId)
    requires AsPriced(bk, rate) && rate >= 100 && bk.duration <= MAX_LEDGER_HOURS
    requires forall p | p in purchases && purchases[p].source == Some(b) :: WrittenOff(purchases[p])
    ensures var credit := CreditFor(purchases, b, bk, Confirmed, rate, now, newId);
            if PaidHours(bk) > 0 then
              && credit.CreditRow? && credit.row == FreshCredit(bk, b, PaidHours(bk), now)
              && (if CreditsOf(purchases, b) == {} then credit.id == newId
                  else credit.id in CreditsOf(purchases, b))
            else credit == NoCredit
  {
    if bk.payment != Package {
      CreditIsExact(bk.duration - bk.share, rate);
      AmountIsPositive(bk.duration - bk.share, rate);
    }
    hide CreditHours, AmountFor;
  }

  lemma AmountIsPositive(hours: int, rate: int)
    requires hours >= 0 && rate >= 100
    ensures AmountFor(hours, rate) > 0 <==> hours > 0
  {
    RoundHalfUpIsNearest(hours * rate, ONE_HOUR);
    if hours > 0 {
      assert hours * rate >= rate;
    }
  }

  lemma RowsAreTheCustomers(l: Ledger, bookings: BookingTable, b: BookingId)
    requires BooksMatch(l, bookings) && b in bookings
    ensures RowsBelongTo(l, b, bookings[b].user, bookings[b].org)
    ensures Balanced(l) && 0 <= bookings[b].share
    ensures HoldsHours(bookings[b].status) ==> HoursFor(l.debits, b) == bookings[b].share
  {
    hide HoursOn, HoursFor;
    assert ShareFits(bookings[b]);
    forall k | k in l.debits && k.booking == b
      ensures k.purchase in l.purchases
              && l.purchases[k.purchase].user == bookings[b].user && l.purchases[k.purchase].org == bookings[b].org
    {
      assert OwnHours(l, bookings, k);
    }
  }

  /** The purchases after a change that only moved hours. */
  ghost predicate SameOwners(purchases: PurchaseTable, purchases': PurchaseTable) {
    && purchases'.Keys == purchases.Keys
    && forall p | p in purchases ::
         && purchases'[p].source == purchases[p].source
         && purchases'[p].user == purchases[p].user && purchases'[p].org == purchases[p].org
         && (WrittenOff(purchases[p]) ==> purchases'[p] == purchases[p])
  }

  lemma NothingMoved(purchases: PurchaseTable)
    ensures SameOwners(purchases, purchases)
  {
  }

  lemma ReleasingKeepsOwners(l: Ledger, b: BookingId)
    requires Balanced(l)
    ensures SameOwners(l.purchases, Released(l, {b}).purchases)
  {
    ReleasedKeepsBalance(l, {b});
    RebaseKeepsIdentity(l, Without(l.debits, {b}));
    RebaseShape(l, Without(l.debits, {b}));
    hide Rebase, Without, Balanced;
  }

  lemma CancellingSettles(l: Ledger, b: BookingId, bk: Booking, now: int)
    ensures SettledStatus(l, b, bk, Confirmed, Cancelled, now) == Some(if bk.share > 0 then Released(l, {b}) else l)
    ensures HoldsHours(Confirmed)
  {
    hide Released;
  }

  /** The ledger once a confirmed booking's share is back. */
  lemma ReleasedShare(l: Ledger, bookings: BookingTable, b: BookingId, user: UserId, org: OrgId, now: int)
    requires BooksMatch(l, bookings) && b in bookings && bookings[b].status == Confirmed
    ensures var bk := bookings[b];
            var settled := SettledStatus(l, b, bk, Confirmed, Cancelled, now);
            && settled.Some?
            && BankTotal(settled.value.purchases, user, org)
               == BankTotal(l.purchases, user, org) + (if user == bk.user && org == bk.org then bk.share else 0)
            && SameOwners(l.purchases, settled.value.purchases)
  {
    hide *;
    var bk := bookings[b];
    CancellingSettles(l, b, bk, now);
    RowsAreTheCustomers(l, bookings, b);
    if bk.share > 0 {
      ReleasingFillsTheBank(l, b, bk.user, bk.org, user, org);
      ReleasingKeepsOwners(l, b);
    } else {
      NothingMoved(l.purchases);
    }
  }

  /** The bank once the credit of an as-priced booking is in it. */
  lemma CreditFillsTheBank(purchases: PurchaseTable, b: BookingId, bk: Booking, now: int, rate: int, newId: PurchaseId,
                           user: UserId, org: OrgId)
    requires newId !in purchases && rate >= 100 && AsPriced(bk, rate) && bk.duration <= MAX_LEDGER_HOURS
    requires forall p | p in CreditsOf(purchases, b) ::
               p in purchases && purchases[p].user == bk.user && purchases[p].org == bk.org && WrittenOff(purchases[p])
    ensures var credit := CreditFor(purchases, b, bk, Confirmed, rate, now, newId);
            var purchases' := if credit.CreditRow? then purchases[credit.id := credit.row] else purchases;
            && !credit.TooLarge?
            && BankTotal(purchases', user, org)
               == BankTotal(purchases, user, org) + (if user == bk.user && org == bk.org then PaidHours(bk) else 0)
            && (PaidHours(bk) > 0 ==>
                  credit.CreditRow? && credit.row == FreshCredit(bk, b, PaidHours(bk), now))
  {
    CreditOfPriced(purchases, b, bk, rate, now, newId);
    hide CreditFor, BankTotal, AmountFor;
    var credit := CreditFor(purchases, b, bk, Confirmed, rate, now, newId);
    if credit.CreditRow? {
      WritingPurchase(purchases, credit.id, credit.row, user, org);
    }
  }

  lemma CancelUnfolds(s: State, b: BookingId, now: int, rate: int, newId: PurchaseId, l: Ledger)
    requires b in s.bookings && s.bookings[b].status == Confirmed && s.bookings[b].start - now >= CANCELLATION_NOTICE
    requires SettledStatus(s.ledger, b, s.bookings[b], Confirmed, Cancelled, now) == Some(l)
    ensures var r := Cancel(s, b, s.bookings[b].user, now, rate, newId);
            var credit := CreditFor(l.purchases, b, s.bookings[b], Confirmed, rate, now, newId);
            !credit.TooLarge? ==>
              && r.reply == Done
              && r.state.ledger.purchases == (if credit.CreditRow? then l.purchases[credit.id := credit.row] else l.purchases)
              && b in r.state.bookings && r.state.bookings[b].status == Cancelled
  {
    hide SettledStatus, CreditFor;
  }

  /** Cancelling a confirmed booking whose length and price are the ones it was
      made with gives the customer exactly its length back, the pack share to
      the purchases it came from and the rest as one credit. Nobody else's bank
      changes. */
  lemma CancellingGivesTheHoursBack(s: State, b: BookingId, now: int, rate: int, newId: PurchaseId, user: UserId, org: OrgId)
    requires Inv(s) && newId !in s.ledger.purchases
    requires b in s.bookings && s.bookings[b].status == Confirmed
    requires rate >= 100 && AsPriced(s.bookings[b], rate) && s.bookings[b].duration <= MAX_LEDGER_HOURS
    requires s.bookings[b].start - now >= CANCELLATION_NOTICE
    ensures var bk := s.bookings[b];
            var r := Cancel(s, b, bk.user, now, rate, newId);
            && r.reply == Done
            && BankTotal(r.state.ledger.purchases, user, org)
               == BankTotal(s.ledger.purchases, user, org) + (if user == bk.user && org == bk.org then bk.duration else 0)
            && HoursFor(r.state.ledger.debits, b) == 0
            && (PaidHours(bk) > 0 ==>
                  exists p :: CreditsOf(r.state.ledger.purchases, b) == {p}
                              && p in r.state.ledger.purchases
                              && r.state.ledger.purchases[p] == FreshCredit(bk, b, PaidHours(bk), now))
  {
    hide *;
    var bk := s.bookings[b];
    var r := Cancel(s, b, bk.user, now, rate, newId);
    CancelIsSound(s, b, bk.user, now, rate, newId);
    SoundKeepsInv(r);
    BooksOf(s);
    ReleasedShare(s.ledger, s.bookings, b, user, org, now);
    var l := SettledStatus(s.ledger, b, bk, Confirmed, Cancelled, now).value;
    OwnCreditIsWrittenOff(s, b, l.purchases);
    CreditFillsTheBank(l.purchases, b, bk, now, rate, newId, user, org);
    CancelUnfolds(s, b, now, rate, newId, l);
    CancelledHoldsNothing(r.state, b);
    PaidAndSharedHours(bk, rate);
    if PaidHours(bk) > 0 {
      var credit := CreditFor(l.purchases, b, bk, Confirmed, rate, now, newId);
      OneCredit(r.state, b, credit.id, bk, PaidHours(bk), now);
    }
  }

  lemma BooksOf(s: State)
    requires Inv(s)
    ensures BooksMatch(s.ledger, s.bookings)
  {
    hide BooksMatch;
  }

  lemma PaidAndSharedHours(bk: Booking, rate: int)
    requires AsPriced(bk, rate)
    ensures PaidHours(bk) + bk.share == bk.duration
  {
    hide AmountFor;
  }

  /** A booking that holds its hours has no credit in circulation, and whatever
      only moves hours keeps it so. */
  lemma OwnCreditIsWrittenOff(s: State, b: BookingId, purchases: PurchaseTable)
    requires Inv(s) && b in s.bookings && s.bookings[b].status == Confirmed
    requires SameOwners(s.ledger.purchases, purchases)
    ensures purchases.Keys == s.ledger.purchases.Keys
    ensures forall p | p in CreditsOf(purchases, b) ::
              p in purchases && purchases[p].user == s.bookings[b].user && purchases[p].org == s.bookings[b].org
              && WrittenOff(purchases[p])
  {
    hide BooksMatch, NoDoubleBooking, SessionsMatch;
    forall p | p in CreditsOf(purchases, b)
      ensures purchases[p].user == s.bookings[b].user && purchases[p].org == s.bookings[b].org && WrittenOff(purchases[p])
    {
      assert CreditStands(s.ledger.purchases[p], s.bookings);
    }
  }

  lemma CancelledHoldsNothing(s: State, b: BookingId)
    requires Inv(s) && b in s.bookings && s.bookings[b].status == Cancelled
    ensures HoursFor(s.ledger.debits, b) == 0
  {
    hide CreditsMatch, NoDoubleBooking, SessionsMatch, HoursFor;
  }

  lemma OneCredit(s: State, b: BookingId, p: PurchaseId, bk: Booking, hours: int, now: int)
    requires Inv(s) && p in s.ledger.purchases && s.ledger.purchases[p] == FreshCredit(bk, b, hours, now)
    ensures CreditsOf(s.ledger.purchases, b) == {p}
  {
    hide BooksMatch, NoDoubleBooking, SessionsMatch;
  }
}
