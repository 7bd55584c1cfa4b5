/** The balance a customer is shown, before and after a cancellation. */
module VisibleBalance {
  import opened Model
  import opened Sums
  import opened Ledgers
  import opened Settlement
  import opened Credit
  import opened Books
  import opened Lifecycle
  import opened Invariant
  import opened Preservation
  import opened Refunds
  import opened Conservation
  import opened BankBalance

  // ---- the balance as a sum over purchases ---------------------------------------------------

  /** The customer's purchases that can be spent, whatever is left on them. */
  function Live(purchases: PurchaseTable, user: UserId, org: OrgId, now: int): set<PurchaseId> {
    set p | p in purchases && purchases[p].user == user && purchases[p].org == org
            && purchases[p].status == Spendable && purchases[p].expires > now
  }

  ghost function LeftOn(purchases: PurchaseTable, ids: set<PurchaseId>): map<PurchaseId, int> {
    map p | p in ids && p in purchases :: purchases[p].remaining
  }

  lemma {:induction false} SumOverOrder(order: seq<PurchaseId>, purchases: PurchaseTable, ids: set<PurchaseId>)
    requires forall i, j | 0 <= i < j < |order| :: order[i] != order[j]
    requires forall p | p in order :: p in ids && p in purchases
    requires forall p | p in ids && p in purchases && p !in order :: purchases[p].remaining == 0
    ensures Sum(BankBalance.Remaining(order, purchases)) == Total(LeftOn(purchases, ids))
  {
    var m: map<PurchaseId, int> := LeftOn(purchases, ids);
    if order == [] {
      NothingAddsUp(m);
    } else {
      var p := order[0];
      assert p in order;
      TotalWithout(m, p);
      assert m - {p} == LeftOn(purchases, ids - {p});
      SumOverOrder(order[1..], purchases, ids - {p});
    }
  }

  /** The balance shown is everything left on the purchases that can be spent. */
  lemma BalanceIsWhatIsLive(purchases: PurchaseTable, user: UserId, org: OrgId, now: int)
    requires forall p | p in purchases :: purchases[p].remaining >= 0
    ensures BalanceOf(purchases, user, org, now).available == Total(LeftOn(purchases, Live(purchases, user, org, now)))
  {
    var order := BankOrder(purchases, user, org, now);
    forall p ensures p in order <==> p in Live(purchases, user, org, now) && purchases[p].remaining >= 1 {
      assert p in order <==> p in Candidates(purchases, user, org, now);
    }
    hide BankOrder, BankBalance.Remaining, LeftOn, Total, Sum;
    SumOverOrder(order, purchases, Live(purchases, user, org, now)) by {
      forall i, j | 0 <= i < j < |order| ensures order[i] != order[j] { OrderIsDistinct(purchases, user, org, now, i, j); }
    }
  }

  lemma OrderIsDistinct(purchases: PurchaseTable, user: UserId, org: OrgId, now: int, i: nat, j: nat)
    requires i < j < |BankOrder(purchases, user, org, now)|
    ensures BankOrder(purchases, user, org, now)[i] != BankOrder(purchases, user, org, now)[j]
  {
  }

  // ---- the pack share comes back -----------------------------------------------------------------

  /** Hours `b` holds on purchases among `ids`. */
  ghost function RowsOnThese(debits: DebitTable, b: BookingId, ids: set<PurchaseId>): map<PurchaseId, int> {
    map p | p in ids :: Row(debits, DebitKey(b, p))
  }

  /** The part of the booking's pack share that lies on purchases its customer
      can still spend. */
  ghost function ShareStillLive(l: Ledger, b: BookingId, user: UserId, org: OrgId, now: int): int {
    Total(RowsOnThese(l.debits, b, Live(l.purchases, user, org, now)))
  }

  lemma ReleasedPurchase(l: Ledger, b: BookingId, p: PurchaseId)
    requires p in l.purchases
    ensures p in Released(l, {b}).purchases
    ensures Released(l, {b}).purchases[p] == Spend(l.purchases[p], -Row(l.debits, DebitKey(b, p)))
  {
    var after := Without(l.debits, {b});
    assert OnlyRowsOf(b, l.debits, after) && Row(after, DebitKey(b, p)) == 0;
    OneBookingMoves(b, l.debits, after);
    hide HoursOn, Without, OnlyRowsOf, Row;
  }

  lemma ReleasingRaisesTheBalance(l: Ledger, b: BookingId, user: UserId, org: OrgId, now: int)
    ensures var after := Released(l, {b}).purchases;
            && Live(after, user, org, now) == Live(l.purchases, user, org, now)
            && Total(LeftOn(after, Live(after, user, org, now)))
               == Total(LeftOn(l.purchases, Live(l.purchases, user, org, now))) + ShareStillLive(l, b, user, org, now)
  {
    var after := Released(l, {b}).purchases;
    RebaseShape(l, Without(l.debits, {b}));
    assert after.Keys == l.purchases.Keys;
    forall p | p in l.purchases
      ensures after[p] == Spend(l.purchases[p], -Row(l.debits, DebitKey(b, p)))
    {
      ReleasedPurchase(l, b, p);
    }
    hide Released, Total, Row;
    var live := Live(l.purchases, user, org, now);
    assert Live(after, user, org, now) == live;
    TotalsAdd(LeftOn(l.purchases, live), RowsOnThese(l.debits, b, live), LeftOn(after, live));
  }

  // ---- the credit -----------------------------------------------------------------------------------

  lemma CreditRaisesTheBalance(purchases: PurchaseTable, id: PurchaseId, row: Purchase, user: UserId, org: OrgId, now: int)
    requires id in purchases ==> WrittenOff(purchases[id])
    requires row.status == Spendable && row.expires > now
    ensures var after := purchases[id := row];
            Total(LeftOn(after, Live(after, user, org, now)))
            == Total(LeftOn(purchases, Live(purchases, user, org, now)))
               + if row.user == user && row.org == org then row.remaining else 0
  {
    var after := purchases[id := row];
    var live := Live(purchases, user, org, now);
    var m: map<PurchaseId, int> := LeftOn(purchases, live);
    if row.user == user && row.org == org {
      assert Live(after, user, org, now) == live + {id};
      assert LeftOn(after, live + {id}) == m[id := row.remaining];
      TotalUpdate(m, id, row.remaining);
    } else {
      assert Live(after, user, org, now) == live;
      assert LeftOn(after, live) == m;
    }
  }

  lemma NothingLeftBelowZero(l: Ledger)
    requires Balanced(l)
    ensures forall p | p in l.purchases :: l.purchases[p].remaining >= 0
  {
    forall p | p in l.purchases ensures l.purchases[p].remaining >= 0 {
      assert BalancedPurchase(l, p);
    }
  }

  lemma NoRowsElsewhere(l: Ledger, bookings: BookingTable, b: BookingId, user: UserId, org: OrgId, now: int)
    requires BooksMatch(l, bookings) && b in bookings
    ensures user != bookings[b].user || org != bookings[b].org ==> ShareStillLive(l, b, user, org, now) == 0
    ensures bookings[b].share <= 0 ==> ShareStillLive(l, b, user, org, now) == 0
  {
    var live := Live(l.purchases, user, org, now);
    var m: map<PurchaseId, int> := RowsOnThese(l.debits, b, live);
    if user != bookings[b].user || org != bookings[b].org {
      RowsAreTheCustomers(l, bookings, b);
      NothingAddsUp(m);
    }
    if bookings[b].share <= 0 {
      assert ShareFits(bookings[b]) && HoursFor(l.debits, b) == Held(bookings[b]);
      NoHoursNoRows(l.debits, b);
      NothingAddsUp(m);
    }
  }

  /** Cancelling raises the balance the customer sees by the credit and by the
      part of the pack share that lies on purchases not yet lapsed or withdrawn,
      and nobody else's. Hours that went back to a lapsed pack are not shown. */
  lemma CancellingRaisesTheBalance(s: State, b: BookingId, now: int, rate: int, newId: PurchaseId, user: UserId, org: OrgId)
    requires Inv(s) && newId !in s.ledger.purchases
    requires b in s.bookings && s.bookings[b].status == Confirmed
    requires rate >= 100 && AsPriced(s.bookings[b], rate) && s.bookings[b].duration <= MAX_LEDGER_HOURS
    requires s.bookings[b].start - now >= CANCELLATION_NOTICE
    ensures var bk := s.bookings[b];
            var r := Cancel(s, b, bk.user, now, rate, newId);
            && r.reply == Done
            && BalanceOf(r.state.ledger.purchases, user, org, now).available
               == BalanceOf(s.ledger.purchases, user, org, now).available
                  + if user == bk.user && org == bk.org then PaidHours(bk) + ShareStillLive(s.ledger, b, user, org, now) else 0
  {
    hide *;
    var bk := s.bookings[b];
    var r := Cancel(s, b, bk.user, now, rate, newId);
    CancelIsSound(s, b, bk.user, now, rate, newId);
    SoundKeepsInv(r);
    BooksOf(s);
    BooksOf(r.state);
    BalancedOf(s.ledger, s.bookings);
    BalancedOf(r.state.ledger, r.state.bookings);
    ReleasedShare(s.ledger, s.bookings, b, user, org, now);
    var l := SettledStatus(s.ledger, b, bk, Confirmed, Cancelled, now).value;
    SettledRaisesTheBalance(s.ledger, s.bookings, b, user, org, now);
    OwnCreditIsWrittenOff(s, b, l.purchases);
    CreditFillsTheBank(l.purchases, b, bk, now, rate, newId, user, org);
    CancelUnfolds(s, b, now, rate, newId, l);
    CreditedBalance(l.purchases, b, bk, now, rate, newId, user, org);
    NothingLeftBelowZero(s.ledger);
    NothingLeftBelowZero(r.state.ledger);
    BalanceIsWhatIsLive(s.ledger.purchases, user, org, now);
    BalanceIsWhatIsLive(r.state.ledger.purchases, user, org, now);
  }

  lemma BalancedOf(l: Ledger, bookings: BookingTable)
    requires BooksMatch(l, bookings)
    ensures Balanced(l)
  {
    hide Balanced;
  }

  lemma SettledRaisesTheBalance(l: Ledger, bookings: BookingTable, b: BookingId, user: UserId, org: OrgId, now: int)
    requires BooksMatch(l, bookings) && b in bookings && bookings[b].status == Confirmed
    ensures var bk := bookings[b];
            var settled := SettledStatus(l, b, bk, Confirmed, Cancelled, now);
            && settled.Some?
            && Total(LeftOn(settled.value.purchases, Live(settled.value.purchases, user, org, now)))
               == Total(LeftOn(l.purchases, Live(l.purchases, user, org, now)))
                  + if user == bk.user && org == bk.org then ShareStillLive(l, b, user, org, now) else 0
  {
    hide *;
    CancellingSettles(l, b, bookings[b], now);
    ReleasingRaisesTheBalance(l, b, user, org, now);
    NoRowsElsewhere(l, bookings, b, user, org, now);
  }

  lemma CreditedBalance(purchases: PurchaseTable, b: BookingId, bk: Booking, now: int, rate: int, newId: PurchaseId,
                        user: UserId, org: OrgId)
    requires newId !in purchases && rate >= 100 && AsPriced(bk, rate) && bk.duration <= MAX_LEDGER_HOURS
    requires forall p | p in CreditsOf(purchases, b) :: p in purchases && WrittenOff(purchases[p])
    ensures var credit := CreditFor(purchases, b, bk, Confirmed, rate, now, newId);
            var after := if credit.CreditRow? then purchases[credit.id := credit.row] else purchases;
            Total(LeftOn(after, Live(after, user, org, now)))
            == Total(LeftOn(purchases, Live(purchases, user, org, now)))
               + if user == bk.user && org == bk.org then PaidHours(bk) else 0
  {
    CreditOfPriced(purchases, b, bk, rate, now, newId);
    hide CreditFor, LeftOn, Live, Total, AmountFor;
    var credit := CreditFor(purchases, b, bk, Confirmed, rate, now, newId);
    if credit.CreditRow? {
      CreditRaisesTheBalance(purchases, credit.id, credit.row, user, org, now);
    } else {
      PaidHoursAreNatural(bk, rate);
    }
  }

  lemma PaidHoursAreNatural(bk: Booking, rate: int)
    requires AsPriced(bk, rate)
    ensures PaidHours(bk) >= 0
  {
    hide AmountFor;
  }
}
