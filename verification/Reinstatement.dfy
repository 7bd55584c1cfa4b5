/** Reinstating what was cancelled: the same hours leave the bank again, and
    cycles of the two add up to nothing. */
module Reinstatement {
  import opened Model
  import opened Sums
  import opened Ledgers
  import opened Settlement
  import opened Credit
  import opened Books
  import opened Lifecycle
  import opened Invariant
  import opened Preservation
  import opened Refunds

  /** Hours still on the credits booking `b` left. */
  ghost function CreditLeft(purchases: PurchaseTable, b: BookingId): int {
    Total(map p | p in CreditsOf(purchases, b) :: purchases[p].remaining)
  }

  /** Some booking draws on the credit that booking `b` left. */
  ghost predicate CreditDrawnOn(l: Ledger, b: BookingId) {
    exists k | k in l.debits :: k.purchase in CreditsOf(l.purchases, b)
  }

  // ---- whether the credit can be taken back ------------------------------------------------

  /** A purchase is drawn on exactly when hours of it are used. */
  lemma UsedMeansDrawnOn(l: Ledger, p: PurchaseId)
    requires Balanced(l) && p in l.purchases
    ensures l.purchases[p].used > 0 <==> exists k | k in l.debits :: k.purchase == p
  {
    assert BalancedPurchase(l, p);
    RowsBoundHours(l.debits);
    if l.purchases[p].used > 0 {
      assert RowsOn(l.debits, p) != map[];
      var k :| k in RowsOn(l.debits, p);
    }
  }

  /** Under the invariant taking a credit back is refused exactly while some
      booking draws on it, whoever drew on it before; it takes back the whole
      of a credit in circulation, and finds nothing where there is none. */
  lemma ReversalNeedsAnUndrawnCredit(s: State, b: BookingId)
    requires Inv(s)
    ensures var reversal := ReversalOf(s.ledger.purchases, b);
            && (reversal.AlreadySpent? <==> CreditDrawnOn(s.ledger, b))
            && (reversal.Reverse? ==>
                  CreditsOf(s.ledger.purchases, b) == {reversal.id}
                  && s.ledger.purchases[reversal.id].remaining == s.ledger.purchases[reversal.id].total)
            && (reversal.NothingToReverse? ==>
                  forall p | p in CreditsOf(s.ledger.purchases, b) :: WrittenOff(s.ledger.purchases[p]))
  {
    hide *;
    BalancedBooks(s);
    CreditFactsOf(s, b);
    DrawnOnMeansUsed(s.ledger, b);
    ReversalCases(s.ledger.purchases, b);
  }

  lemma CreditFactsOf(s: State, b: BookingId)
    requires Inv(s)
    ensures forall p | p in CreditsOf(s.ledger.purchases, b) :: CreditIsSound(s.ledger.purchases, p)
  {
    hide NoDoubleBooking, SessionsMatch, HoursOn, HoursFor;
    forall p | p in CreditsOf(s.ledger.purchases, b) ensures CreditIsSound(s.ledger.purchases, p) {
      assert BalancedPurchase(s.ledger, p) && CreditStands(s.ledger.purchases[p], s.bookings);
    }
  }

  /** In circulation with its hours adding up, or written off. */
  ghost predicate CreditIsSound(purchases: PurchaseTable, p: PurchaseId) {
    && p in purchases && purchases[p].used >= 0
    && (WrittenOff(purchases[p])
        || (purchases[p].status == Spendable && purchases[p].used + purchases[p].remaining == purchases[p].total))
  }

  lemma DrawnOnMeansUsed(l: Ledger, b: BookingId)
    requires Balanced(l)
    ensures CreditDrawnOn(l, b) <==> exists p | p in CreditsOf(l.purchases, b) :: p in l.purchases && l.purchases[p].used > 0
  {
    forall p | p in CreditsOf(l.purchases, b)
      ensures l.purchases[p].used > 0 <==> exists k | k in l.debits :: k.purchase == p
    {
      UsedMeansDrawnOn(l, p);
    }
    hide Balanced;
    if CreditDrawnOn(l, b) {
      var k :| k in l.debits && k.purchase in CreditsOf(l.purchases, b);
      assert l.purchases[k.purchase].used > 0;
    }
  }

  lemma ReversalCases(purchases: PurchaseTable, b: BookingId)
    requires OneCreditEach(purchases) && forall p | p in CreditsOf(purchases, b) :: CreditIsSound(purchases, p)
    ensures var reversal := ReversalOf(purchases, b);
            && (reversal.AlreadySpent? <==> exists p | p in CreditsOf(purchases, b) :: p in purchases && purchases[p].used > 0)
            && (reversal.Reverse? ==>
                  CreditsOf(purchases, b) == {reversal.id} && reversal.id in purchases
                  && purchases[reversal.id].remaining == purchases[reversal.id].total)
            && (reversal.NothingToReverse? ==>
                  forall p | p in CreditsOf(purchases, b) :: p in purchases && WrittenOff(purchases[p]))
  {
    forall p, q | p in CreditsOf(purchases, b) && q in CreditsOf(purchases, b) ensures p == q {}
  }

  lemma {:induction false} SameCreditsSameReversal(purchases: PurchaseTable, purchases': PurchaseTable, b: BookingId)
    requires SameCredits(purchases, purchases', b) && OneCreditEach(purchases)
    ensures ReversalOf(purchases', b) == ReversalOf(purchases, b)
  {
    if CreditsOf(purchases, b) != {} {
      var p :| p in CreditsOf(purchases, b);
      assert forall q | q in CreditsOf(purchases, b) :: q == p;
    }
  }

  lemma RedebitingSparesCredits(l: Ledger, b: BookingId, bk: Booking, now: int)
    requires Balanced(l) && bk.status == Cancelled
    ensures var settled := SettledStatus(l, b, bk, Cancelled, Confirmed, now);
            settled.Some? ==>
              && SameCredits(l.purchases, settled.value.purchases, b)
              && settled.value.purchases.Keys == l.purchases.Keys
              && forall p | p in l.purchases :: settled.value.purchases[p].source == l.purchases[p].source
  {
    RedebitSparesOwnCredit(l, b, bk, Cancelled, Confirmed, now);
    hide SettledStatus, Balanced;
  }

  /** A re-debit takes exactly the share out of the bank. */
  lemma RedebitingEmptiesTheBank(l: Ledger, b: BookingId, bk: Booking, now: int, user: UserId, org: OrgId)
    requires 0 <= bk.share
    ensures var settled := SettledStatus(l, b, bk, Cancelled, Confirmed, now);
            settled.Some? ==>
              BankTotal(settled.value.purchases, user, org)
              == BankTotal(l.purchases, user, org) - (if user == bk.user && org == bk.org then bk.share else 0)
  {
    hide BankTotal, WalkDraws;
    ShareDrawsFit(l.purchases, bk.user, bk.org, bk.share, now, Some(b));
    var draws := ShareDraws(l.purchases, bk.user, bk.org, bk.share, now, Some(b));
    forall d | d in draws
      ensures d.purchase in l.purchases && l.purchases[d.purchase].user == bk.user && l.purchases[d.purchase].org == bk.org
    {
      assert d.purchase in Candidates(l.purchases, bk.user, bk.org, now);
    }
    hide ShareDraws, Debited, TotalDrawn;
    DrawingEmptiesTheBank(l.purchases, draws, bk.user, bk.org, user, org);
  }

  // ---- reinstating -------------------------------------------------------------------------

  ghost function SweptFor(s: State, bk: Booking, now: int): State {
    Reconciled(s, RoomWindow(bk.room, bk.start, bk.end), now)
  }

  lemma ReinstateUnfolds(s: State, b: BookingId, now: int)
    requires Inv(s) && b in s.bookings && Resting(s.bookings[b])
    requires var bk := s.bookings[b];
             !Conflict(SweptFor(s, bk, now), bk.room, bk.start, bk.end, Some(b), now)
    ensures var bk := s.bookings[b];
            var swept, r := SweptFor(s, bk, now), Reinstate(s, b, now);
            var settled := SettledStatus(swept.ledger, b, bk, Cancelled, Confirmed, now);
            var confirmed := bk.(status := Confirmed, holdExpires := None);
            && (settled.None? ==> r == Result(s, Refused(NotEnoughHours)))
            && (settled.Some? ==>
                  if ReversalOf(settled.value.purchases, b).AlreadySpent? then r == Result(s, Refused(CreditWasSpent))
                  else r == Result(swept.(ledger := CreditReversed(settled.value, b), bookings := swept.bookings[b := confirmed]), Done))
  {
    hide *;
    var bk := s.bookings[b];
    RestingIsCancelled(bk);
    SweptForEditIsSound(s, b, Confirmed, now);
    SweptForEditIs(s, b, Confirmed, now);
    SweptForIs(s, bk, now);
    ConfirmingARestingRow(bk, now);
    PuttingBackUnfolds(s, b, now);
  }

  lemma SweptForIs(s: State, bk: Booking, now: int)
    ensures SweptFor(s, bk, now) == Reconciled(s, RoomWindow(bk.room, bk.start, bk.end), now)
  {
  }

  lemma ConfirmingARestingRow(bk: Booking, now: int)
    ensures EditedTo(bk, Confirmed, now) == bk.(status := Confirmed, holdExpires := None)
    ensures Occupies(Confirmed) && !Occupies(Cancelled)
  {
  }

  lemma PuttingBackUnfolds(s: State, b: BookingId, now: int)
    requires b in s.bookings && Resting(s.bookings[b])
    ensures var bk := s.bookings[b];
            var swept := Reconciled(s, RoomWindow(bk.room, bk.start, bk.end), now);
            var r := Reinstate(s, b, now);
            var settled := SettledStatus(swept.ledger, b, bk, Cancelled, Confirmed, now);
            !Conflict(swept, bk.room, bk.start, bk.end, Some(b), now) && !Excluded(swept.bookings, b, EditedTo(bk, Confirmed, now)) ==>
              && (settled.None? ==> r == Result(s, Refused(NotEnoughHours)))
              && (settled.Some? ==>
                    if ReversalOf(settled.value.purchases, b).AlreadySpent? then r == Result(s, Refused(CreditWasSpent))
                    else r == Result(swept.(ledger := CreditReversed(settled.value, b),
                                            bookings := swept.bookings[b := EditedTo(bk, Confirmed, now)]), Done))
  {
    hide SettledStatus, Reconciled, Excluded, Conflict, ReversalOf, CreditReversed, CreditFor, EditedTo;
  }

  lemma CreditLeftOf(purchases: PurchaseTable, b: BookingId)
    requires OneCreditEach(purchases)
    ensures forall p | p in CreditsOf(purchases, b) :: CreditLeft(purchases, b) == purchases[p].remaining
    ensures CreditsOf(purchases, b) == {} ==> CreditLeft(purchases, b) == 0
  {
    var m := map q | q in CreditsOf(purchases, b) :: purchases[q].remaining;
    assert CreditsOf(purchases, b) == {} ==> m == map[];
    forall p | p in CreditsOf(purchases, b) ensures CreditLeft(purchases, b) == purchases[p].remaining {
      TotalWithout(m, p);
      assert m - {p} == map[];
    }
  }

  /** Taking the credit back takes what is left on it out of the bank. */
  lemma ReversingEmptiesTheBank(l: Ledger, b: BookingId, owner: UserId, at: OrgId, user: UserId, org: OrgId)
    requires OneCreditEach(l.purchases)
    requires forall p | p in CreditsOf(l.purchases, b) :: l.purchases[p].user == owner && l.purchases[p].org == at
    requires ReversalOf(l.purchases, b).NothingToReverse? ==>
               forall p | p in CreditsOf(l.purchases, b) :: WrittenOff(l.purchases[p])
    requires !ReversalOf(l.purchases, b).AlreadySpent?
    ensures BankTotal(CreditReversed(l, b).purchases, user, org)
            == BankTotal(l.purchases, user, org) - (if user == owner && org == at then CreditLeft(l.purchases, b) else 0)
  {
    hide BankTotal, CreditLeft;
    CreditLeftOf(l.purchases, b);
    var reversal := ReversalOf(l.purchases, b);
    if reversal.Reverse? {
      assert reversal.id in CreditsOf(l.purchases, b);
      WritingPurchase(l.purchases, reversal.id, Reversed(l.purchases[reversal.id]), user, org);
    } else if CreditsOf(l.purchases, b) != {} {
      var p :| p in CreditsOf(l.purchases, b);
    }
  }

  lemma SweptFacts(s: State, b: BookingId, now: int)
    requires Inv(s) && b in s.bookings && s.bookings[b].status == Cancelled
    ensures var bk := s.bookings[b];
            var swept := SweptFor(s, bk, now);
            && Inv(swept) && b in swept.bookings && swept.bookings[b] == bk
            && Balanced(swept.ledger) && OneCreditEach(swept.ledger.purchases) && bk.share >= 0
            && forall p | p in CreditsOf(swept.ledger.purchases, b) ::
                 swept.ledger.purchases[p].user == bk.user && swept.ledger.purchases[p].org == bk.org
  {
    var bk := s.bookings[b];
    var swept := SweptFor(s, bk, now);
    ReconciledKeepsInv(s, RoomWindow(bk.room, bk.start, bk.end), now);
    SweepingTheOwnWindow(s, b, RoomWindow(bk.room, bk.start, bk.end), now);
    hide Reconciled, SweptFor;
    assert ShareFits(swept.bookings[b]);
    hide Balanced, NoDoubleBooking, SessionsMatch, BooksMatch;
    CreditsAreTheCustomers(swept, b);
    BalancedBooks(swept);
  }

  lemma BalancedBooks(s: State)
    requires Inv(s)
    ensures Balanced(s.ledger) && OneCreditEach(s.ledger.purchases)
  {
    hide Balanced, NoDoubleBooking, SessionsMatch;
  }

  lemma CreditsAreTheCustomers(s: State, b: BookingId)
    requires Inv(s) && b in s.bookings
    ensures forall p | p in CreditsOf(s.ledger.purchases, b) ::
              s.ledger.purchases[p].user == s.bookings[b].user && s.ledger.purchases[p].org == s.bookings[b].org
  {
    hide BooksMatch, NoDoubleBooking, SessionsMatch;
    forall p | p in CreditsOf(s.ledger.purchases, b)
      ensures s.ledger.purchases[p].user == s.bookings[b].user && s.ledger.purchases[p].org == s.bookings[b].org
    {
      assert CreditStands(s.ledger.purchases[p], s.bookings);
    }
  }

  lemma SameCreditsKeepOneEach(purchases: PurchaseTable, purchases': PurchaseTable, b: BookingId)
    requires OneCreditEach(purchases) && purchases'.Keys == purchases.Keys
    requires forall p | p in purchases :: purchases'[p].source == purchases[p].source
    requires SameCredits(purchases, purchases', b)
    ensures OneCreditEach(purchases') && CreditLeft(purchases', b) == CreditLeft(purchases, b)
  {
    assert (map p | p in CreditsOf(purchases, b) :: purchases[p].remaining)
        == (map p | p in CreditsOf(purchases', b) :: purchases'[p].remaining);
  }

  /** Once the slot is free and the pack share is back, a reinstatement is
      refused exactly while some booking draws on its credit. Otherwise it
      takes the share and all of the credit out of the customer's bank, and
      nothing out of anybody else's. */
  lemma ReinstatingTakesTheHoursBack(s: State, b: BookingId, now: int, user: UserId, org: OrgId)
    requires Inv(s) && b in s.bookings && Resting(s.bookings[b])
    requires var bk := s.bookings[b];
             var swept := SweptFor(s, bk, now);
             && !Conflict(swept, bk.room, bk.start, bk.end, Some(b), now)
             && SettledStatus(swept.ledger, b, bk, Cancelled, Confirmed, now).Some?
    ensures var bk := s.bookings[b];
            var swept, r := SweptFor(s, bk, now), Reinstate(s, b, now);
            if CreditDrawnOn(swept.ledger, b) then r == Result(s, Refused(CreditWasSpent))
            else
              && r.reply == Done && r.state.bookings == swept.bookings[b := bk.(status := Confirmed, holdExpires := None)]
              && BankTotal(r.state.ledger.purchases, user, org)
                 == BankTotal(swept.ledger.purchases, user, org)
                    - (if user == bk.user && org == bk.org then bk.share + CreditLeft(swept.ledger.purchases, b) else 0)
  {
    hide *;
    var bk := s.bookings[b];
    var swept := SweptFor(s, bk, now);
    var l := swept.ledger;
    RestingIsCancelled(bk);
    SweptFacts(s, b, now);
    ReinstateUnfolds(s, b, now);
    var l1 := SettledStatus(l, b, bk, Cancelled, Confirmed, now).value;
    RedebitingSparesCredits(l, b, bk, now);
    RedebitingEmptiesTheBank(l, b, bk, now, user, org);
    SameCreditsKeepOneEach(l.purchases, l1.purchases, b);
    SameCreditsSameReversal(l.purchases, l1.purchases, b);
    ReversalNeedsAnUndrawnCredit(swept, b);
    CarriedCredits(l.purchases, l1.purchases, b, bk.user, bk.org);
    if !CreditDrawnOn(l, b) {
      ReversingEmptiesTheBank(l1, b, bk.user, bk.org, user, org);
    }
  }

  lemma RestingIsCancelled(bk: Booking)
    requires Resting(bk)
    ensures bk.status == Cancelled
  {
  }

  lemma CarriedCredits(purchases: PurchaseTable, purchases': PurchaseTable, b: BookingId, user: UserId, org: OrgId)
    requires SameCredits(purchases, purchases', b)
    requires forall p | p in CreditsOf(purchases, b) :: purchases[p].user == user && purchases[p].org == org
    ensures CreditsOf(purchases', b) == CreditsOf(purchases, b)
    ensures forall p | p in CreditsOf(purchases', b) ::
              purchases'[p].user == user && purchases'[p].org == org
              && purchases'[p] == purchases[p]
  {
  }

  // ---- cycles ------------------------------------------------------------------------------

  ghost predicate NothingLapsed(s: State, now: int) {
    forall b | b in s.bookings :: !Lapsed(s.bookings[b], now)
  }

  lemma NothingToReconcile(s: State, scope: Scope, now: int)
    requires NothingLapsed(s, now)
    ensures Reconciled(s, scope, now) == s
  {
    assert LapsedIn(s.bookings, scope, now) == {};
    assert Expire(s.bookings, {}) == s.bookings;
    assert Without(s.ledger.debits, {}) == s.ledger.debits;
    RebaseInPlace(s.ledger);
  }

  lemma NothingLapsedEarlier(s: State, t: int, last: int)
    requires NothingLapsed(s, last) && t <= last
    ensures NothingLapsed(s, t)
  {
  }

  /** One cancellation and one reinstatement, each at its own time. */
  datatype Round = Round(cancelledAt: int, reinstatedAt: int, newId: PurchaseId)

  /** The booking cancelled and put back; `None` when one of the two was refused. */
  ghost function Cycle(s: State, b: BookingId, rate: int, round: Round): Option<State>
    requires b in s.bookings
  {
    var cancelled := Cancel(s, b, s.bookings[b].user, round.cancelledAt, rate, round.newId);
    var reinstated := Reinstate(cancelled.state, b, round.reinstatedAt);
    if cancelled.reply == Done && reinstated.reply == Done then Some(reinstated.state) else None
  }

  /** A confirmed booking as priced, and no hold that lapses by `last`. */
  ghost predicate CanCycle(s: State, b: BookingId, last: int, rate: int) {
    && Inv(s) && NothingLapsed(s, last) && b in s.bookings && s.bookings[b].status == Confirmed
    && rate >= 100 && AsPriced(s.bookings[b], rate) && s.bookings[b].duration <= MAX_LEDGER_HOURS
  }

  lemma ConfirmedRow(s: State, b: BookingId)
    requires Inv(s) && b in s.bookings && s.bookings[b].status == Confirmed
    ensures s.bookings[b].holdExpires == None && Resting(s.bookings[b].(status := Cancelled))
  {
    hide *;
    BookingFacts(s, b);
    ConfirmedHoldsNoDeadline(s.bookings[b]);
  }

  lemma ConfirmedHoldsNoDeadline(bk: Booking)
    requires PaymentState(bk) && bk.status == Confirmed
    ensures bk.holdExpires == None && Resting(bk.(status := Cancelled))
  {
  }

  /** Which credit rows there are once a cancellation has left its own: the one
      there was before, or the new one. */
  ghost predicate KeepsTheCreditRow(before: PurchaseTable, after: PurchaseTable, b: BookingId, newId: PurchaseId) {
    && before.Keys <= after.Keys <= before.Keys + {newId}
    && (newId !in after ==> CreditsOf(after, b) == CreditsOf(before, b))
    && (newId in after ==> CreditsOf(before, b) == {} && CreditsOf(after, b) == {newId})
  }

  lemma CreditedRows(before: PurchaseTable, released: PurchaseTable, b: BookingId, bk: Booking, now: int, rate: int,
                     newId: PurchaseId)
    requires SameOwners(before, released) && newId !in before
    requires AsPriced(bk, rate) && rate >= 100 && bk.duration <= MAX_LEDGER_HOURS
    requires forall p | p in CreditsOf(released, b) :: p in released && WrittenOff(released[p])
    ensures var credit := CreditFor(released, b, bk, Confirmed, rate, now, newId);
            var after := if credit.CreditRow? then released[credit.id := credit.row] else released;
            && KeepsTheCreditRow(before, after, b, newId)
            && (OneCreditEach(after) ==> CreditLeft(after, b) == PaidHours(bk))
  {
    CreditOfPriced(released, b, bk, rate, now, newId);
    hide CreditFor, AsPriced;
    assert CreditsOf(released, b) == CreditsOf(before, b);
    var credit := CreditFor(released, b, bk, Confirmed, rate, now, newId);
    if credit.CreditRow? {
      assert CreditsOf(released[credit.id := credit.row], b) == CreditsOf(released, b) + {credit.id};
    }
    var after := if credit.CreditRow? then released[credit.id := credit.row] else released;
    if OneCreditEach(after) {
      CreditLeftOf(after, b);
      hide CreditLeft, OneCreditEach;
      if !credit.CreditRow? && CreditsOf(released, b) != {} {
        var p :| p in CreditsOf(released, b);
        assert WrittenOff(after[p]);
      }
    }
  }

  lemma CancelledState(s: State, b: BookingId, now: int, rate: int, newId: PurchaseId, last: int)
    requires CanCycle(s, b, last, rate) && newId !in s.ledger.purchases && s.bookings[b].start - now >= CANCELLATION_NOTICE
    ensures var r := Cancel(s, b, s.bookings[b].user, now, rate, newId);
            && r.reply == Done && Inv(r.state)
            && KeepsTheCreditRow(s.ledger.purchases, r.state.ledger.purchases, b, newId)
            && CreditLeft(r.state.ledger.purchases, b) == PaidHours(s.bookings[b])
  {
    var bk := s.bookings[b];
    var r := Cancel(s, b, bk.user, now, rate, newId);
    hide *;
    CanCycleFacts(s, b, last, rate);
    CancelIsSound(s, b, bk.user, now, rate, newId);
    SoundKeepsInv(r);
    BooksOf(s);
    ReleasedShare(s.ledger, s.bookings, b, 0, 0, now);
    var l := SettledStatus(s.ledger, b, bk, Confirmed, Cancelled, now).value;
    OwnCreditIsWrittenOff(s, b, l.purchases);
    CreditFillsTheBank(l.purchases, b, bk, now, rate, newId, 0, 0);
    CreditedRows(s.ledger.purchases, l.purchases, b, bk, now, rate, newId);
    CancelUnfolds(s, b, now, rate, newId, l);
    BalancedBooks(r.state);
  }

  lemma CancelRewritesOneRow(s: State, b: BookingId, now: int, rate: int, newId: PurchaseId, last: int)
    requires b in s.bookings && s.bookings[b].status == Confirmed && NothingLapsed(s, last)
    ensures var r := Cancel(s, b, s.bookings[b].user, now, rate, newId);
            r.reply == Done ==>
              && s.bookings[b].start - now >= CANCELLATION_NOTICE
              && r.state.bookings == s.bookings[b := s.bookings[b].(status := Cancelled)]
              && NothingLapsed(r.state, last)
  {
    hide SettledStatus, CreditFor;
  }

  lemma ReinstatedState(s: State, b: BookingId, now: int)
    requires Inv(s) && NothingLapsed(s, now) && b in s.bookings && Resting(s.bookings[b])
    ensures var r := Reinstate(s, b, now);
            r.reply == Done ==>
              && Inv(r.state)
              && r.state.bookings == s.bookings[b := s.bookings[b].(status := Confirmed, holdExpires := None)]
              && r.state.ledger.purchases.Keys == s.ledger.purchases.Keys
              && CreditsOf(r.state.ledger.purchases, b) == CreditsOf(s.ledger.purchases, b)
  {
    hide *;
    var r := Reinstate(s, b, now);
    if r.reply == Done {
      var bk := s.bookings[b];
      RestingIsCancelled(bk);
      ReinstateIsSound(s, b, now);
      SoundKeepsInv(r);
      SweptIsSame(s, bk, now);
      DoneMeansFree(s, b, now);
      ReinstateUnfolds(s, b, now);
      BalancedBooks(s);
      RedebitingSparesCredits(s.ledger, b, bk, now);
      var l := SettledStatus(s.ledger, b, bk, Cancelled, Confirmed, now).value;
      ReversingKeepsCredits(l, b);
      SameCreditIds(s.ledger.purchases, l.purchases, b);
    }
  }

  lemma DoneMeansFree(s: State, b: BookingId, now: int)
    requires b in s.bookings && Resting(s.bookings[b]) && Reinstate(s, b, now).reply == Done
    ensures var bk := s.bookings[b];
            && !Conflict(SweptFor(s, bk, now), bk.room, bk.start, bk.end, Some(b), now)
            && SettledStatus(SweptFor(s, bk, now).ledger, b, bk, bk.status, Confirmed, now).Some?
  {
    hide SettledStatus, Conflict, Reconciled, ReversalOf, Excluded, CreditFor, CreditReversed, EditedTo;
  }

  lemma ReversingKeepsCredits(l: Ledger, b: BookingId)
    ensures CreditReversed(l, b).purchases.Keys == l.purchases.Keys
    ensures CreditsOf(CreditReversed(l, b).purchases, b) == CreditsOf(l.purchases, b)
  {
    hide ReversalOf;
  }

  lemma SameCreditIds(purchases: PurchaseTable, purchases': PurchaseTable, b: BookingId)
    requires SameCredits(purchases, purchases', b)
    ensures CreditsOf(purchases', b) == CreditsOf(purchases, b)
  {
  }

  lemma KeepingTwice(before: PurchaseTable, mid: PurchaseTable, after: PurchaseTable, b: BookingId, newId: PurchaseId)
    requires KeepsTheCreditRow(before, mid, b, newId)
    requires after.Keys == mid.Keys && CreditsOf(after, b) == CreditsOf(mid, b)
    ensures KeepsTheCreditRow(before, after, b, newId)
  {
  }

  lemma CycledRow(s: State, s': State, b: BookingId, last: int, rate: int)
    requires CanCycle(s, b, last, rate) && Inv(s') && s'.bookings == s.bookings
    ensures CanCycle(s', b, last, rate)
  {
    hide Inv, AsPriced;
  }

  lemma CanCycleFacts(s: State, b: BookingId, last: int, rate: int)
    requires CanCycle(s, b, last, rate)
    ensures Inv(s) && NothingLapsed(s, last) && b in s.bookings && s.bookings[b].status == Confirmed
    ensures rate >= 100 && AsPriced(s.bookings[b], rate) && s.bookings[b].duration <= MAX_LEDGER_HOURS
  {
    hide Inv, AsPriced, NothingLapsed;
  }

  lemma CycleUnfolds(s: State, b: BookingId, rate: int, round: Round)
    requires b in s.bookings
    ensures var c := Cancel(s, b, s.bookings[b].user, round.cancelledAt, rate, round.newId);
            var r := Reinstate(c.state, b, round.reinstatedAt);
            Cycle(s, b, rate, round).Some? ==> c.reply == Done && r.reply == Done && Cycle(s, b, rate, round) == Some(r.state)
  {
    hide Cancel, Reinstate;
  }

  lemma CancelHalf(s: State, b: BookingId, now: int, rate: int, newId: PurchaseId, last: int, user: UserId, org: OrgId)
    requires CanCycle(s, b, last, rate) && newId !in s.ledger.purchases && b in s.bookings
    requires Cancel(s, b, s.bookings[b].user, now, rate, newId).reply == Done
    ensures var bk := s.bookings[b];
            var c := Cancel(s, b, bk.user, now, rate, newId).state;
            && Inv(c) && NothingLapsed(c, last) && Resting(bk.(status := Cancelled)) && bk.holdExpires == None
            && c.bookings == s.bookings[b := bk.(status := Cancelled)]
            && bk.status == Confirmed
            && CreditLeft(c.ledger.purchases, b) + bk.share == bk.duration
            && BankTotal(c.ledger.purchases, user, org)
               == BankTotal(s.ledger.purchases, user, org) + (if user == bk.user && org == bk.org then bk.duration else 0)
            && KeepsTheCreditRow(s.ledger.purchases, c.ledger.purchases, b, newId)
  {
    hide *;
    CanCycleFacts(s, b, last, rate);
    ConfirmedRow(s, b);
    CancelRewritesOneRow(s, b, now, rate, newId, last);
    CancelledState(s, b, now, rate, newId, last);
    CancellingGivesTheHoursBack(s, b, now, rate, newId, user, org);
    PaidAndSharedHours(s.bookings[b], rate);
  }

  lemma ReinstateHalf(c: State, b: BookingId, now: int, user: UserId, org: OrgId)
    requires Inv(c) && NothingLapsed(c, now) && b in c.bookings && Resting(c.bookings[b])
    ensures var r := Reinstate(c, b, now);
            r.reply == Done ==>
              && Inv(r.state)
              && r.state.bookings == c.bookings[b := c.bookings[b].(status := Confirmed, holdExpires := None)]
              && BankTotal(r.state.ledger.purchases, user, org)
                 == BankTotal(c.ledger.purchases, user, org)
                    - (if user == c.bookings[b].user && org == c.bookings[b].org
                       then c.bookings[b].share + CreditLeft(c.ledger.purchases, b) else 0)
              && r.state.ledger.purchases.Keys == c.ledger.purchases.Keys
              && CreditsOf(r.state.ledger.purchases, b) == CreditsOf(c.ledger.purchases, b)
  {
    hide *;
    var r := Reinstate(c, b, now);
    if r.reply == Done {
      RestingIsCancelled(c.bookings[b]);
      DoneMeansFree(c, b, now);
      SweptIsSame(c, c.bookings[b], now);
      ReinstatingTakesTheHoursBack(c, b, now, user, org);
      ReinstatedState(c, b, now);
    }
  }

  /** One cycle leaves every booking and everybody's bank as they were; all it
      can add is the booking's one credit row. */
  lemma OneCycle(s: State, b: BookingId, rate: int, round: Round, last: int, user: UserId, org: OrgId)
    requires CanCycle(s, b, last, rate) && round.newId !in s.ledger.purchases && b in s.bookings
    requires round.reinstatedAt <= last
    ensures var cycled := Cycle(s, b, rate, round);
            cycled.Some? ==>
              && CanCycle(cycled.value, b, last, rate) && cycled.value.bookings == s.bookings
              && BankTotal(cycled.value.ledger.purchases, user, org) == BankTotal(s.ledger.purchases, user, org)
              && KeepsTheCreditRow(s.ledger.purchases, cycled.value.ledger.purchases, b, round.newId)
  {
    hide *;
    CycleUnfolds(s, b, rate, round);
    if Cycle(s, b, rate, round).Some? {
      var c := Cancel(s, b, s.bookings[b].user, round.cancelledAt, rate, round.newId).state;
      var r := Reinstate(c, b, round.reinstatedAt).state;
      CancelHalf(s, b, round.cancelledAt, rate, round.newId, last, user, org);
      NothingLapsedEarlier(c, round.reinstatedAt, last);
      ReinstateHalf(c, b, round.reinstatedAt, user, org);
      assert r.bookings == s.bookings;
      CycledRow(s, r, b, last, rate);
      KeepingTwice(s.ledger.purchases, c.ledger.purchases, r.ledger.purchases, b, round.newId);
    }
  }

  lemma SweptIsSame(s: State, bk: Booking, now: int)
    requires NothingLapsed(s, now)
    ensures SweptFor(s, bk, now) == s
  {
    NothingToReconcile(s, RoomWindow(bk.room, bk.start, bk.end), now);
  }

  /** One cycle after another. */
  ghost function Cycles(s: State, b: BookingId, rate: int, rounds: seq<Round>): Option<State>
    requires b in s.bookings
    decreases |rounds|
  {
    if rounds == [] then Some(s)
    else
      var once := Cycle(s, b, rate, rounds[0]);
      if once.None? || b !in once.value.bookings then None
      else Cycles(once.value, b, rate, rounds[1..])
  }

  /** However often and whenever a booking is cancelled and reinstated, nobody's
      bank gains or loses an hour, and the booking never has more than the one
      credit row its first cancellation made. Holds that lapse meanwhile would
      give their hours back, so none does by the last reinstatement. */
  lemma {:induction false} CyclesAddNoHours(s: State, b: BookingId, rate: int, rounds: seq<Round>, last: int,
                                            user: UserId, org: OrgId)
    requires b in s.bookings
    requires forall i | 0 <= i < |rounds| :: rounds[i].reinstatedAt <= last && rounds[i].newId !in s.ledger.purchases
    requires forall i, j | 0 <= i < j < |rounds| :: rounds[i].newId != rounds[j].newId
    ensures var cycled := Cycles(s, b, rate, rounds);
            CanCycle(s, b, last, rate) && cycled.Some? ==>
              && cycled.value.bookings == s.bookings
              && BankTotal(cycled.value.ledger.purchases, user, org) == BankTotal(s.ledger.purchases, user, org)
              && (forall p, q | p in CreditsOf(cycled.value.ledger.purchases, b)
                                && q in CreditsOf(cycled.value.ledger.purchases, b) :: p == q)
              && (CreditsOf(s.ledger.purchases, b) != {} ==>
                    CreditsOf(cycled.value.ledger.purchases, b) == CreditsOf(s.ledger.purchases, b))
    decreases |rounds|
  {
    hide CanCycle, BankTotal, Cycle;
    if CanCycle(s, b, last, rate) {
      if rounds == [] {
        AtMostOneCredit(s, b, last, rate);
      } else {
        var once := Cycle(s, b, rate, rounds[0]);
        if once.Some? {
          OneCycle(s, b, rate, rounds[0], last, user, org);
          var rest := rounds[1..];
          assert forall i | 0 <= i < |rest| :: rest[i] == rounds[i + 1];
          CyclesAddNoHours(once.value, b, rate, rest, last, user, org);
        }
      }
    }
  }

  lemma AtMostOneCredit(s: State, b: BookingId, last: int, rate: int)
    requires CanCycle(s, b, last, rate)
    ensures forall p, q | p in CreditsOf(s.ledger.purchases, b) && q in CreditsOf(s.ledger.purchases, b) :: p == q
  {
    hide BooksMatch, NoDoubleBooking, SessionsMatch, AsPriced, NothingLapsed;
  }
}
