/** Hours are conserved: what a customer has left and what his bookings hold is
    what he bought or was credited. */
module Conservation {
  import opened Model
  import opened Sums
  import opened Ledgers
  import opened Books
  import opened Lifecycle
  import opened Invariant
  import opened Refunds
  import opened KeptBooks
  import opened Runs

  // ---- a customer's side of the books ------------------------------------------------------

  function OwnPurchases(purchases: PurchaseTable, user: UserId, org: OrgId): set<PurchaseId> {
    set p | p in purchases && purchases[p].user == user && purchases[p].org == org
  }

  function OwnBookings(bookings: BookingTable, user: UserId, org: OrgId): set<BookingId> {
    set b | b in bookings && bookings[b].user == user && bookings[b].org == org
  }

  /** What a purchase put into circulation, unless it was taken out again. */
  function Worth(p: Purchase): int {
    if WrittenOff(p) then 0 else p.total
  }

  ghost function Worths(purchases: PurchaseTable, own: set<PurchaseId>): map<PurchaseId, int> {
    map p | p in own && p in purchases :: Worth(purchases[p])
  }

  /** Everything the customer bought, was granted or was credited. */
  ghost function Bought(purchases: PurchaseTable, user: UserId, org: OrgId): int {
    Total(Worths(purchases, OwnPurchases(purchases, user, org)))
  }

  ghost function HeldHours(bookings: BookingTable, own: set<BookingId>): map<BookingId, int> {
    map b | b in own && b in bookings :: Held(bookings[b])
  }

  /** The pack hours the customer's bookings hold. */
  ghost function HeldByCustomer(bookings: BookingTable, user: UserId, org: OrgId): int {
    Total(HeldHours(bookings, OwnBookings(bookings, user, org)))
  }

  // ---- the same rows, added up two ways ------------------------------------------------------

  ghost function HoursOnEach(debits: DebitTable, own: set<PurchaseId>): map<PurchaseId, int> {
    map p | p in own :: HoursOn(debits, p)
  }

  ghost function HoursForEach(debits: DebitTable, own: set<BookingId>): map<BookingId, int> {
    map b | b in own :: HoursFor(debits, b)
  }

  /** `rows` are the debit rows of the purchases `own`, and of the bookings `booked`. */
  ghost predicate SharedRows(debits: DebitTable, own: set<PurchaseId>, booked: set<BookingId>) {
    forall k | k in debits :: k.purchase in own <==> k.booking in booked
  }

  lemma {:induction false} NothingAddsUp<K>(m: map<K, int>)
    requires forall k | k in m :: m[k] == 0
    ensures Total(m) == 0
    decreases |m|
  {
    if m != map[] {
      var k :| k in m;
      TotalWithout(m, k);
      NothingAddsUp(m - {k});
    }
  }

  lemma EmptyTableHoldsNothing(p: PurchaseId, b: BookingId)
    ensures HoursOn(map[], p) == 0 && HoursFor(map[], b) == 0
  {
    assert RowsOn(map[], p) == map[] && RowsFor(map[], b) == map[];
  }

  lemma OneRowMoreOnEach(debits: DebitTable, k: DebitKey, own: set<PurchaseId>, booked: set<BookingId>)
    requires k in debits
    ensures Total(HoursOnEach(debits, own))
            == Total(HoursOnEach(debits - {k}, own)) + if k.purchase in own then debits[k] else 0
    ensures Total(HoursForEach(debits, booked))
            == Total(HoursForEach(debits - {k}, booked)) + if k.booking in booked then debits[k] else 0
  {
    hide HoursOn, HoursFor;
    DropRow(debits, k);
    var m: map<PurchaseId, int>, n: map<BookingId, int> := HoursOnEach(debits - {k}, own), HoursForEach(debits - {k}, booked);
    if k.purchase in own {
      assert HoursOnEach(debits, own) == m[k.purchase := m[k.purchase] + debits[k]];
      TotalUpdate(m, k.purchase, m[k.purchase] + debits[k]);
    } else {
      assert HoursOnEach(debits, own) == m;
    }
    if k.booking in booked {
      assert HoursForEach(debits, booked) == n[k.booking := n[k.booking] + debits[k]];
      TotalUpdate(n, k.booking, n[k.booking] + debits[k]);
    } else {
      assert HoursForEach(debits, booked) == n;
    }
  }

  /** Rows shared by some purchases and some bookings add up to the same
      hours from either side. */
  lemma {:induction false} RowsAddUpBothWays(debits: DebitTable, own: set<PurchaseId>, booked: set<BookingId>)
    requires SharedRows(debits, own, booked)
    ensures Total(HoursOnEach(debits, own)) == Total(HoursForEach(debits, booked))
    decreases |debits|
  {
    hide Total, HoursOn, HoursFor;
    if debits == map[] {
      forall p | p in own ensures HoursOnEach(debits, own)[p] == 0 { EmptyTableHoldsNothing(p, 0); }
      forall b | b in booked ensures HoursForEach(debits, booked)[b] == 0 { EmptyTableHoldsNothing(0, b); }
      NothingAddsUp(HoursOnEach(debits, own));
      NothingAddsUp(HoursForEach(debits, booked));
    } else {
      var k :| k in debits;
      RowsAddUpBothWays(debits - {k}, own, booked);
      OneRowMoreOnEach(debits, k, own, booked);
    }
  }

  // ---- conservation ------------------------------------------------------------------------------

  ghost predicate AreSums<K>(m: map<K, int>, n: map<K, int>, sum: map<K, int>) {
    m.Keys == n.Keys == sum.Keys && forall k | k in m :: sum[k] == m[k] + n[k]
  }

  lemma {:induction false} TotalsAdd<K>(m: map<K, int>, n: map<K, int>, sum: map<K, int>)
    requires AreSums(m, n, sum)
    ensures Total(sum) == Total(m) + Total(n)
    decreases |m|
  {
    if m != map[] {
      var k :| k in m;
      TotalWithout(m, k);
      TotalWithout(n, k);
      TotalWithout(sum, k);
      TotalsAdd(m - {k}, n - {k}, sum - {k});
    }
  }

  /** What is left on a purchase and what is drawn from it is what it is worth. */
  lemma WorthIsLeftOrDrawn(l: Ledger, p: PurchaseId)
    requires Balanced(l) && p in l.purchases
    ensures Worth(l.purchases[p]) == l.purchases[p].remaining + HoursOn(l.debits, p)
  {
    hide HoursOn;
    assert BalancedPurchase(l, p);
  }

  lemma BoughtIsLeftOrDrawn(l: Ledger, user: UserId, org: OrgId)
    requires Balanced(l)
    ensures Bought(l.purchases, user, org)
            == BankTotal(l.purchases, user, org) + Total(HoursOnEach(l.debits, OwnPurchases(l.purchases, user, org)))
  {
    var own := OwnPurchases(l.purchases, user, org);
    forall p | p in own ensures Worth(l.purchases[p]) == l.purchases[p].remaining + HoursOn(l.debits, p) {
      WorthIsLeftOrDrawn(l, p);
    }
    hide Total, HoursOn, Worth, Balanced;
    TotalsAdd(Balances(l.purchases, user, org), HoursOnEach(l.debits, own), Worths(l.purchases, own));
  }

  lemma HeldIsDrawn(l: Ledger, bookings: BookingTable, user: UserId, org: OrgId)
    requires BooksMatch(l, bookings)
    ensures Balanced(l)
    ensures HeldByCustomer(bookings, user, org) == Total(HoursForEach(l.debits, OwnBookings(bookings, user, org)))
    ensures SharedRows(l.debits, OwnPurchases(l.purchases, user, org), OwnBookings(bookings, user, org))
  {
    hide Total, HoursFor, HoursOn;
    var own := OwnBookings(bookings, user, org);
    assert HeldHours(bookings, own) == HoursForEach(l.debits, own);
    forall k | k in l.debits
      ensures k.purchase in OwnPurchases(l.purchases, user, org) <==> k.booking in own
    {
      assert OwnHours(l, bookings, k);
    }
  }

  /** Books that match conserve hours, customer by customer. */
  lemma MatchingBooksConserveHours(l: Ledger, bookings: BookingTable, user: UserId, org: OrgId)
    requires BooksMatch(l, bookings)
    ensures BankTotal(l.purchases, user, org) + HeldByCustomer(bookings, user, org) == Bought(l.purchases, user, org)
  {
    hide *;
    HeldIsDrawn(l, bookings, user, org);
    BoughtIsLeftOrDrawn(l, user, org);
    RowsAddUpBothWays(l.debits, OwnPurchases(l.purchases, user, org), OwnBookings(bookings, user, org));
  }

  /** In every state any run reaches, whatever the operator edits or moves in
      it, the hours left to a customer and the hours his bookings hold are
      together exactly the hours he bought, was granted or was credited and did
      not have written off again. */
  lemma EveryRunConservesHours(blocks: set<Block>, events: seq<Event>, user: UserId, org: OrgId)
    ensures var s := AfterAny(EmptyState(blocks), events);
            BankTotal(s.ledger.purchases, user, org) + HeldByCustomer(s.bookings, user, org)
            == Bought(s.ledger.purchases, user, org)
  {
    hide *;
    EmptyStateIsFine(blocks);
    InvKeepsBooks(EmptyState(blocks));
    AnyRunKeepsBooks(EmptyState(blocks), events);
    var s := AfterAny(EmptyState(blocks), events);
    KeptParts(s);
    MatchingBooksConserveHours(s.ledger, s.bookings, user, org);
  }
}
