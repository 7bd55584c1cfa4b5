/** One booking's rows: releasing them, taking them again, and bringing them in
    line with a new length. */
module Settlement {
  import opened Model
  import opened Sums
  import opened Ledgers

  // ---- changes that touch one booking's rows only --------------------------

  /** `after` differs from `before` in rows of booking `b` only. */
  ghost predicate OnlyRowsOf(b: BookingId, before: DebitTable, after: DebitTable) {
    forall k: DebitKey | k.booking != b :: (k in before <==> k in after) && Row(before, k) == Row(after, k)
  }

  /** Then each purchase gains or loses exactly what its row for `b` does, and
      no other booking holds more or less than before. */
  lemma OneBookingMoves(b: BookingId, before: DebitTable, after: DebitTable)
    requires OnlyRowsOf(b, before, after)
    ensures forall p :: HoursOn(after, p)
                        == HoursOn(before, p) - Row(before, DebitKey(b, p)) + Row(after, DebitKey(b, p))
    ensures forall c | c != b :: HoursFor(after, c) == HoursFor(before, c)
  {
    forall p
      ensures HoursOn(after, p) == HoursOn(before, p) - Row(before, DebitKey(b, p)) + Row(after, DebitKey(b, p))
    {
      var k := DebitKey(b, p);
      DropRow(before, k);
      DropRow(after, k);
      var m, m' := RowsOn(before - {k}, p), RowsOn(after - {k}, p);
      forall i: DebitKey ensures i in m <==> i in m' { assert Row(before, i) == Row(after, i) || i == k || i.purchase != p; }
      forall i | i in m ensures m[i] == m'[i] { assert Row(before, i) == Row(after, i); }
      assert m == m';
    }
    forall c | c != b ensures HoursFor(after, c) == HoursFor(before, c) {
      var m, m' := RowsFor(before, c), RowsFor(after, c);
      forall i | i in m ensures i in m' && m[i] == m'[i] { assert Row(before, i) == Row(after, i); }
      assert m == m';
    }
  }

  /** With positive rows, holding nothing means having no rows. */
  lemma NoHoursNoRows(debits: DebitTable, b: BookingId)
    requires PositiveRows(debits) && HoursFor(debits, b) == 0
    ensures forall k | k in debits :: k.booking != b
  {
    RowsBoundHours(debits);
  }

  // ---- releasing -----------------------------------------------------------

  /** The debit table without the rows of any booking in `released`. */
  function Without(debits: DebitTable, released: set<BookingId>): DebitTable {
    map k | k in debits && k.booking !in released :: debits[k]
  }

  lemma WithoutHoldsNothing(debits: DebitTable, released: set<BookingId>)
    ensures forall b :: HoursFor(Without(debits, released), b) == if b in released then 0 else HoursFor(debits, b)
  {
    forall b
      ensures HoursFor(Without(debits, released), b) == if b in released then 0 else HoursFor(debits, b)
    {
      if b in released {
        assert RowsFor(Without(debits, released), b) == map[];
      } else {
        assert RowsFor(Without(debits, released), b) == RowsFor(debits, b);
      }
    }
  }

  /** Dropping rows never takes hours from anybody. */
  lemma {:induction false} WithoutOnlyReturns(debits: DebitTable, released: set<BookingId>)
    requires PositiveRows(debits)
    ensures forall p :: HoursOn(Without(debits, released), p) <= HoursOn(debits, p)
    decreases |released|
  {
    if released == {} {
      assert Without(debits, {}) == debits;
    } else {
      var b :| b in released;
      var once := Without(debits, {b});
      WithoutOnlyReturns(once, released - {b});
      assert Without(once, released - {b}) == Without(debits, released);
      assert OnlyRowsOf(b, debits, once);
      OneBookingMoves(b, debits, once);
    }
  }

  /** Every hour of the released bookings goes back to the purchase it came from. */
  ghost function Released(l: Ledger, released: set<BookingId>): Ledger {
    Rebase(l, Without(l.debits, released))
  }

  lemma ReleasedKeepsBalance(l: Ledger, released: set<BookingId>)
    requires Balanced(l)
    ensures Balanced(Released(l, released))
  {
    WithoutOnlyReturns(l.debits, released);
    forall p | p in l.purchases
      ensures HoursOn(Without(l.debits, released), p) - HoursOn(l.debits, p) <= l.purchases[p].remaining
    {
      assert BalancedPurchase(l, p);
    }
    RebaseKeepsBalance(l, Without(l.debits, released));
  }

  /** Releasing in two rounds is releasing once. */
  lemma ReleasedTwice(l: Ledger, first: set<BookingId>, second: set<BookingId>)
    ensures Released(Released(l, first), second) == Released(l, first + second)
  {
    assert Without(Without(l.debits, first), second) == Without(l.debits, first + second);
    RebaseTwice(l, Without(l.debits, first), Without(l.debits, first + second));
  }

  // ---- taking the share again ------------------------------------------------

  function ShareDraws(purchases: PurchaseTable, user: UserId, org: OrgId, hours: int, now: int,
                      own: Option<BookingId>): seq<Draw> {
    WalkDraws(BankOrder(purchases, user, org, now), purchases, hours, now, own)
  }

  /** The ledger after `draws` are debited for booking `b`. */
  function Drawn(l: Ledger, b: BookingId, draws: seq<Draw>): Ledger
    requires forall d | d in draws :: d.purchase in l.purchases
  {
    Ledger(Debited(l.purchases, draws), WithRows(l.debits, b, draws))
  }

  /** All draws of a bank walk come from the user's own spendable purchases. */
  lemma ShareDrawsFit(purchases: PurchaseTable, user: UserId, org: OrgId, hours: int, now: int, own: Option<BookingId>)
    ensures var draws := ShareDraws(purchases, user, org, hours, now, own);
            && Affordable(purchases, draws)
            && (forall d | d in draws :: d.purchase in purchases)
            && (forall d | d in draws :: d.purchase in Candidates(purchases, user, org, now))
            && (forall d | d in draws :: Drawable(purchases[d.purchase], now, own))
            && 0 <= TotalDrawn(draws) <= Max(hours, 0)
  {
    WalkIsAffordable(BankOrder(purchases, user, org, now), purchases, hours, now, own);
  }

  lemma DrawnKeepsBalance(l: Ledger, b: BookingId, draws: seq<Draw>)
    requires Balanced(l)
    requires Affordable(l.purchases, draws)
    requires forall d | d in draws :: d.purchase in l.purchases
    ensures Drawn(l, b, draws) == Rebase(l, WithRows(l.debits, b, draws))
    ensures Balanced(Drawn(l, b, draws))
    ensures OnlyRowsOf(b, l.debits, WithRows(l.debits, b, draws))
  {
    var rows := WithRows(l.debits, b, draws);
    DrawingIsRebase(l, b, draws);
    DrawnRows(l.debits, b, draws);
    OneBookingMoves(b, l.debits, rows);
    forall k | k in rows ensures rows[k] > 0 && k.purchase in l.purchases {
      if exists d :: d in draws && k == DebitKey(b, d.purchase) {
        var d :| d in draws && k == DebitKey(b, d.purchase);
        assert k in l.debits ==> l.debits[k] > 0;
      } else {
        assert k in l.debits && Row(rows, k) == Row(l.debits, k);
      }
    }
    forall p | p in l.purchases
      ensures HoursOn(rows, p) - HoursOn(l.debits, p) <= l.purchases[p].remaining
    {
      assert BalancedPurchase(l, p);
      if exists d :: d in draws && d.purchase == p {
        var d :| d in draws && d.purchase == p;
      }
    }
    RebaseKeepsBalance(l, rows);
  }

  /** Take `hours` for booking `b` from the bank, or change nothing. */
  function Redebited(l: Ledger, b: BookingId, user: UserId, org: OrgId, hours: int, now: int): Option<Ledger> {
    ShareDrawsFit(l.purchases, user, org, hours, now, Some(b));
    var draws := ShareDraws(l.purchases, user, org, hours, now, Some(b));
    if TotalDrawn(draws) < hours then None else Some(Drawn(l, b, draws))
  }

  // ---- rows of one booking, soonest-expiring first ---------------------------

  function PurchasesOf(debits: DebitTable, b: BookingId): set<PurchaseId> {
    set k | k in debits && k.booking == b :: k.purchase
  }

  /** The purchases a booking draws on, in draw order. */
  function RowOrder(l: Ledger, b: BookingId): seq<PurchaseId>
    requires forall k | k in l.debits :: k.purchase in l.purchases
  {
    Ordered(PurchasesOf(l.debits, b), Expiries(l.purchases))
  }

  function RowHours(debits: DebitTable, b: BookingId, order: seq<PurchaseId>): seq<int> {
    seq(|order|, i requires 0 <= i < |order| => Row(debits, DebitKey(b, order[i])))
  }

  ghost predicate ListsRowsOf(debits: DebitTable, b: BookingId, order: seq<PurchaseId>) {
    && (forall p :: p in order <==> DebitKey(b, p) in debits)
    && (forall i, j | 0 <= i < j < |order| :: order[i] != order[j])
  }

  lemma RowOrderListsRows(l: Ledger, b: BookingId)
    requires forall k | k in l.debits :: k.purchase in l.purchases
    ensures ListsRowsOf(l.debits, b, RowOrder(l, b))
  {
    forall p ensures p in PurchasesOf(l.debits, b) <==> DebitKey(b, p) in l.debits {
      if p in PurchasesOf(l.debits, b) {
        var k :| k in l.debits && k.booking == b && k.purchase == p;
        assert k == DebitKey(b, p);
      }
    }
  }

  /** A booking's hours are the sum of its rows, listed once each. */
  lemma {:induction false} RowsAddUp(debits: DebitTable, b: BookingId, order: seq<PurchaseId>)
    requires forall k | k in debits && k.booking == b :: k.purchase in order
    requires forall i, j | 0 <= i < j < |order| :: order[i] != order[j]
    ensures HoursFor(debits, b) == Sum(RowHours(debits, b, order))
    decreases |order|
  {
    if order == [] {
      assert RowsFor(debits, b) == map[];
    } else {
      var k := DebitKey(b, order[0]);
      DropRow(debits, k);
      assert RowHours(debits, b, order)[1..] == RowHours(debits - {k}, b, order[1..]);
      forall c | c in debits - {k} && c.booking == b ensures c.purchase in order[1..] {
        assert c.purchase in order && c.purchase != order[0];
      }
      RowsAddUp(debits - {k}, b, order[1..]);
    }
  }

  function Position(order: seq<PurchaseId>, p: PurchaseId): (i: nat)
    requires p in order
    ensures i < |order| && order[i] == p
  {
    if order[0] == p then 0 else 1 + Position(order[1..], p)
  }

  /** Rows of `b` on `order` rewritten to `hours`; a row left with nothing is deleted. */
  function PutRows(debits: DebitTable, b: BookingId, order: seq<PurchaseId>, hours: seq<int>): DebitTable
    requires |hours| == |order|
  {
    map k | k in debits
            && (k.booking != b || k.purchase !in order || hours[Position(order, k.purchase)] > 0)
      :: if k.booking == b && k.purchase in order then hours[Position(order, k.purchase)] else debits[k]
  }

  ghost predicate Natural(hours: seq<int>) {
    forall i | 0 <= i < |hours| :: hours[i] >= 0
  }

  lemma PutRowsRows(debits: DebitTable, b: BookingId, order: seq<PurchaseId>, hours: seq<int>)
    requires |hours| == |order| && ListsRowsOf(debits, b, order)
    requires Natural(hours)
    ensures RowHours(PutRows(debits, b, order, hours), b, order) == hours
    ensures OnlyRowsOf(b, debits, PutRows(debits, b, order, hours))
    ensures PositiveRows(debits) ==> PositiveRows(PutRows(debits, b, order, hours))
  {
    var after := PutRows(debits, b, order, hours);
    forall i | 0 <= i < |order| ensures Row(after, DebitKey(b, order[i])) == hours[i] {
      assert order[i] in order;
      assert Position(order, order[i]) == i;
    }
  }

  // ---- shrinking --------------------------------------------------------------

  /** What a soonest-first take of `n` hours would take from rows of these sizes. */
  function KeepFirst(hours: seq<int>, n: int): (kept: seq<int>)
    ensures |kept| == |hours|
  {
    if hours == [] then []
    else
      var t := Max(0, Min(hours[0], n));
      [t] + KeepFirst(hours[1..], n - t)
  }

  /** What giving `surplus` back row by row, latest-expiring first, leaves. */
  function GiveBack(hours: seq<int>, surplus: int): (left: seq<int>)
    ensures |left| == |hours|
  {
    if hours == [] then []
    else
      var last := hours[|hours| - 1];
      var give := if surplus <= 0 then 0 else Min(last, surplus);
      GiveBack(hours[..|hours| - 1], surplus - give) + [last - give]
  }

  lemma {:induction false} KeepFirstAll(hours: seq<int>, n: int)
    requires Natural(hours)
    requires n >= Sum(hours)
    ensures KeepFirst(hours, n) == hours && Sum(hours) >= 0
  {
    if hours != [] {
      SumIsNatural(hours[1..]);
      KeepFirstAll(hours[1..], n - hours[0]);
    }
  }

  lemma {:induction false} SumIsNatural(hours: seq<int>)
    requires Natural(hours)
    ensures Sum(hours) >= 0
  {
    if hours != [] {
      SumIsNatural(hours[1..]);
    }
  }

  /** A soonest-first take keeps `min(n, everything)`, and no row grows. */
  lemma {:induction false} KeepFirstSum(hours: seq<int>, n: int)
    requires Natural(hours)
    ensures Sum(KeepFirst(hours, n)) == Max(0, Min(n, Sum(hours)))
    ensures forall i | 0 <= i < |hours| :: 0 <= KeepFirst(hours, n)[i] <= hours[i]
  {
    if hours != [] {
      var t := Max(0, Min(hours[0], n));
      KeepFirstSum(hours[1..], n - t);
      SumIsNatural(hours[1..]);
      assert KeepFirst(hours, n)[1..] == KeepFirst(hours[1..], n - t);
    }
  }

  lemma {:induction false} KeepFirstSnoc(hours: seq<int>, last: int, n: int)
    requires last >= 0 && Natural(hours)
    ensures KeepFirst(hours + [last], n)
            == KeepFirst(hours, n) + [Max(0, Min(last, n - Max(0, Min(n, Sum(hours)))))]
  {
    if hours == [] {
      assert hours + [last] == [last];
    } else {
      var t := Max(0, Min(hours[0], n));
      assert (hours + [last])[1..] == hours[1..] + [last];
      KeepFirstSnoc(hours[1..], last, n - t);
      SumIsNatural(hours[1..]);
    }
  }

  lemma GiveBackOneMore(init: seq<int>, last: int, surplus: int)
    requires Natural(init) && last >= 0 && 0 <= surplus <= Sum(init) + last
    requires var rest := surplus - Min(last, surplus);
             GiveBack(init, rest) == KeepFirst(init, Sum(init) - rest)
    ensures GiveBack(init + [last], surplus) == KeepFirst(init + [last], Sum(init) + last - surplus)
  {
    hide GiveBack, KeepFirst, Sum;
    var n := Sum(init) + last - surplus;
    GiveBackSnoc(init, last, surplus);
    SumIsNatural(init);
    KeepFirstSnoc(init, last, n);
    assert Max(0, Min(last, n - Max(0, Min(n, Sum(init))))) == last - Min(last, surplus);
    if surplus <= last {
      KeepFirstAll(init, n);
      KeepFirstAll(init, Sum(init));
    }
  }

  lemma GiveBackSnoc(init: seq<int>, last: int, surplus: int)
    requires last >= 0 && surplus >= 0
    ensures GiveBack(init + [last], surplus)
            == GiveBack(init, surplus - Min(last, surplus)) + [last - Min(last, surplus)]
  {
    assert (init + [last])[..|init|] == init;
  }

  /** Giving the surplus back in reverse order leaves exactly what a
      soonest-first take of the rest would have drawn. */
  lemma {:induction false} GivingBackKeepsTheSoonest(hours: seq<int>, surplus: int)
    requires Natural(hours)
    requires 0 <= surplus <= Sum(hours)
    ensures GiveBack(hours, surplus) == KeepFirst(hours, Sum(hours) - surplus)
  {
    if hours != [] {
      var init, last := hours[..|hours| - 1], hours[|hours| - 1];
      assert hours == init + [last];
      SumAppend(init, [last]);
      assert Sum([last]) == last;
      SumIsNatural(init);
      hide GiveBack, KeepFirst, Sum;
      GivingBackKeepsTheSoonest(init, surplus - Min(last, surplus));
      GiveBackOneMore(init, last, surplus);
    }
  }
}
