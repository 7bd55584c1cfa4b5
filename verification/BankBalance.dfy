/** The bank as the customer sees it: one number, the slice of it that lapses
    first, and the split of a booking the browser previews from it. */
module BankBalance {
  import opened Model
  import opened Sums
  import opened Ledgers
  import opened WalkOptimality
  import opened Settlement
  import opened Lifecycle

  // ---- the balance ----------------------------------------------------------------------

  datatype Expiring = Expiring(hours: int, expires: int)

  datatype Balance = Balance(available: int, expiringNext: Option<Expiring>)

  function Remaining(order: seq<PurchaseId>, purchases: PurchaseTable): seq<int>
    requires forall p | p in order :: p in purchases
  {
    if order == [] then [] else [purchases[order[0]].remaining] + Remaining(order[1..], purchases)
  }

  function ExpiringAt(order: seq<PurchaseId>, purchases: PurchaseTable, expires: int): seq<PurchaseId>
    requires forall p | p in order :: p in purchases
    ensures forall p | p in ExpiringAt(order, purchases, expires) :: p in purchases
  {
    if order == [] then []
    else (if purchases[order[0]].expires == expires then [order[0]] else []) + ExpiringAt(order[1..], purchases, expires)
  }

  /** What `bank_balance` reports of a customer's purchases with one organisation. */
  function BalanceOf(purchases: PurchaseTable, user: UserId, org: OrgId, now: int): Balance {
    var spendable := BankOrder(purchases, user, org, now);
    var total := Sum(Remaining(spendable, purchases));
    if spendable == [] then Balance(total, None)
    else
      var first := purchases[spendable[0]].expires;
      Balance(total, Some(Expiring(Sum(Remaining(ExpiringAt(spendable, purchases, first), purchases)), first)))
  }

  lemma {:induction false} EverythingSpendableIsAvailable(order: seq<PurchaseId>, purchases: PurchaseTable, now: int)
    requires forall p | p in order :: p in purchases && IsSpendable(purchases[p], now)
    ensures Available(order, purchases, now, None) == Sum(Remaining(order, purchases)) == Left(order, purchases)
    ensures Sum(Remaining(order, purchases)) >= |order|
  {
    if order != [] {
      assert order[0] in order;
      EverythingSpendableIsAvailable(order[1..], purchases, now);
    }
  }

  lemma BankOrderIsSpendable(purchases: PurchaseTable, user: UserId, org: OrgId, now: int)
    ensures forall p | p in BankOrder(purchases, user, org, now) :: p in purchases && IsSpendable(purchases[p], now)
  {
  }

  /** A walk for `hours` draws everything the balance shows, up to `hours`: so
      a redemption of the whole succeeds exactly when the balance covers it. */
  lemma RedemptionNeedsTheBalance(purchases: PurchaseTable, user: UserId, org: OrgId, hours: int, now: int)
    requires hours >= 0
    ensures var drawn := TotalDrawn(ShareDraws(purchases, user, org, hours, now, None));
            && drawn == Min(hours, BalanceOf(purchases, user, org, now).available)
            && (drawn >= hours <==> hours <= BalanceOf(purchases, user, org, now).available)
  {
    var order := BankOrder(purchases, user, org, now);
    BankOrderIsSpendable(purchases, user, org, now);
    EverythingSpendableIsAvailable(order, purchases, now);
    WalkTakesAllItCan(order, purchases, hours, now, None);
  }

  lemma {:induction false} ExpiringAtTheFirst(order: seq<PurchaseId>, purchases: PurchaseTable, expires: int)
    requires forall p | p in order :: p in purchases && purchases[p].expires >= expires
    ensures Sum(Remaining(ExpiringAt(order, purchases, expires), purchases)) == ExpiringBy(order, purchases, expires)
    ensures forall deadline | deadline < expires :: ExpiringBy(order, purchases, deadline) == 0
  {
    if order != [] {
      assert order[0] in order;
      ExpiringAtTheFirst(order[1..], purchases, expires);
      var tail := ExpiringAt(order[1..], purchases, expires);
      if purchases[order[0]].expires == expires {
        assert ExpiringAt(order, purchases, expires) == [order[0]] + tail;
        assert ([order[0]] + tail)[1..] == tail;
        SumAppend([purchases[order[0]].remaining], Remaining(tail, purchases));
      } else {
        assert ExpiringAt(order, purchases, expires) == tail;
      }
    }
  }

  /** The balance's next expiry is the first moment any spendable hour lapses,
      and its hours are exactly those that lapse then. */
  lemma NextExpiryIsTheFirst(purchases: PurchaseTable, user: UserId, org: OrgId, now: int)
    ensures var balance := BalanceOf(purchases, user, org, now);
            var order := BankOrder(purchases, user, org, now);
            && (balance.expiringNext.None? <==> balance.available == 0)
            && (forall p | p in order :: p in purchases)
            && (balance.expiringNext.Some? ==>
                  var next := balance.expiringNext.value;
                  && next.expires > now && next.hours > 0
                  && next.hours == ExpiringBy(order, purchases, next.expires)
                  && forall deadline | deadline < next.expires :: ExpiringBy(order, purchases, deadline) == 0)
  {
    var order := BankOrder(purchases, user, org, now);
    BankOrderIsSpendable(purchases, user, org, now);
    EverythingSpendableIsAvailable(order, purchases, now);
    if order != [] {
      BankOrderIsSpendingOrder(purchases, user, org, now);
      var first := purchases[order[0]].expires;
      forall p | p in order ensures purchases[p].expires >= first {
        var i := Position(order, p);
      }
      ExpiringAtTheFirst(order, purchases, first);
      FirstLapsesFirst(order, purchases, now);
    }
  }

  lemma FirstLapsesFirst(order: seq<PurchaseId>, purchases: PurchaseTable, now: int)
    requires order != [] && forall p | p in order :: p in purchases && IsSpendable(purchases[p], now)
    ensures purchases[order[0]].expires > now && ExpiringBy(order, purchases, purchases[order[0]].expires) > 0
  {
    assert order[0] in order;
    ExpiringIsNatural(order[1..], purchases, purchases[order[0]].expires, now);
  }

  lemma {:induction false} ExpiringIsNatural(order: seq<PurchaseId>, purchases: PurchaseTable, deadline: int, now: int)
    requires forall p | p in order :: p in purchases && IsSpendable(purchases[p], now)
    ensures ExpiringBy(order, purchases, deadline) >= 0
  {
    if order != [] {
      assert order[0] in order;
      ExpiringIsNatural(order[1..], purchases, deadline, now);
    }
  }

  // ---- the browser's preview ---------------------------------------------------------------

  datatype Plan =
    | NoPack
    | Pack(covered: bool, packHours: int, paidHours: int, hoursLeftAfter: int, packsUsed: nat)

  /** The browser's loop over the sorted bank. */
  method PlanPayment(purchases: PurchaseTable, user: UserId, org: OrgId, duration: int, now: int) returns (plan: Plan)
    ensures var draws := ShareDraws(purchases, user, org, duration, now, None);
            var available := BalanceOf(purchases, user, org, now).available;
            plan == if duration <= 0 || TotalDrawn(draws) == 0 then NoPack
                    else Pack(TotalDrawn(draws) == duration, TotalDrawn(draws), duration - TotalDrawn(draws),
                              available - TotalDrawn(draws), |draws|)
  {
    hide *;
    if duration <= 0 {
      return NoPack;
    }
    var bank := BankOrder(purchases, user, org, now);
    var needed := duration;
    var packsUsed := 0;
    var i := 0;
    BankNumbers(purchases, user, org, duration, now);
    BankOrderIsSpendable(purchases, user, org, now);
    WalkStarts(bank, purchases, duration, now);
    while i < |bank| && needed > 0
      invariant 0 <= i <= |bank| && 0 <= needed <= duration
      invariant WalkIsDone(bank, purchases, duration, now, i, needed, packsUsed)
    {
      assert bank[i] in bank;
      WalkGoesOn(bank, purchases, duration, now, i, needed, packsUsed);
      needed := needed - Min(purchases[bank[i]].remaining, needed);
      packsUsed := packsUsed + 1;
      i := i + 1;
    }
    WalkEnds(bank, purchases, duration, now, i, needed, packsUsed);
    var packHours := duration - needed;
    if packHours <= 0 {
      return NoPack;
    }
    var available := Sum(Remaining(bank, purchases));
    plan := Pack(needed == 0, packHours, needed, available - packHours, packsUsed);
  }

  /** After `i` purchases, `used` draws are made and the rest of the walk is
      still the walk over the rest of the bank. */
  ghost predicate WalkIsDone(bank: seq<PurchaseId>, purchases: PurchaseTable, duration: int, now: int, i: int, needed: int,
                             used: int)
    requires 0 <= i <= |bank|
  {
    var all := WalkDraws(bank, purchases, duration, now, None);
    var rest := WalkDraws(bank[i..], purchases, needed, now, None);
    && used + |rest| == |all|
    && duration - needed + TotalDrawn(rest) == TotalDrawn(all)
  }

  lemma BankNumbers(purchases: PurchaseTable, user: UserId, org: OrgId, duration: int, now: int)
    ensures var bank := BankOrder(purchases, user, org, now);
            && ShareDraws(purchases, user, org, duration, now, None) == WalkDraws(bank, purchases, duration, now, None)
            && (forall p | p in bank :: p in purchases)
            && BalanceOf(purchases, user, org, now).available == Sum(Remaining(bank, purchases))
  {
    BankOrderIsSpendable(purchases, user, org, now);
  }

  lemma WalkStarts(bank: seq<PurchaseId>, purchases: PurchaseTable, duration: int, now: int)
    ensures WalkIsDone(bank, purchases, duration, now, 0, duration, 0)
  {
    assert bank[0..] == bank;
  }

  lemma WalkGoesOn(bank: seq<PurchaseId>, purchases: PurchaseTable, duration: int, now: int, i: int, needed: int, used: int)
    requires 0 <= i < |bank| && needed > 0
    requires bank[i] in purchases && IsSpendable(purchases[bank[i]], now)
    requires WalkIsDone(bank, purchases, duration, now, i, needed, used)
    ensures 0 <= needed - Min(purchases[bank[i]].remaining, needed) < needed
    ensures WalkIsDone(bank, purchases, duration, now, i + 1, needed - Min(purchases[bank[i]].remaining, needed), used + 1)
  {
    var rest := bank[i..];
    assert rest[1..] == bank[i + 1..] && rest[0] == bank[i];
    var taken := Min(purchases[bank[i]].remaining, needed);
    var tail := WalkDraws(bank[i + 1..], purchases, needed - taken, now, None);
    assert WalkDraws(rest, purchases, needed, now, None) == [Draw(bank[i], taken)] + tail;
    TotalDrawnAppend([Draw(bank[i], taken)], tail);
    assert TotalDrawn([Draw(bank[i], taken)]) == taken;
  }

  lemma WalkEnds(bank: seq<PurchaseId>, purchases: PurchaseTable, duration: int, now: int, i: int, needed: int, used: int)
    requires 0 <= i <= |bank| && 0 <= needed && (i == |bank| || needed == 0)
    requires WalkIsDone(bank, purchases, duration, now, i, needed, used)
    ensures used == |WalkDraws(bank, purchases, duration, now, None)|
    ensures duration - needed == TotalDrawn(WalkDraws(bank, purchases, duration, now, None))
  {
    assert WalkDraws(bank[i..], purchases, needed, now, None) == [];
  }

  /** The preview is what the server will decide, on the same balances: the same
      pack hours, the same packs, the same kind of booking, and as many hours
      left as the balance will then show. */
  lemma PreviewMatchesTheServer(purchases: PurchaseTable, user: UserId, org: OrgId, duration: int, now: int, plan: Plan)
    requires duration > 0
    requires var draws := ShareDraws(purchases, user, org, duration, now, None);
             plan == if TotalDrawn(draws) == 0 then NoPack
                     else Pack(TotalDrawn(draws) == duration, TotalDrawn(draws), duration - TotalDrawn(draws),
                               BalanceOf(purchases, user, org, now).available - TotalDrawn(draws), |draws|)
    ensures var draws := ShareDraws(purchases, user, org, duration, now, None);
            var kind := MethodFor(TotalDrawn(draws), duration);
            && (kind == Hourly <==> plan == NoPack)
            && (kind == Package <==> plan.Pack? && plan.covered)
            && (kind == Mixed <==> plan.Pack? && !plan.covered)
            && (forall d | d in draws :: d.purchase in purchases)
            && (plan.Pack? ==>
                  && plan.packHours == TotalDrawn(draws) && plan.packsUsed == |draws|
                  && plan.hoursLeftAfter == BalanceOf(Debited(purchases, draws), user, org, now).available)
  {
    ShareDrawsFit(purchases, user, org, duration, now, None);
    if plan.Pack? {
      BalanceAfterDrawing(purchases, user, org, ShareDraws(purchases, user, org, duration, now, None), now);
    }
  }

  // ---- the balance after a walk ----------------------------------------------------------

  function Amounts(ids: set<PurchaseId>, purchases: PurchaseTable): map<PurchaseId, int>
    requires forall p | p in ids :: p in purchases
  {
    map p | p in ids :: purchases[p].remaining
  }

  ghost function HoursIn(ids: set<PurchaseId>, purchases: PurchaseTable): int
    requires forall p | p in ids :: p in purchases
  {
    Total(Amounts(ids, purchases))
  }

  lemma HoursWithout(ids: set<PurchaseId>, purchases: PurchaseTable, p: PurchaseId)
    requires p in ids && forall q | q in ids :: q in purchases
    ensures HoursIn(ids, purchases) == purchases[p].remaining + HoursIn(ids - {p}, purchases)
  {
    TotalWithout(Amounts(ids, purchases), p);
    assert Amounts(ids, purchases) - {p} == Amounts(ids - {p}, purchases);
  }

  lemma {:induction false} OrderAddsUp(order: seq<PurchaseId>, purchases: PurchaseTable, ids: set<PurchaseId>)
    requires forall p | p in order :: p in purchases
    requires forall i, j | 0 <= i < j < |order| :: order[i] != order[j]
    requires forall p :: p in order <==> p in ids
    ensures Sum(Remaining(order, purchases)) == HoursIn(ids, purchases)
  {
    if order == [] {
      assert Amounts(ids, purchases) == map[];
    } else {
      var p := order[0];
      assert p in order;
      HoursWithout(ids, purchases, p);
      forall q ensures q in order[1..] <==> q in ids - {p} {
        if q in ids - {p} {
          var i :| 0 <= i < |order| && order[i] == q;
        }
      }
      OrderAddsUp(order[1..], purchases, ids - {p});
    }
  }

  lemma {:induction false} EmptyPurchasesAddNothing(ids: set<PurchaseId>, more: set<PurchaseId>, purchases: PurchaseTable)
    requires ids <= more && forall p | p in more :: p in purchases
    requires forall p | p in more - ids :: purchases[p].remaining == 0
    ensures HoursIn(ids, purchases) == HoursIn(more, purchases)
    decreases more
  {
    if p :| p in more - ids {
      HoursWithout(more, purchases, p);
      EmptyPurchasesAddNothing(ids, more - {p}, purchases);
    } else {
      assert ids == more;
    }
  }

  lemma SpendingLeavesLess(ids: set<PurchaseId>, purchases: PurchaseTable, p: PurchaseId, hours: int)
    requires p in ids && forall q | q in ids :: q in purchases
    ensures HoursIn(ids, purchases[p := Spend(purchases[p], hours)]) == HoursIn(ids, purchases) - hours
  {
    var after := purchases[p := Spend(purchases[p], hours)];
    TotalUpdate(Amounts(ids, purchases), p, purchases[p].remaining - hours);
    assert Amounts(ids, after) == Amounts(ids, purchases)[p := purchases[p].remaining - hours];
  }

  lemma {:induction false} DrawingLeavesLess(ids: set<PurchaseId>, purchases: PurchaseTable, draws: seq<Draw>)
    requires forall p | p in ids :: p in purchases
    requires forall d | d in draws :: d.purchase in ids
    ensures forall d | d in draws :: d.purchase in purchases
    ensures forall p | p in ids :: p in Debited(purchases, draws)
    ensures HoursIn(ids, Debited(purchases, draws)) == HoursIn(ids, purchases) - TotalDrawn(draws)
  {
    hide HoursIn;
    DebitedKeepsKeys(purchases, draws);
    if draws != [] {
      var init, d := draws[..|draws| - 1], draws[|draws| - 1];
      assert draws == init + [d] && d in draws;
      assert forall e | e in init :: e in draws;
      DrawingLeavesLess(ids, purchases, init);
      TotalDrawnAppend(init, [d]);
      assert TotalDrawn([d]) == d.hours;
      SpendingLeavesLess(ids, Debited(purchases, init), d.purchase, d.hours);
    }
  }

  lemma BalanceAfterDrawing(purchases: PurchaseTable, user: UserId, org: OrgId, draws: seq<Draw>, now: int)
    requires Affordable(purchases, draws)
    requires forall d | d in draws :: d.purchase in Candidates(purchases, user, org, now)
    requires forall d | d in draws :: d.purchase in purchases
    ensures BalanceOf(Debited(purchases, draws), user, org, now).available
            == BalanceOf(purchases, user, org, now).available - TotalDrawn(draws)
  {
    var after := Debited(purchases, draws);
    var before, left := Candidates(purchases, user, org, now), Candidates(after, user, org, now);
    DebitedKeepsKeys(purchases, draws);
    DrawingLeavesLess(before, purchases, draws);
    forall p | p in purchases
      ensures p in left ==> p in before
      ensures p in before && p !in left ==> after[p].remaining == 0
    {
      DebitedBalance(purchases, draws, p);
      TakenFits(purchases, draws, p);
    }
    EmptyPurchasesAddNothing(left, before, after);
    OrderAddsUp(BankOrder(purchases, user, org, now), purchases, before);
    OrderAddsUp(BankOrder(after, user, org, now), after, left);
  }

  /** A purchase is drawn on at most once, and never below zero. */
  lemma {:induction false} TakenFits(purchases: PurchaseTable, draws: seq<Draw>, p: PurchaseId)
    requires Affordable(purchases, draws) && p in purchases
    ensures Taken(draws, p) >= 0
    ensures purchases[p].remaining >= 0 ==> Taken(draws, p) <= purchases[p].remaining
  {
    if draws != [] {
      assert Affordable(purchases, draws[1..]);
      TakenFits(purchases, draws[1..], p);
      if draws[0].purchase == p {
        forall d | d in draws[1..] ensures d.purchase != p {
          var i :| 1 <= i < |draws| && draws[i] == d;
        }
        TakenOnlyFromDrawn(draws[1..], p);
      }
    }
  }
}
