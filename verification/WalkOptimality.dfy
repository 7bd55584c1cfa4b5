/** What the walk over the bank achieves: it takes all it can, and takes it
    from the hours that would lapse first. */
module WalkOptimality {
  import opened Model
  import opened Ledgers

  /** Hours a walk could draw over `order`. */
  function Available(order: seq<PurchaseId>, purchases: PurchaseTable, now: int, own: Option<BookingId>): int {
    if order == [] then 0
    else
      var p := order[0];
      (if p in purchases && Drawable(purchases[p], now, own) then purchases[p].remaining else 0)
      + Available(order[1..], purchases, now, own)
  }

  lemma {:induction false} WalkTakesAllItCan(order: seq<PurchaseId>, purchases: PurchaseTable, hours: int, now: int,
                                             own: Option<BookingId>)
    requires hours >= 0
    ensures Available(order, purchases, now, own) >= 0
    ensures TotalDrawn(WalkDraws(order, purchases, hours, now, own))
            == Min(hours, Available(order, purchases, now, own))
  {
    if order != [] {
      var p := order[0];
      var rest := if p in purchases && Drawable(purchases[p], now, own)
                  then hours - Min(purchases[p].remaining, hours) else hours;
      WalkTakesAllItCan(order[1..], purchases, rest, now, own);
      if hours > 0 && rest != hours {
        var taken := Min(purchases[p].remaining, hours);
        assert WalkDraws(order, purchases, hours, now, own)
            == [Draw(p, taken)] + WalkDraws(order[1..], purchases, rest, now, own);
      }
    }
  }

  /** Hours `draws` takes from purchase `p`. */
  function Taken(draws: seq<Draw>, p: PurchaseId): int {
    if draws == [] then 0
    else (if draws[0].purchase == p then draws[0].hours else 0) + Taken(draws[1..], p)
  }

  lemma {:induction false} TakenAppend(draws: seq<Draw>, more: seq<Draw>, p: PurchaseId)
    ensures Taken(draws + more, p) == Taken(draws, p) + Taken(more, p)
  {
    if draws == [] {
      assert draws + more == more;
    } else {
      assert (draws + more)[1..] == draws[1..] + more;
      TakenAppend(draws[1..], more, p);
    }
  }

  lemma {:induction false} TakenOnlyFromDrawn(draws: seq<Draw>, p: PurchaseId)
    requires forall d | d in draws :: d.purchase != p
    ensures Taken(draws, p) == 0
  {
    if draws != [] {
      assert draws[0] in draws;
      TakenOnlyFromDrawn(draws[1..], p);
    }
  }

  /** After the draws, each purchase is down by what was taken from it. */
  lemma {:induction false} DebitedBalance(purchases: PurchaseTable, draws: seq<Draw>, p: PurchaseId)
    requires forall d | d in draws :: d.purchase in purchases
    requires p in purchases
    ensures Debited(purchases, draws).Keys == purchases.Keys
    ensures Debited(purchases, draws)[p] == Spend(purchases[p], Taken(draws, p))
  {
    DebitedKeepsKeys(purchases, draws);
    if draws != [] {
      var init, d := draws[..|draws| - 1], draws[|draws| - 1];
      assert draws == init + [d] && d in draws;
      assert forall e | e in init :: e in draws;
      DebitedBalance(purchases, init, p);
      TakenAppend(init, [d], p);
    }
  }

  /** Hours on the purchases of `order` that expire at `deadline` or before. */
  function ExpiringBy(order: seq<PurchaseId>, purchases: PurchaseTable, deadline: int): int
    requires forall p | p in order :: p in purchases
  {
    if order == [] then 0
    else
      (if purchases[order[0]].expires <= deadline then purchases[order[0]].remaining else 0)
      + ExpiringBy(order[1..], purchases, deadline)
  }

  /** `after` is what some way of drawing on the purchases of `order` leaves:
      only drawable balances went down, and none below zero. */
  ghost predicate IsDrawOn(order: seq<PurchaseId>, before: PurchaseTable, after: PurchaseTable, now: int,
                           own: Option<BookingId>) {
    forall p | p in order ::
      && p in before && p in after
      && after[p].expires == before[p].expires
      && (if Drawable(before[p], now, own) then 0 <= after[p].remaining <= before[p].remaining
          else after[p].remaining == before[p].remaining)
  }

  /** Hours left on the purchases of `order`, whenever they expire. */
  function Left(order: seq<PurchaseId>, purchases: PurchaseTable): int
    requires forall p | p in order :: p in purchases
  {
    if order == [] then 0 else purchases[order[0]].remaining + Left(order[1..], purchases)
  }

  /** `order` lists each purchase once, soonest-expiring first. */
  ghost predicate SpendingOrder(order: seq<PurchaseId>, purchases: PurchaseTable) {
    && (forall p | p in order :: p in purchases)
    && (forall i, j | 0 <= i < j < |order| ::
          order[i] != order[j] && purchases[order[i]].expires <= purchases[order[j]].expires)
  }

  /** The drawable part of the hours that expire at `deadline` or before. */
  function AvailableBy(order: seq<PurchaseId>, purchases: PurchaseTable, now: int, own: Option<BookingId>,
                       deadline: int): int
    requires forall p | p in order :: p in purchases
  {
    if order == [] then 0
    else
      var p := purchases[order[0]];
      (if p.expires <= deadline && Drawable(p, now, own) then p.remaining else 0)
      + AvailableBy(order[1..], purchases, now, own, deadline)
  }

  lemma {:induction false} NothingExpiresBy(order: seq<PurchaseId>, purchases: PurchaseTable, now: int,
                                            own: Option<BookingId>, deadline: int)
    requires forall p | p in order :: p in purchases && purchases[p].expires > deadline
    ensures ExpiringBy(order, purchases, deadline) == 0
    ensures AvailableBy(order, purchases, now, own, deadline) == 0
  {
    if order != [] {
      assert order[0] in order;
      NothingExpiresBy(order[1..], purchases, now, own, deadline);
    }
  }

  lemma {:induction false} AvailableByIsNatural(order: seq<PurchaseId>, purchases: PurchaseTable, now: int,
                                                own: Option<BookingId>, deadline: int)
    requires forall p | p in order :: p in purchases
    ensures AvailableBy(order, purchases, now, own, deadline) >= 0
  {
    if order != [] {
      AvailableByIsNatural(order[1..], purchases, now, own, deadline);
    }
  }

  /** No draw takes more out of the hours lapsing by `deadline` than are
      drawable there, nor more than it takes altogether. */
  lemma {:induction false} AnyDrawIsBounded(order: seq<PurchaseId>, before: PurchaseTable, after: PurchaseTable,
                                            now: int, own: Option<BookingId>, deadline: int)
    requires IsDrawOn(order, before, after, now, own)
    ensures ExpiringBy(order, before, deadline) - ExpiringBy(order, after, deadline)
            <= AvailableBy(order, before, now, own, deadline)
    ensures ExpiringBy(order, before, deadline) - ExpiringBy(order, after, deadline)
            <= Left(order, before) - Left(order, after)
  {
    if order != [] {
      assert order[0] in order;
      AnyDrawIsBounded(order[1..], before, after, now, own, deadline);
    }
  }

  /** The first purchase of the order, and what is left for the others. */
  lemma WalkHead(order: seq<PurchaseId>, purchases: PurchaseTable, hours: int, now: int, own: Option<BookingId>)
    returns (drawn: int)
    requires SpendingOrder(order, purchases) && order != []
    ensures drawn == if hours > 0 && Drawable(purchases[order[0]], now, own)
                     then Min(purchases[order[0]].remaining, hours) else 0
    ensures var draws := WalkDraws(order, purchases, hours, now, own);
            var tail := WalkDraws(order[1..], purchases, hours - drawn, now, own);
            && Taken(draws, order[0]) == drawn
            && forall q | q in order[1..] :: Taken(draws, q) == Taken(tail, q)
  {
    var p, tail := order[0], order[1..];
    drawn := if hours > 0 && Drawable(purchases[p], now, own) then Min(purchases[p].remaining, hours) else 0;
    var draws := WalkDraws(order, purchases, hours, now, own);
    var tailDraws := WalkDraws(tail, purchases, hours - drawn, now, own);
    WalkIsAffordable(tail, purchases, hours - drawn, now, own);
    TakenOnlyFromDrawn(tailDraws, p);
    assert draws == if drawn > 0 then [Draw(p, drawn)] + tailDraws else tailDraws;
  }

  /** The walk meets that bound: out of the hours lapsing by `deadline` it
      takes everything drawable, up to what it was asked for. */
  lemma {:induction false} WalkMeetsTheBound(order: seq<PurchaseId>, before: PurchaseTable, walked: PurchaseTable,
                                             hours: int, now: int, own: Option<BookingId>, deadline: int)
    requires SpendingOrder(order, before)
    requires forall p | p in order :: p in walked && walked[p]
               == Spend(before[p], Taken(WalkDraws(order, before, hours, now, own), p))
    ensures ExpiringBy(order, before, deadline) - ExpiringBy(order, walked, deadline)
            == Min(Max(hours, 0), AvailableBy(order, before, now, own, deadline))
  {
    AvailableByIsNatural(order, before, now, own, deadline);
    if order != [] {
      var p, tail := order[0], order[1..];
      assert p in order;
      hide WalkDraws, Taken;
      if before[p].expires > deadline {
        NothingExpiresBy(order, before, now, own, deadline);
        NothingExpiresBy(order, walked, now, own, deadline);
      } else {
        var drawn := WalkHead(order, before, hours, now, own);
        AvailableByIsNatural(tail, before, now, own, deadline);
        assert forall q | q in tail :: q in order;
        WalkMeetsTheBound(tail, before, walked, hours - drawn, now, own, deadline);
      }
    }
  }

  /** The table after the walk, read purchase by purchase. */
  lemma WalkedTable(order: seq<PurchaseId>, purchases: PurchaseTable, hours: int, now: int, own: Option<BookingId>)
    requires SpendingOrder(order, purchases)
    ensures var draws := WalkDraws(order, purchases, hours, now, own);
            && (forall d | d in draws :: d.purchase in purchases)
            && (forall p | p in order ::
                  p in Debited(purchases, draws)
                  && Debited(purchases, draws)[p] == Spend(purchases[p], Taken(draws, p)))
  {
    var draws := WalkDraws(order, purchases, hours, now, own);
    WalkIsAffordable(order, purchases, hours, now, own);
    forall p | p in order
      ensures p in Debited(purchases, draws)
      ensures Debited(purchases, draws)[p] == Spend(purchases[p], Taken(draws, p))
    {
      DebitedBalance(purchases, draws, p);
    }
  }

  /** The walk is expiry-optimal: for every deadline, no other way of drawing
      at most the hours asked for leaves fewer hours that lapse by then. */
  lemma WalkIsExpiryOptimal(order: seq<PurchaseId>, before: PurchaseTable, other: PurchaseTable, hours: int,
                            now: int, own: Option<BookingId>, deadline: int)
    requires SpendingOrder(order, before) && hours >= 0
    requires IsDrawOn(order, before, other, now, own)
    requires Left(order, before) - Left(order, other) <= hours
    ensures var draws := WalkDraws(order, before, hours, now, own);
            && (forall d | d in draws :: d.purchase in before)
            && (forall p | p in order :: p in Debited(before, draws))
            && ExpiringBy(order, Debited(before, draws), deadline) <= ExpiringBy(order, other, deadline)
  {
    WalkedTable(order, before, hours, now, own);
    var draws := WalkDraws(order, before, hours, now, own);
    AnyDrawIsBounded(order, before, other, now, own, deadline);
    WalkMeetsTheBound(order, before, Debited(before, draws), hours, now, own, deadline);
  }

  /** The order every walk takes is a spending order. */
  lemma BankOrderIsSpendingOrder(purchases: PurchaseTable, user: UserId, org: OrgId, now: int)
    ensures SpendingOrder(BankOrder(purchases, user, org, now), purchases)
  {
    var order := BankOrder(purchases, user, org, now);
    forall i, j | 0 <= i < j < |order|
      ensures order[i] in purchases && order[j] in purchases
      ensures order[i] != order[j] && purchases[order[i]].expires <= purchases[order[j]].expires
    {
      assert order[i] in order && order[j] in order;
      assert AtMost(Expiries(purchases), order[i], order[j]);
    }
  }
}
