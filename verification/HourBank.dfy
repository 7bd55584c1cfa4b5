/** The ledger as it is kept: two tables updated in place, row by row. Every
    method is one of the ledger's operations, and leaves exactly what the
    functions of the other modules say. */
module Bank {
  import opened Model
  import opened Sums
  import opened Ledgers
  import opened WalkOptimality
  import opened Settlement
  import opened Credit
  import opened Books
  import BankBalance

  // ---- the walk, one candidate at a time ------------------------------------------------

  /** The walk stands before candidate `i`: `draws` are taken, `needed` hours
      are still to find, and the purchases ahead are as they were. */
  ghost predicate WalkStands(order: seq<PurchaseId>, i: nat, before: PurchaseTable, purchases: PurchaseTable,
                             hours: int, needed: int, now: int, own: Option<BookingId>, draws: seq<Draw>)
    requires i <= |order|
  {
    && (forall p | p in order :: p in before)
    && (forall d | d in draws :: d.purchase in before)
    && (forall d | d in draws :: forall j | i <= j < |order| :: order[j] != d.purchase)
    && purchases == Debited(before, draws)
    && WalkDraws(order, before, hours, now, own) == draws + WalkDraws(order[i..], before, needed, now, own)
  }

  lemma WalkStarts(order: seq<PurchaseId>, purchases: PurchaseTable, hours: int, now: int, own: Option<BookingId>)
    requires forall p | p in order :: p in purchases
    ensures WalkStands(order, 0, purchases, purchases, hours, hours, now, own, [])
  {
    assert order[0..] == order;
  }

  /** What is ahead of the walk is untouched. */
  lemma AheadIsUntouched(order: seq<PurchaseId>, i: nat, before: PurchaseTable, purchases: PurchaseTable,
                         hours: int, needed: int, now: int, own: Option<BookingId>, draws: seq<Draw>)
    requires i < |order| && WalkStands(order, i, before, purchases, hours, needed, now, own, draws)
    ensures order[i] in before && order[i] in purchases && purchases[order[i]] == before[order[i]]
  {
    assert order[i] in order;
    DebitedKeepsKeys(before, draws);
  }

  lemma WalkPasses(order: seq<PurchaseId>, i: nat, before: PurchaseTable, purchases: PurchaseTable,
                   hours: int, needed: int, now: int, own: Option<BookingId>, draws: seq<Draw>)
    requires i < |order| && WalkStands(order, i, before, purchases, hours, needed, now, own, draws)
    requires !Drawable(before[order[i]], now, own)
    ensures WalkStands(order, i + 1, before, purchases, hours, needed, now, own, draws)
  {
    hide Debited;
    assert order[i..][0] == order[i] && order[i..][1..] == order[i + 1..];
  }

  lemma WalkTakes(order: seq<PurchaseId>, i: nat, before: PurchaseTable, purchases: PurchaseTable,
                  hours: int, needed: int, now: int, own: Option<BookingId>, draws: seq<Draw>)
    requires i < |order| && WalkStands(order, i, before, purchases, hours, needed, now, own, draws)
    requires forall j, k | 0 <= j < k < |order| :: order[j] != order[k]
    requires needed > 0 && order[i] in before && order[i] in purchases && Drawable(before[order[i]], now, own)
    ensures var p := order[i];
            var taken := Min(before[p].remaining, needed);
            WalkStands(order, i + 1, before, purchases[p := Spend(purchases[p], taken)], hours, needed - taken, now, own,
                       draws + [Draw(p, taken)])
  {
    var p := order[i];
    var d := Draw(p, Min(before[p].remaining, needed));
    assert order[i..][0] == p && order[i..][1..] == order[i + 1..];
    var rest := WalkDraws(order[i + 1..], before, needed - d.hours, now, own);
    assert WalkDraws(order[i..], before, needed, now, own) == [d] + rest;
    assert draws + ([d] + rest) == draws + [d] + rest;
    assert forall e | e in draws + [d] :: e in draws || e == d;
    OneDrawMore(before, map[], 0, draws, d);
  }

  lemma WalkIsOver(order: seq<PurchaseId>, i: nat, before: PurchaseTable, purchases: PurchaseTable,
                   hours: int, needed: int, now: int, own: Option<BookingId>, draws: seq<Draw>)
    requires i <= |order| && WalkStands(order, i, before, purchases, hours, needed, now, own, draws)
    requires i == |order| || needed <= 0
    ensures draws == WalkDraws(order, before, hours, now, own)
    ensures (forall d | d in draws :: d.purchase in before) && purchases == Debited(before, draws)
  {
    assert draws + [] == draws;
    assert WalkDraws(order[i..], before, needed, now, own) == [];
  }

  // ---- putting draws back -----------------------------------------------------------------

  function Restored(purchases: PurchaseTable, draws: seq<Draw>): PurchaseTable
    requires forall d | d in draws :: d.purchase in purchases
  {
    if draws == [] then purchases
    else
      var d := draws[0];
      var next := purchases[d.purchase := Spend(purchases[d.purchase], -d.hours)];
      Restored(next, draws[1..])
  }

  lemma {:induction false} RestoredBalance(purchases: PurchaseTable, draws: seq<Draw>, p: PurchaseId)
    requires forall d | d in draws :: d.purchase in purchases
    requires p in purchases
    ensures Restored(purchases, draws).Keys == purchases.Keys
    ensures Restored(purchases, draws)[p] == Spend(purchases[p], -Taken(draws, p))
  {
    if draws != [] {
      var d := draws[0];
      assert d in draws;
      RestoredBalance(purchases[d.purchase := Spend(purchases[d.purchase], -d.hours)], draws[1..], p);
    }
  }

  /** Putting a walk's draws back undoes the walk. */
  lemma UndoingTheWalk(purchases: PurchaseTable, draws: seq<Draw>)
    requires forall d | d in draws :: d.purchase in purchases
    ensures Debited(purchases, draws).Keys == purchases.Keys
    ensures Restored(Debited(purchases, draws), draws) == purchases
  {
    DebitedKeepsKeys(purchases, draws);
    var after := Debited(purchases, draws);
    forall p | p in purchases
      ensures p in Restored(after, draws) && Restored(after, draws)[p] == purchases[p]
    {
      DebitedBalance(purchases, draws, p);
      RestoredBalance(after, draws, p);
    }
    RestoredKeys(after, draws);
  }

  lemma {:induction false} RestoredKeys(purchases: PurchaseTable, draws: seq<Draw>)
    requires forall d | d in draws :: d.purchase in purchases
    ensures Restored(purchases, draws).Keys == purchases.Keys
  {
    if draws != [] {
      var d := draws[0];
      assert d in draws;
      RestoredKeys(purchases[d.purchase := Spend(purchases[d.purchase], -d.hours)], draws[1..]);
    }
  }

  // ---- releasing row by row -----------------------------------------------------------------

  /** The debit rows without the first `i` of booking `b`'s. */
  function RowsFrom(debits: DebitTable, b: BookingId, order: seq<PurchaseId>, i: nat): DebitTable
    requires i <= |order|
  {
    if i == 0 then debits else RowsFrom(debits, b, order, i - 1) - {DebitKey(b, order[i - 1])}
  }

  lemma {:induction false} RowsFromRows(debits: DebitTable, b: BookingId, order: seq<PurchaseId>, i: nat)
    requires i <= |order| && ListsRowsOf(debits, b, order)
    ensures forall k :: k in RowsFrom(debits, b, order, i)
                        <==> k in debits && !(k.booking == b && exists j | 0 <= j < i :: order[j] == k.purchase)
    ensures forall k | k in RowsFrom(debits, b, order, i) :: RowsFrom(debits, b, order, i)[k] == debits[k]
  {
    if i > 0 {
      RowsFromRows(debits, b, order, i - 1);
    }
  }

  lemma OneRowCredited(l: Ledger, b: BookingId, order: seq<PurchaseId>, i: nat)
    requires i < |order| && ListsRowsOf(l.debits, b, order) && DebitKey(b, order[i]) in l.debits && order[i] in l.purchases
    ensures var mid := Rebase(l, RowsFrom(l.debits, b, order, i)).purchases;
            && order[i] in mid
            && Rebase(l, RowsFrom(l.debits, b, order, i + 1)).purchases
               == mid[order[i] := Spend(mid[order[i]], -l.debits[DebitKey(b, order[i])])]
    ensures HoursFor(RowsFrom(l.debits, b, order, i + 1), b)
            == HoursFor(RowsFrom(l.debits, b, order, i), b) - l.debits[DebitKey(b, order[i])]
  {
    hide *;
    var rows, k := RowsFrom(l.debits, b, order, i), DebitKey(b, order[i]);
    RowStillThere(l.debits, b, order, i);
    RebaseShape(l, rows);
    RebaseDropRow(Rebase(l, rows), k);
    RebaseTwice(l, rows, rows - {k});
    DropRow(rows, k);
    RowOf(rows, k);
  }

  lemma RowOf(debits: DebitTable, k: DebitKey)
    requires k in debits
    ensures Row(debits, k) == debits[k]
  {
  }

  lemma RowStillThere(debits: DebitTable, b: BookingId, order: seq<PurchaseId>, i: nat)
    requires i < |order| && ListsRowsOf(debits, b, order) && DebitKey(b, order[i]) in debits
    ensures var rows, k := RowsFrom(debits, b, order, i), DebitKey(b, order[i]);
            && k in rows && rows[k] == debits[k] && RowsFrom(debits, b, order, i + 1) == rows - {k}
  {
    RowsFromRows(debits, b, order, i);
    assert forall j | 0 <= j < i :: order[j] != order[i];
  }

  lemma AllRowsCredited(l: Ledger, b: BookingId, order: seq<PurchaseId>)
    requires ListsRowsOf(l.debits, b, order)
    ensures RowsFrom(l.debits, b, order, |order|) == Without(l.debits, {b})
    ensures HoursFor(RowsFrom(l.debits, b, order, |order|), b) == 0
  {
    var rows := RowsFrom(l.debits, b, order, |order|);
    RowsFromRows(l.debits, b, order, |order|);
    forall k ensures k in rows <==> k in Without(l.debits, {b}) {
      if k in l.debits && k.booking == b {
        assert k == DebitKey(b, k.purchase);
        assert k.purchase in order;
      }
    }
    assert RowsFor(rows, b) == map[];
  }

  // ---- giving back row by row, latest-expiring first ---------------------------------------------

  /** The rows of `b` hold `sizes` by now, and every purchase follows its row. */
  ghost predicate RowsStand(before: Ledger, b: BookingId, order: seq<PurchaseId>, sizes: seq<int>,
                            purchases: PurchaseTable, debits: DebitTable) {
    && |sizes| == |order| && ListsRowsOf(before.debits, b, order) && Natural(sizes)
    && (forall p | p in order :: p in before.purchases)
    && debits == PutRows(before.debits, b, order, sizes)
    && purchases == Rebase(before, debits).purchases
  }

  /** One row less `give` hours, or gone. */
  function Lowered(debits: DebitTable, k: DebitKey, give: int): DebitTable {
    if k !in debits then debits else if debits[k] - give <= 0 then debits - {k} else debits[k := debits[k] - give]
  }

  lemma LoweringPuts(debits: DebitTable, b: BookingId, order: seq<PurchaseId>, sizes: seq<int>, i: nat, give: int)
    requires |sizes| == |order| && ListsRowsOf(debits, b, order) && Natural(sizes)
    requires i < |order| && sizes[i] > 0 && give <= sizes[i]
    ensures var rows, k := PutRows(debits, b, order, sizes), DebitKey(b, order[i]);
            && k in rows && rows[k] == sizes[i]
            && Lowered(rows, k, give) == PutRows(debits, b, order, sizes[i := sizes[i] - give])
  {
    var rows, k := PutRows(debits, b, order, sizes), DebitKey(b, order[i]);
    assert order[i] in order;
    assert Position(order, order[i]) == i;
    var after := PutRows(debits, b, order, sizes[i := sizes[i] - give]);
    forall c | c in debits
      ensures c in after <==> c in Lowered(rows, k, give)
      ensures c in after ==> after[c] == Lowered(rows, k, give)[c]
    {
      if c.booking == b && c.purchase in order {
        var j := Position(order, c.purchase);
        assert c == DebitKey(b, order[j]);
      }
    }
  }

  lemma LoweringMovesThePurchase(l: Ledger, rows: DebitTable, k: DebitKey, give: int)
    requires k in rows && k.purchase in l.purchases && give <= rows[k]
    ensures var mid := Rebase(l, rows).purchases;
            && k.purchase in mid
            && Rebase(l, Lowered(rows, k, give)).purchases == mid[k.purchase := Spend(mid[k.purchase], -give)]
  {
    hide *;
    RebaseShape(l, rows);
    RowOf(rows, k);
    LoweredIs(rows, k, give);
    if rows[k] - give <= 0 {
      RebaseDropRow(Rebase(l, rows), k);
      RebaseTwice(l, rows, rows - {k});
    } else {
      RebaseSetRow(Rebase(l, rows), k, rows[k] - give);
      RebaseTwice(l, rows, rows[k := rows[k] - give]);
    }
  }

  lemma LoweredIs(debits: DebitTable, k: DebitKey, give: int)
    requires k in debits
    ensures Lowered(debits, k, give) == if debits[k] - give <= 0 then debits - {k} else debits[k := debits[k] - give]
  {
  }

  lemma GivingOneBack(before: Ledger, b: BookingId, order: seq<PurchaseId>, sizes: seq<int>,
                      purchases: PurchaseTable, debits: DebitTable, i: nat, give: int)
    requires RowsStand(before, b, order, sizes, purchases, debits)
    requires i < |order| && sizes[i] > 0 && 0 <= give <= sizes[i]
    ensures var k := DebitKey(b, order[i]);
            && k in debits && debits[k] == sizes[i] && order[i] in purchases
            && RowsStand(before, b, order, sizes[i := sizes[i] - give],
                         purchases[order[i] := Spend(purchases[order[i]], -give)], Lowered(debits, k, give))
  {
    assert order[i] in order;
    LoweringPuts(before.debits, b, order, sizes, i, give);
    hide PutRows, Lowered, Rebase, ListsRowsOf;
    LoweringMovesThePurchase(before, debits, DebitKey(b, order[i]), give);
  }

  lemma RowsBefore(l: Ledger, b: BookingId)
    requires PositiveRows(l.debits) && forall k | k in l.debits :: k.purchase in l.purchases
    ensures var order := RowOrder(l, b);
            var sizes := RowHours(l.debits, b, order);
            && RowsStand(l, b, order, sizes, l.purchases, l.debits)
            && (forall i | 0 <= i < |sizes| :: sizes[i] > 0)
            && Sum(sizes) == HoursFor(l.debits, b)
  {
    var order := RowOrder(l, b);
    var sizes := RowHours(l.debits, b, order);
    RowOrderListsRows(l, b);
    hide RowOrder, HoursFor, HoursOn;
    ListedRows(l, b, order);
    RowsAddUp(l.debits, b, order) by {
      forall k | k in l.debits && k.booking == b ensures k.purchase in order {
        assert k == DebitKey(b, k.purchase);
      }
    }
    RebaseInPlace(l);
    PuttingTheSameRows(l.debits, b, order);
    hide PutRows, Rebase, Sum;
  }

  lemma PuttingTheSameRows(debits: DebitTable, b: BookingId, order: seq<PurchaseId>)
    requires PositiveRows(debits)
    ensures PutRows(debits, b, order, RowHours(debits, b, order)) == debits
  {
    var sizes := RowHours(debits, b, order);
    forall k | k in debits && k.booking == b && k.purchase in order
      ensures sizes[Position(order, k.purchase)] == debits[k]
    {
      assert k == DebitKey(b, order[Position(order, k.purchase)]);
    }
  }

  lemma GiveBackStep(sizes: seq<int>, i: nat, surplus: int, left: seq<int>)
    requires i < |sizes| && surplus > 0 && GiveBack(sizes[..i + 1], surplus) + sizes[i + 1..] == left
    ensures var give := Min(sizes[i], surplus);
            GiveBack(sizes[..i], surplus - give) + sizes[i := sizes[i] - give][i..] == left
  {
    var give := Min(sizes[i], surplus);
    assert sizes[..i + 1][..i] == sizes[..i];
    assert sizes[i := sizes[i] - give][i..] == [sizes[i] - give] + sizes[i + 1..];
  }

  lemma {:induction false} GiveBackNothing(sizes: seq<int>, surplus: int)
    requires surplus <= 0
    ensures GiveBack(sizes, surplus) == sizes
  {
    if sizes != [] {
      GiveBackNothing(sizes[..|sizes| - 1], surplus);
    }
  }

  lemma GiveBackOfNothing(surplus: int)
    ensures GiveBack([], surplus) == []
  {
  }

  lemma GiveBackIsDone(sizes: seq<int>, i: nat, surplus: int, left: seq<int>)
    requires i <= |sizes| && (i == 0 || surplus <= 0) && GiveBack(sizes[..i], surplus) + sizes[i..] == left
    ensures sizes == left
  {
    hide GiveBack;
    if surplus <= 0 {
      GiveBackNothing(sizes[..i], surplus);
    } else {
      GiveBackOfNothing(surplus);
      assert sizes[..i] == [];
    }
    assert sizes == sizes[..i] + sizes[i..];
  }

  // ---- the tables ---------------------------------------------------------------------------

  class HourBank {
    var purchases: PurchaseTable
    var debits: DebitTable
    /** The booking rows written to the database, in order. */
    var written: seq<Booking>

    constructor ()
      ensures purchases == map[] && debits == map[] && written == []
    {
      purchases := map[];
      debits := map[];
      written := [];
    }

    function Books(): Ledger
      reads this`purchases, this`debits
    {
      Ledger(purchases, debits)
    }

    /** Takes up to `hours`, re-reading each candidate as it comes to it. */
    method Walk(user: UserId, org: OrgId, hours: int, now: int, own: Option<BookingId>) returns (draws: seq<Draw>)
      modifies this`purchases
      ensures draws == ShareDraws(old(purchases), user, org, hours, now, own)
      ensures forall d | d in draws :: d.purchase in old(purchases)
      ensures purchases == Debited(old(purchases), draws)
    {
      hide *;
      var candidates := BankOrder(purchases, user, org, now);
      BankOrderFacts(purchases, user, org, now);
      ShareDrawsIsTheWalk(purchases, user, org, hours, now, own);
      draws := [];
      var needed := hours;
      var i := 0;
      WalkStarts(candidates, purchases, hours, now, own);
      while i < |candidates| && needed > 0
        invariant 0 <= i <= |candidates|
        invariant WalkStands(candidates, i, old(purchases), purchases, hours, needed, now, own, draws)
      {
        var p := candidates[i];
        AheadIsUntouched(candidates, i, old(purchases), purchases, hours, needed, now, own, draws);
        var skipped := p !in purchases || !IsSpendable(purchases[p], now) || (own.Some? && purchases[p].source == own);
        DrawableMeans(purchases[p], now, own);
        if skipped {
          WalkPasses(candidates, i, old(purchases), purchases, hours, needed, now, own, draws);
        } else {
          var taken := Min(purchases[p].remaining, needed);
          WalkTakes(candidates, i, old(purchases), purchases, hours, needed, now, own, draws);
          purchases := purchases[p := Spend(purchases[p], taken)];
          draws := draws + [Draw(p, taken)];
          needed := needed - taken;
        }
        i := i + 1;
      }
      WalkIsOver(candidates, i, old(purchases), purchases, hours, needed, now, own, draws);
    }

    method Undo(draws: seq<Draw>)
      requires forall d | d in draws :: d.purchase in purchases
      modifies this`purchases
      ensures purchases == Restored(old(purchases), draws)
    {
      for i := 0 to |draws|
        invariant purchases.Keys == old(purchases.Keys)
        invariant forall d | d in draws[i..] :: d.purchase in purchases
        invariant Restored(purchases, draws[i..]) == Restored(old(purchases), draws)
      {
        var d := draws[i];
        assert d in draws[i..] && draws[i..][1..] == draws[i + 1..];
        assert forall e | e in draws[i + 1..] :: e in draws[i..];
        purchases := purchases[d.purchase := Spend(purchases[d.purchase], -d.hours)];
      }
    }

    /** All of `hours` or nothing: what was taken is put back before giving up. */
    method RedeemHours(user: UserId, org: OrgId, hours: int, now: int, own: Option<BookingId>)
      returns (draws: Option<seq<Draw>>)
      modifies this`purchases
      ensures var wanted := ShareDraws(old(purchases), user, org, hours, now, own);
              && draws == (if TotalDrawn(wanted) < hours then None else Some(wanted))
              && (draws.None? ==> purchases == old(purchases))
              && (draws.Some? ==>
                    (forall d | d in wanted :: d.purchase in old(purchases))
                    && purchases == Debited(old(purchases), wanted))
      ensures own == None && hours >= 0 ==>
                (draws.Some? <==> hours <= BankBalance.BalanceOf(old(purchases), user, org, now).available)
    {
      hide *;
      var wanted := Walk(user, org, hours, now, own);
      UndoingTheWalk(old(purchases), wanted);
      if own == None && hours >= 0 {
        BankBalance.RedemptionNeedsTheBalance(old(purchases), user, org, hours, now);
      }
      if TotalDrawn(wanted) < hours {
        Undo(wanted);
        draws := None;
      } else {
        draws := Some(wanted);
      }
    }

    /** Takes what there is of `hours`. */
    method RedeemUpTo(user: UserId, org: OrgId, hours: int, now: int) returns (draws: seq<Draw>)
      modifies this`purchases
      ensures draws == ShareDraws(old(purchases), user, org, hours, now, None)
      ensures forall d | d in draws :: d.purchase in old(purchases)
      ensures purchases == Debited(old(purchases), draws)
    {
      draws := Walk(user, org, hours, now, None);
    }

    /** Writes one row per draw, for a booking that has none. */
    method RecordDebits(b: BookingId, draws: seq<Draw>)
      requires forall k | k in debits :: k.booking != b
      requires forall i, j | 0 <= i < j < |draws| :: draws[i].purchase != draws[j].purchase
      modifies this`debits
      ensures debits == WithRows(old(debits), b, draws)
    {
      assert draws[..0] == [];
      for i := 0 to |draws|
        invariant debits == WithRows(old(debits), b, draws[..i])
        invariant forall j | i <= j < |draws| :: DebitKey(b, draws[j].purchase) !in debits
      {
        assert draws[..i + 1][..i] == draws[..i];
        debits := debits[DebitKey(b, draws[i].purchase) := draws[i].hours];
      }
      assert draws[..|draws|] == draws;
    }

    /** Adds draws to a booking's rows: a purchase already drawn on grows its row. */
    method GrowDebits(b: BookingId, draws: seq<Draw>)
      modifies this`debits
      ensures debits == WithRows(old(debits), b, draws)
    {
      assert draws[..0] == [];
      for i := 0 to |draws|
        invariant debits == WithRows(old(debits), b, draws[..i])
      {
        var k := DebitKey(b, draws[i].purchase);
        assert draws[..i + 1][..i] == draws[..i];
        if k in debits {
          debits := debits[k := debits[k] + draws[i].hours];
        } else {
          debits := debits[k := draws[i].hours];
        }
      }
      assert draws[..|draws|] == draws;
    }

    method CreditHours(p: PurchaseId, hours: int)
      modifies this`purchases
      ensures purchases == if p in old(purchases) then old(purchases)[p := Spend(old(purchases)[p], -hours)] else old(purchases)
    {
      if p in purchases {
        purchases := purchases[p := Spend(purchases[p], -hours)];
      }
    }

    /** Every hour of the booking back on the purchase it came from, its rows gone. */
    method ReleaseDebits(b: BookingId) returns (released: int)
      requires forall k | k in debits :: k.purchase in purchases
      modifies this`purchases, this`debits
      ensures Books() == Released(old(Books()), {b})
      ensures released == HoursFor(old(debits), b)
    {
      hide *;
      ghost var before := Ledger(purchases, debits);
      BooksAre();
      var order := RowOrder(Ledger(purchases, debits), b);
      RowOrderListsRows(before, b);
      ListedRows(before, b, order);
      StartOfRows(before, b, order);
      released := 0;
      var i := 0;
      while i < |order|
        invariant 0 <= i <= |order| && debits == before.debits
        invariant purchases == Rebase(before, RowsFrom(before.debits, b, order, i)).purchases
        invariant released + HoursFor(RowsFrom(before.debits, b, order, i), b) == HoursFor(before.debits, b)
      {
        var hours := debits[DebitKey(b, order[i])];
        OneRowCredited(before, b, order, i);
        CreditHours(order[i], hours);
        released := released + hours;
        i := i + 1;
      }
      AllRowsCredited(before, b, order);
      debits := Without(debits, {b});
      ReleasedIs(before, b);
      BooksAre();
    }

    /** A booking's pack share taken again from what the bank holds now. */
    method RedebitBooking(b: BookingId, bk: Booking, now: int) returns (ok: bool)
      requires forall k | k in debits :: k.booking != b
      modifies this`purchases, this`debits
      ensures var redebited := Redebited(old(Books()), b, bk.user, bk.org, bk.share, now);
              && ok == redebited.Some?
              && Books() == if ok then redebited.value else old(Books())
    {
      hide *;
      BooksAre();
      RedebitedIs(Ledger(purchases, debits), b, bk.user, bk.org, bk.share, now);
      var draws := RedeemHours(bk.user, bk.org, bk.share, now, Some(b));
      if draws == None {
        ok := false;
      } else {
        RecordDebits(b, draws.value);
        ok := true;
      }
      BooksAre();
    }

    /** Moves a booking's pack share to match a status change. */
    method SettleStatusChange(b: BookingId, bk: Booking, previous: Status, next: Status, now: int) returns (ok: bool)
      requires forall k | k in debits :: k.purchase in purchases
      requires !HoldsHours(previous) ==> forall k | k in debits :: k.booking != b
      modifies this`purchases, this`debits
      ensures var settled := SettledStatus(old(Books()), b, bk, previous, next, now);
              && ok == settled.Some?
              && Books() == if ok then settled.value else old(Books())
    {
      hide Released, Redebited;
      if bk.share <= 0 {
        return true;
      }
      var before, after := HoldsHours(previous), HoldsHours(next);
      ok := true;
      if before && !after {
        var _ := ReleaseDebits(b);
      } else if after && !before {
        ok := RedebitBooking(b, bk, now);
      }
    }

    /** Gives `surplus` hours of a booking back in reverse draw order. */
    method GiveSurplusBack(b: BookingId, share: int, newShare: int)
      requires PositiveRows(debits) && forall k | k in debits :: k.purchase in purchases
      requires HoursFor(debits, b) == share && 0 <= newShare < share
      modifies this`purchases, this`debits
      ensures var order := RowOrder(old(Books()), b);
              Books() == Rebase(old(Books()), PutRows(old(debits), b, order, KeepFirst(RowHours(old(debits), b, order), newShare)))
    {
      hide *;
      BooksAre();
      ghost var before := Ledger(purchases, debits);
      var order := RowOrder(Ledger(purchases, debits), b);
      ghost var sizes := RowHours(debits, b, order);
      RowsBefore(before, b);
      StandingRows(before, b, order, sizes, purchases, debits);
      ghost var left := GiveBack(sizes, share - newShare);
      GivingBackKeepsTheSoonest(sizes, share - newShare);
      var surplus := share - newShare;
      var i := |order|;
      assert sizes[..i] == sizes && sizes[i..] == [];
      while i > 0 && surplus > 0
        invariant 0 <= i <= |order| && 0 <= surplus
        invariant RowsStand(before, b, order, sizes, purchases, debits) && |sizes| == |order|
        invariant GiveBack(sizes[..i], surplus) + sizes[i..] == left
        invariant forall j | 0 <= j < i :: sizes[j] > 0
      {
        i := i - 1;
        var k := DebitKey(b, order[i]);
        ghost var lowered := Min(sizes[i], surplus);
        MinIs(sizes[i], surplus);
        GivingOneBack(before, b, order, sizes, purchases, debits, i, lowered);
        GiveBackStep(sizes, i, surplus, left);
        var give := Min(debits[k], surplus);
        purchases := purchases[order[i] := Spend(purchases[order[i]], -give)];
        debits := Lowered(debits, k, give);
        surplus := surplus - give;
        sizes := sizes[i := sizes[i] - give];
        StandingRows(before, b, order, sizes, purchases, debits);
      }
      GiveBackIsDone(sizes, i, surplus, left);
      StandingRows(before, b, order, sizes, purchases, debits);
      BooksAre();
    }

    /** A booking row goes to the database, which checks its share against its length. */
    method Flush(row: Booking)
      requires ShareFits(row)
      modifies this`written
      ensures written == old(written) + [row]
    {
      written := written + [row];
    }

    /** Brings a booking's pack share in line with a new length. When the
        booking grows, the longer row is written before the share follows. */
    method SettleMovedBooking(b: BookingId, bk: Booking, newDuration: int, now: int) returns (row: Booking, uncovered: int)
      requires PositiveRows(debits) && forall k | k in debits :: k.purchase in purchases
      requires bk.share > 0 && HoldsHours(bk.status) ==> HoursFor(debits, b) == bk.share
      requires newDuration >= 0 && ShareFits(bk)
      modifies this
      ensures Move(Books(), row.share, uncovered) == SettledMove(old(Books()), b, bk, newDuration, now)
      ensures row == bk.(share := row.share, duration := if Grows(bk, newDuration) then newDuration else bk.duration)
      ensures written == old(written)
                         + if Grows(bk, newDuration) then [bk.(duration := newDuration), row]
                           else if Shrinks(bk, newDuration) then [row] else []
    {
      hide *;
      BooksAre();
      ghost var before := Ledger(purchases, debits);
      MoveCases(before, b, bk, newDuration, now);
      WhichWay(bk, newDuration);
      ShareFitsMeans(bk);
      row, uncovered := bk, 0;
      if bk.share <= 0 {
        return;
      }
      if !HoldsHours(bk.status) {
        row := row.(share := Min(bk.share, newDuration));
        return;
      }
      if newDuration < bk.share {
        GiveSurplusBack(b, bk.share, newDuration);
        row := row.(share := newDuration);
        ShareFitsMeans(row);
        Flush(row);
        return;
      }
      var extra := newDuration - bk.duration;
      if extra <= 0 {
        return;
      }
      row := row.(duration := newDuration);
      ShareFitsMeans(row);
      Flush(row);
      var draws := RedeemUpTo(bk.user, bk.org, extra, now);
      GrowDebits(b, draws);
      GrownIs(before, b, bk.user, bk.org, extra, now);
      row := row.(share := row.share + TotalDrawn(draws));
      uncovered := extra - TotalDrawn(draws);
      ShareFitsMeans(row);
      Flush(row);
      BooksAre();
    }

    // ---- cancellation credits ---------------------------------------------------------------

    /** The credit a booking left, if it has one. */
    method ExistingCredit(b: BookingId) returns (credit: Option<PurchaseId>)
      ensures credit.None? <==> CreditsOf(purchases, b) == {}
      ensures credit.Some? ==> credit.value in CreditsOf(purchases, b)
    {
      var credits := CreditsOf(purchases, b);
      if credits == {} {
        return None;
      }
      var p :| p in credits;
      return Some(p);
    }

    /** The credit row of a booking being cancelled; nothing is written when it
        would not fit the ledger. */
    method CreateCredit(b: BookingId, bk: Booking, previous: Status, rate: int, now: int, newId: PurchaseId)
      returns (outcome: CreditOutcome)
      requires OneCreditEach(purchases)
      modifies this`purchases
      ensures outcome == CreditFor(old(purchases), b, bk, previous, rate, now, newId)
      ensures purchases == if outcome.CreditRow? then old(purchases)[outcome.id := outcome.row] else old(purchases)
    {
      hide Credit.CreditHours;
      var hours := Credit.CreditHours(bk.amount, rate);
      if !IsCreditable(bk, previous) || hours <= 0 {
        return NoCredit;
      }
      if hours > MAX_LEDGER_HOURS {
        return TooLarge;
      }
      var existing := ExistingCredit(b);
      OneCreditAtMost(purchases, b);
      if existing.Some? {
        var p := existing.value;
        if purchases[p].status != Withdrawn || purchases[p].used > 0 {
          return NoCredit;
        }
        purchases := purchases[p := FreshCredit(bk, b, hours, now)];
        return CreditRow(p, FreshCredit(bk, b, hours, now));
      }
      purchases := purchases[newId := FreshCredit(bk, b, hours, now)];
      return CreditRow(newId, FreshCredit(bk, b, hours, now));
    }

    /** Takes a booking's credit back when it is reinstated. */
    method ReverseCredit(b: BookingId) returns (outcome: ReversalOutcome)
      requires OneCreditEach(purchases)
      modifies this`purchases
      ensures outcome == ReversalOf(old(purchases), b)
      ensures outcome.Reverse? ==> outcome.id in old(purchases)
      ensures purchases == if outcome.Reverse? then old(purchases)[outcome.id := Reversed(old(purchases)[outcome.id])] else old(purchases)
    {
      var credit := ExistingCredit(b);
      OneCreditAtMost(purchases, b);
      if credit == None {
        return NothingToReverse;
      }
      var p := credit.value;
      if purchases[p].used > 0 {
        return AlreadySpent;
      }
      if purchases[p].status == Withdrawn {
        return NothingToReverse;
      }
      if purchases[p].remaining < purchases[p].total {
        return AlreadySpent;
      }
      purchases := purchases[p := Reversed(purchases[p])];
      return Reverse(p);
    }

    lemma BooksAre()
      ensures Books() == Ledger(purchases, debits)
    {
    }
  }

  lemma OneCreditAtMost(purchases: PurchaseTable, b: BookingId)
    requires OneCreditEach(purchases)
    ensures forall p, q | p in CreditsOf(purchases, b) && q in CreditsOf(purchases, b) :: p == q
  {
  }

  /** The move gives hours back; the move takes more. */
  predicate Shrinks(bk: Booking, newDuration: int) {
    bk.share > 0 && HoldsHours(bk.status) && newDuration < bk.share
  }

  predicate Grows(bk: Booking, newDuration: int) {
    bk.share > 0 && HoldsHours(bk.status) && newDuration > bk.duration && newDuration >= bk.share
  }

  lemma WhichWay(bk: Booking, newDuration: int)
    ensures Shrinks(bk, newDuration) <==> bk.share > 0 && HoldsHours(bk.status) && newDuration < bk.share
    ensures Grows(bk, newDuration)
            <==> bk.share > 0 && HoldsHours(bk.status) && newDuration > bk.duration && newDuration >= bk.share
  {
  }

  /** Why the longer row is written first: both of its writes pass the check,
      while the new share on the old length passes exactly if it still fits
      there, and never on a booking its packs covered in full that drew more. */
  lemma LengthGoesBeforeTheShare(l: Ledger, b: BookingId, bk: Booking, newDuration: int, now: int)
    requires forall k | k in l.debits :: k.purchase in l.purchases
    requires ShareFits(bk) && Grows(bk, newDuration)
    ensures var share := SettledMove(l, b, bk, newDuration, now).share;
            && ShareFits(bk.(duration := newDuration)) && ShareFits(bk.(duration := newDuration, share := share))
            && (ShareFits(bk.(share := share)) <==> share <= bk.duration)
            && (bk.share == bk.duration && share > bk.share ==> !ShareFits(bk.(share := share)))
  {
    hide *;
    var share := SettledMove(l, b, bk, newDuration, now).share;
    WhichWay(bk, newDuration);
    MoveCases(l, b, bk, newDuration, now);
    GrownIs(l, b, bk.user, bk.org, newDuration - bk.duration, now);
    ShareFitsMeans(bk);
    ShareFitsMeans(bk.(duration := newDuration));
    ShareFitsMeans(bk.(duration := newDuration, share := share));
    ShareFitsMeans(bk.(share := share));
  }

  lemma GrownIs(l: Ledger, b: BookingId, user: UserId, org: OrgId, extra: int, now: int)
    ensures var draws := ShareDraws(l.purchases, user, org, extra, now, None);
            && (forall d | d in draws :: d.purchase in l.purchases)
            && Rebase(l, WithRows(l.debits, b, draws)) == Ledger(Debited(l.purchases, draws), WithRows(l.debits, b, draws))
            && 0 <= TotalDrawn(draws) <= Max(extra, 0)
            && (extra > 0 ==> TotalDrawn(draws) <= extra)
  {
    ShareDrawsFit(l.purchases, user, org, extra, now, None);
    DrawingIsRebase(l, b, ShareDraws(l.purchases, user, org, extra, now, None));
    RebaseShape(l, WithRows(l.debits, b, ShareDraws(l.purchases, user, org, extra, now, None)));
    hide ShareDraws, WithRows, Debited, Rebase, TotalDrawn;
  }

  lemma MinIs(a: int, b: int)
    ensures Min(a, b) <= a && Min(a, b) <= b && (a > 0 && b > 0 ==> Min(a, b) > 0)
  {
  }

  lemma StandingRows(before: Ledger, b: BookingId, order: seq<PurchaseId>, sizes: seq<int>,
                     purchases: PurchaseTable, debits: DebitTable)
    requires RowsStand(before, b, order, sizes, purchases, debits)
    ensures |sizes| == |order| && Natural(sizes)
    ensures Ledger(purchases, debits) == Rebase(before, PutRows(before.debits, b, order, sizes))
  {
    RebaseShape(before, debits);
    hide Rebase, PutRows;
  }

  lemma RedebitedIs(l: Ledger, b: BookingId, user: UserId, org: OrgId, hours: int, now: int)
    ensures var wanted := ShareDraws(l.purchases, user, org, hours, now, Some(b));
            && (forall d | d in wanted :: d.purchase in l.purchases)
            && (forall i, j | 0 <= i < j < |wanted| :: wanted[i].purchase != wanted[j].purchase)
            && Redebited(l, b, user, org, hours, now)
               == (if TotalDrawn(wanted) < hours then None
                   else Some(Ledger(Debited(l.purchases, wanted), WithRows(l.debits, b, wanted))))
  {
    ShareDrawsFit(l.purchases, user, org, hours, now, Some(b));
  }

  lemma BankOrderFacts(purchases: PurchaseTable, user: UserId, org: OrgId, now: int)
    ensures var order := BankOrder(purchases, user, org, now);
            && (forall p | p in order :: p in purchases)
            && forall j, k | 0 <= j < k < |order| :: order[j] != order[k]
  {
    BankBalance.BankOrderIsSpendable(purchases, user, org, now);
  }

  lemma ShareDrawsIsTheWalk(purchases: PurchaseTable, user: UserId, org: OrgId, hours: int, now: int, own: Option<BookingId>)
    ensures ShareDraws(purchases, user, org, hours, now, own)
            == WalkDraws(BankOrder(purchases, user, org, now), purchases, hours, now, own)
  {
  }

  lemma DrawableMeans(p: Purchase, now: int, own: Option<BookingId>)
    ensures Drawable(p, now, own) <==> IsSpendable(p, now) && !(own.Some? && p.source == own)
  {
  }

  lemma ListedRows(l: Ledger, b: BookingId, order: seq<PurchaseId>)
    requires ListsRowsOf(l.debits, b, order) && forall k | k in l.debits :: k.purchase in l.purchases
    ensures forall i | 0 <= i < |order| :: DebitKey(b, order[i]) in l.debits && order[i] in l.purchases
  {
    forall i | 0 <= i < |order| ensures DebitKey(b, order[i]) in l.debits && order[i] in l.purchases {
      assert order[i] in order;
    }
  }

  lemma StartOfRows(l: Ledger, b: BookingId, order: seq<PurchaseId>)
    ensures RowsFrom(l.debits, b, order, 0) == l.debits && Rebase(l, l.debits).purchases == l.purchases
  {
    RebaseInPlace(l);
  }

  lemma ReleasedIs(l: Ledger, b: BookingId)
    ensures Released(l, {b}) == Ledger(Rebase(l, Without(l.debits, {b})).purchases, Without(l.debits, {b}))
  {
  }
}
