/** The hour ledger: purchases, the debit rows that draw on them, and the one
    rule every operation follows: purchases move by what their rows move. */
module Ledgers {
  import opened Model
  import opened Sums

  type PurchaseTable = map<PurchaseId, Purchase>
  type DebitTable = map<DebitKey, int>

  datatype Ledger = Ledger(purchases: PurchaseTable, debits: DebitTable)

  // ---- adding up debit rows ----------------------------------------------

  ghost function RowsOn(debits: DebitTable, p: PurchaseId): DebitTable {
    map k | k in debits && k.purchase == p :: debits[k]
  }

  ghost function RowsFor(debits: DebitTable, b: BookingId): DebitTable {
    map k | k in debits && k.booking == b :: debits[k]
  }

  /** Hours drawn from purchase `p`, over all bookings. */
  ghost function HoursOn(debits: DebitTable, p: PurchaseId): int {
    Total(RowsOn(debits, p))
  }

  /** Hours booking `b` holds, over all purchases. */
  ghost function HoursFor(debits: DebitTable, b: BookingId): int {
    Total(RowsFor(debits, b))
  }

  function Row(debits: DebitTable, k: DebitKey): int {
    if k in debits then debits[k] else 0
  }

  ghost predicate PositiveRows(debits: DebitTable) {
    forall k | k in debits :: debits[k] > 0
  }

  lemma SetRow(debits: DebitTable, k: DebitKey, v: int)
    ensures forall p :: HoursOn(debits[k := v], p)
                        == HoursOn(debits, p) + if p == k.purchase then v - Row(debits, k) else 0
    ensures forall b :: HoursFor(debits[k := v], b)
                        == HoursFor(debits, b) + if b == k.booking then v - Row(debits, k) else 0
  {
    forall p ensures HoursOn(debits[k := v], p)
                     == HoursOn(debits, p) + if p == k.purchase then v - Row(debits, k) else 0
    {
      if p == k.purchase {
        TotalUpdate(RowsOn(debits, p), k, v);
        assert RowsOn(debits[k := v], p) == RowsOn(debits, p)[k := v];
      } else {
        assert RowsOn(debits[k := v], p) == RowsOn(debits, p);
      }
    }
    forall b ensures HoursFor(debits[k := v], b)
                     == HoursFor(debits, b) + if b == k.booking then v - Row(debits, k) else 0
    {
      if b == k.booking {
        TotalUpdate(RowsFor(debits, b), k, v);
        assert RowsFor(debits[k := v], b) == RowsFor(debits, b)[k := v];
      } else {
        assert RowsFor(debits[k := v], b) == RowsFor(debits, b);
      }
    }
  }

  lemma DropRow(debits: DebitTable, k: DebitKey)
    ensures forall p :: HoursOn(debits - {k}, p)
                        == HoursOn(debits, p) - if p == k.purchase then Row(debits, k) else 0
    ensures forall b :: HoursFor(debits - {k}, b)
                        == HoursFor(debits, b) - if b == k.booking then Row(debits, k) else 0
  {
    if k in debits {
      SetRow(debits - {k}, k, debits[k]);
      assert (debits - {k})[k := debits[k]] == debits;
    } else {
      assert debits - {k} == debits;
    }
  }

  lemma RowsBoundHours(debits: DebitTable)
    requires PositiveRows(debits)
    ensures forall p :: HoursOn(debits, p) >= 0
    ensures forall b :: HoursFor(debits, b) >= 0
    ensures forall k | k in debits :: debits[k] <= HoursOn(debits, k.purchase)
    ensures forall k | k in debits :: debits[k] <= HoursFor(debits, k.booking)
  {
    forall p ensures HoursOn(debits, p) >= 0 { TotalBoundsEach(RowsOn(debits, p)); }
    forall b ensures HoursFor(debits, b) >= 0 { TotalBoundsEach(RowsFor(debits, b)); }
    forall k | k in debits
      ensures debits[k] <= HoursOn(debits, k.purchase) && debits[k] <= HoursFor(debits, k.booking)
    {
      TotalBoundsEach(RowsOn(debits, k.purchase));
      TotalBoundsEach(RowsFor(debits, k.booking));
      assert k in RowsOn(debits, k.purchase) && k in RowsFor(debits, k.booking);
    }
  }

  // ---- moving hours ------------------------------------------------------

  /** `hours` leave the balance of `p` (or come back, when negative). */
  function Spend(p: Purchase, hours: int): Purchase {
    p.(remaining := p.remaining - hours, used := p.used + hours)
  }

  /** Every purchase gives or gets back exactly what its own rows changed by. */
  ghost function Moved(purchases: PurchaseTable, before: DebitTable, after: DebitTable): PurchaseTable {
    map p | p in purchases :: Spend(purchases[p], HoursOn(after, p) - HoursOn(before, p))
  }

  /** The ledger whose debit rows are `debits`, and where nothing else moves. */
  ghost function Rebase(l: Ledger, debits: DebitTable): Ledger {
    Ledger(Moved(l.purchases, l.debits, debits), debits)
  }

  lemma RebaseShape(l: Ledger, debits: DebitTable)
    ensures Rebase(l, debits) == Ledger(Rebase(l, debits).purchases, debits)
    ensures Rebase(l, debits).purchases.Keys == l.purchases.Keys
  {
  }

  lemma MovedTwice(purchases: PurchaseTable, d0: DebitTable, d1: DebitTable, d2: DebitTable)
    ensures Moved(Moved(purchases, d0, d1), d1, d2) == Moved(purchases, d0, d2)
  {
    hide Total, HoursOn;
    var once := Moved(purchases, d0, d1);
    forall p | p in purchases
      ensures Moved(once, d1, d2)[p] == Moved(purchases, d0, d2)[p]
    {
      assert once[p] == Spend(purchases[p], HoursOn(d1, p) - HoursOn(d0, p));
    }
  }

  lemma RebaseTwice(l: Ledger, d1: DebitTable, d2: DebitTable)
    ensures Rebase(Rebase(l, d1), d2) == Rebase(l, d2)
  {
    MovedTwice(l.purchases, l.debits, d1, d2);
  }

  /** Row `k` set to `v`: its own purchase moves by the difference. */
  lemma RebaseSetRow(l: Ledger, k: DebitKey, v: int)
    requires k.purchase in l.purchases
    ensures Rebase(l, l.debits[k := v]).purchases
            == l.purchases[k.purchase := Spend(l.purchases[k.purchase], v - Row(l.debits, k))]
  {
    SetRow(l.debits, k, v);
  }

  lemma RebaseDropRow(l: Ledger, k: DebitKey)
    requires k.purchase in l.purchases
    ensures Rebase(l, l.debits - {k}).purchases
            == l.purchases[k.purchase := Spend(l.purchases[k.purchase], -Row(l.debits, k))]
  {
    DropRow(l.debits, k);
  }

  // ---- the balance rule ---------------------------------------------------

  /** A reversed cancellation credit: its hours were taken out of circulation,
      so it is the one kind of row whose balances do not add up to its total. */
  predicate WrittenOff(p: Purchase) {
    p.source.Some? && p.status == Withdrawn && p.used == 0 && p.remaining == 0
  }

  ghost predicate BalancedPurchase(l: Ledger, p: PurchaseId)
    requires p in l.purchases
  {
    && l.purchases[p].used == HoursOn(l.debits, p)
    && l.purchases[p].used >= 0
    && l.purchases[p].remaining >= 0
    && (WrittenOff(l.purchases[p])
        || l.purchases[p].used + l.purchases[p].remaining == l.purchases[p].total)
  }

  ghost predicate Balanced(l: Ledger) {
    && PositiveRows(l.debits)
    && (forall k | k in l.debits :: k.purchase in l.purchases)
    && (forall p | p in l.purchases :: BalancedPurchase(l, p))
  }

  lemma RebasedPurchase(l: Ledger, debits: DebitTable, p: PurchaseId)
    requires p in l.purchases && BalancedPurchase(l, p)
    requires HoursOn(debits, p) >= 0 && HoursOn(debits, p) - HoursOn(l.debits, p) <= l.purchases[p].remaining
    ensures p in Rebase(l, debits).purchases && BalancedPurchase(Rebase(l, debits), p)
  {
    var q := Spend(l.purchases[p], HoursOn(debits, p) - HoursOn(l.debits, p));
    assert Rebase(l, debits).purchases[p] == q;
    hide HoursOn;
  }

  /** Any change of the debit rows that overdraws nobody keeps the books balanced. */
  lemma RebaseKeepsBalance(l: Ledger, debits: DebitTable)
    requires Balanced(l)
    requires PositiveRows(debits)
    requires forall k | k in debits :: k.purchase in l.purchases
    requires forall p | p in l.purchases ::
               HoursOn(debits, p) - HoursOn(l.debits, p) <= l.purchases[p].remaining
    ensures Balanced(Rebase(l, debits))
  {
    RowsBoundHours(debits);
    RebaseShape(l, debits);
    hide HoursOn, HoursFor, BalancedPurchase, Rebase;
    var l' := Rebase(l, debits);
    forall p | p in l'.purchases ensures BalancedPurchase(l', p) {
      assert BalancedPurchase(l, p);
      RebasedPurchase(l, debits, p);
    }
  }

  // ---- expiry order -------------------------------------------------------

  function Expiries(purchases: PurchaseTable): map<PurchaseId, int> {
    map p | p in purchases :: purchases[p].expires
  }

  /** `p` is spent no later than `q`: earlier expiry first, then smaller id. */
  predicate AtMost(expiry: map<PurchaseId, int>, p: PurchaseId, q: PurchaseId)
    requires p in expiry && q in expiry
  {
    expiry[p] < expiry[q] || (expiry[p] == expiry[q] && p <= q)
  }

  ghost predicate IsLeast(expiry: map<PurchaseId, int>, ids: set<PurchaseId>, p: PurchaseId)
    requires ids <= expiry.Keys
  {
    p in ids && forall q | q in ids :: AtMost(expiry, p, q)
  }

  lemma {:induction false} LeastExists(ids: set<PurchaseId>, expiry: map<PurchaseId, int>)
    requires ids != {} && ids <= expiry.Keys
    ensures exists p :: IsLeast(expiry, ids, p)
    decreases |ids|
  {
    var c :| c in ids;
    if ids == {c} {
      assert IsLeast(expiry, ids, c);
    } else {
      LeastExists(ids - {c}, expiry);
      var p :| IsLeast(expiry, ids - {c}, p);
      assert forall q | q in ids :: q == c || q in ids - {c};
      if AtMost(expiry, p, c) {
        assert IsLeast(expiry, ids, p);
      } else {
        assert IsLeast(expiry, ids, c);
      }
    }
  }

  /** The ids of `ids` in the ORDER BY of every ledger query: expiry, then id. */
  function Ordered(ids: set<PurchaseId>, expiry: map<PurchaseId, int>): (order: seq<PurchaseId>)
    requires ids <= expiry.Keys
    ensures forall p :: p in order <==> p in ids
    ensures forall i, j | 0 <= i < j < |order| ::
              order[i] != order[j] && AtMost(expiry, order[i], order[j])
  {
    if ids == {} then []
    else
      LeastExists(ids, expiry);
      assert exists p :: p in ids && forall q | q in ids :: AtMost(expiry, p, q) by {
        var p :| IsLeast(expiry, ids, p);
      }
      var p :| p in ids && forall q | q in ids :: AtMost(expiry, p, q);
      [p] + Ordered(ids - {p}, expiry)
  }

  // ---- the walk ------------------------------------------------------------

  /** Part of the bank: active, not yet expired, at least 0.01 h left on it. */
  predicate IsSpendable(p: Purchase, now: int) {
    p.status == Spendable && p.expires > now && p.remaining >= 1
  }

  /** May be drawn from by a walk for a booking whose own credit is off limits. */
  predicate Drawable(p: Purchase, now: int, own: Option<BookingId>) {
    IsSpendable(p, now) && !(own.Some? && p.source == own)
  }

  function Candidates(purchases: PurchaseTable, user: UserId, org: OrgId, now: int): set<PurchaseId> {
    set p | p in purchases
            && purchases[p].user == user && purchases[p].org == org && IsSpendable(purchases[p], now)
  }

  function BankOrder(purchases: PurchaseTable, user: UserId, org: OrgId, now: int): seq<PurchaseId> {
    Ordered(Candidates(purchases, user, org, now), Expiries(purchases))
  }

  /** What a walk over `order` takes from whom. */
  function WalkDraws(order: seq<PurchaseId>, purchases: PurchaseTable, hours: int, now: int,
                     own: Option<BookingId>): (draws: seq<Draw>)
  {
    if order == [] || hours <= 0 then []
    else
      var p := order[0];
      if p in purchases && Drawable(purchases[p], now, own) then
        var taken := Min(purchases[p].remaining, hours);
        [Draw(p, taken)] + WalkDraws(order[1..], purchases, hours - taken, now, own)
      else
        WalkDraws(order[1..], purchases, hours, now, own)
  }

  function TotalDrawn(draws: seq<Draw>): int {
    if draws == [] then 0 else draws[0].hours + TotalDrawn(draws[1..])
  }

  lemma {:induction false} TotalDrawnAppend(draws: seq<Draw>, more: seq<Draw>)
    ensures TotalDrawn(draws + more) == TotalDrawn(draws) + TotalDrawn(more)
  {
    if draws == [] {
      assert draws + more == more;
    } else {
      assert (draws + more)[1..] == draws[1..] + more;
      TotalDrawnAppend(draws[1..], more);
    }
  }

  /** Draws that can be taken at once: one per purchase, none over its balance. */
  ghost predicate Affordable(purchases: PurchaseTable, draws: seq<Draw>) {
    && (forall i | 0 <= i < |draws| ::
          draws[i].purchase in purchases && 0 < draws[i].hours <= purchases[draws[i].purchase].remaining)
    && (forall i, j | 0 <= i < j < |draws| :: draws[i].purchase != draws[j].purchase)
  }

  lemma WalkUnfolds(order: seq<PurchaseId>, purchases: PurchaseTable, hours: int, now: int, own: Option<BookingId>)
    requires order != [] && hours > 0
    ensures var p, tail := order[0], order[1..];
            WalkDraws(order, purchases, hours, now, own)
            == if p in purchases && Drawable(purchases[p], now, own) then
                 var taken := Min(purchases[p].remaining, hours);
                 [Draw(p, taken)] + WalkDraws(tail, purchases, hours - taken, now, own)
               else WalkDraws(tail, purchases, hours, now, own)
  {
  }

  lemma OneMoreAffordable(purchases: PurchaseTable, d: Draw, draws: seq<Draw>)
    requires Affordable(purchases, draws)
    requires d.purchase in purchases && 0 < d.hours <= purchases[d.purchase].remaining
    requires forall e | e in draws :: e.purchase != d.purchase
    ensures Affordable(purchases, [d] + draws) && TotalDrawn([d] + draws) == d.hours + TotalDrawn(draws)
  {
    var all := [d] + draws;
    assert all[1..] == draws;
    forall i, j | 0 <= i < j < |all| ensures all[i].purchase != all[j].purchase {
      assert all[j] == draws[j - 1];
    }
  }

  /** The walk never overdraws, never touches an unspendable purchase or the
      booking's own credit, and draws at most once on each. */
  lemma {:induction false} WalkIsAffordable(order: seq<PurchaseId>, purchases: PurchaseTable, hours: int, now: int,
                                            own: Option<BookingId>)
    requires forall i, j | 0 <= i < j < |order| :: order[i] != order[j]
    ensures var draws := WalkDraws(order, purchases, hours, now, own);
            && Affordable(purchases, draws)
            && (forall d | d in draws :: d.purchase in order && Drawable(purchases[d.purchase], now, own))
            && 0 <= TotalDrawn(draws) <= Max(hours, 0)
  {
    if order != [] && hours > 0 {
      var p, tail := order[0], order[1..];
      WalkUnfolds(order, purchases, hours, now, own);
      hide WalkDraws, Affordable, TotalDrawn;
      if p in purchases && Drawable(purchases[p], now, own) {
        var taken := Min(purchases[p].remaining, hours);
        WalkIsAffordable(tail, purchases, hours - taken, now, own);
        OneMoreAffordable(purchases, Draw(p, taken), WalkDraws(tail, purchases, hours - taken, now, own));
      } else {
        WalkIsAffordable(tail, purchases, hours, now, own);
      }
    }
  }

  /** Purchases after `draws` are taken from them. */
  function Debited(purchases: PurchaseTable, draws: seq<Draw>): PurchaseTable
    requires forall d | d in draws :: d.purchase in purchases
  {
    if draws == [] then purchases
    else
      var d := draws[|draws| - 1];
      var before := Debited(purchases, draws[..|draws| - 1]);
      if d.purchase in before then before[d.purchase := Spend(before[d.purchase], d.hours)] else before
  }

  /** Debit rows after `draws` are written for `b`: one row per purchase, so a
      purchase already drawn on grows its row. */
  function WithRows(debits: DebitTable, b: BookingId, draws: seq<Draw>): DebitTable {
    if draws == [] then debits
    else
      var d := draws[|draws| - 1];
      var before := WithRows(debits, b, draws[..|draws| - 1]);
      before[DebitKey(b, d.purchase) := Row(before, DebitKey(b, d.purchase)) + d.hours]
  }

  lemma {:induction false} DebitedKeepsKeys(purchases: PurchaseTable, draws: seq<Draw>)
    requires forall d | d in draws :: d.purchase in purchases
    ensures Debited(purchases, draws).Keys == purchases.Keys
    ensures forall p | p in purchases && (forall d | d in draws :: d.purchase != p) ::
              Debited(purchases, draws)[p] == purchases[p]
  {
    if draws != [] {
      DebitedKeepsKeys(purchases, draws[..|draws| - 1]);
      assert draws[|draws| - 1] in draws;
    }
  }

  lemma DrawOneMore(l: Ledger, rows: DebitTable, k: DebitKey, hours: int)
    requires k.purchase in l.purchases
    ensures var mid := Rebase(l, rows).purchases;
            mid[k.purchase := Spend(mid[k.purchase], hours)]
            == Rebase(l, rows[k := Row(rows, k) + hours]).purchases
  {
    hide Total, HoursOn;
    RebaseSetRow(Rebase(l, rows), k, Row(rows, k) + hours);
    RebaseTwice(l, rows, rows[k := Row(rows, k) + hours]);
  }

  lemma OneDrawMore(purchases: PurchaseTable, debits: DebitTable, b: BookingId, init: seq<Draw>, d: Draw)
    requires d.purchase in purchases && forall e | e in init :: e.purchase in purchases
    ensures forall e | e in init + [d] :: e.purchase in purchases
    ensures var before := Debited(purchases, init);
            && d.purchase in before
            && Debited(purchases, init + [d]) == before[d.purchase := Spend(before[d.purchase], d.hours)]
    ensures var rows, k := WithRows(debits, b, init), DebitKey(b, d.purchase);
            WithRows(debits, b, init + [d]) == rows[k := Row(rows, k) + d.hours]
  {
    DebitedKeepsKeys(purchases, init);
    assert (init + [d])[..|init|] == init;
  }

  /** Taking the draws and writing the rows is one rebase of the ledger. */
  lemma {:induction false} DrawingIsRebase(l: Ledger, b: BookingId, draws: seq<Draw>)
    requires forall d | d in draws :: d.purchase in l.purchases
    ensures Debited(l.purchases, draws) == Rebase(l, WithRows(l.debits, b, draws)).purchases
  {
    hide Total, HoursOn, Moved;
    if draws == [] {
      RebaseInPlace(l);
    } else {
      var init, d := draws[..|draws| - 1], draws[|draws| - 1];
      assert draws == init + [d] && d in draws;
      assert forall e | e in init :: e in draws;
      hide Debited, WithRows, Row;
      DrawingIsRebase(l, b, init);
      DrawOneMore(l, WithRows(l.debits, b, init), DebitKey(b, d.purchase), d.hours);
      OneDrawMore(l.purchases, l.debits, b, init, d);
    }
  }

  lemma RebaseInPlace(l: Ledger)
    ensures Rebase(l, l.debits) == l
  {
    hide Total, HoursOn;
  }

  /** The booking holds exactly the drawn hours more than before. */
  lemma {:induction false} DrawingAddsHours(debits: DebitTable, b: BookingId, draws: seq<Draw>)
    ensures forall c :: HoursFor(WithRows(debits, b, draws), c)
                        == HoursFor(debits, c) + if c == b then TotalDrawn(draws) else 0
  {
    if draws != [] {
      var init, d := draws[..|draws| - 1], draws[|draws| - 1];
      DrawingAddsHours(debits, b, init);
      assert draws == init + [d];
      TotalDrawnAppend(init, [d]);
      var rows, k := WithRows(debits, b, init), DebitKey(b, d.purchase);
      SetRow(rows, k, Row(rows, k) + d.hours);
    }
  }

  /** Which rows a set of draws leaves behind: those it drew on grew by their
      draw, and no other row changed. */
  lemma {:induction false} DrawnRows(debits: DebitTable, b: BookingId, draws: seq<Draw>)
    requires forall i, j | 0 <= i < j < |draws| :: draws[i].purchase != draws[j].purchase
    ensures forall d | d in draws ::
              DebitKey(b, d.purchase) in WithRows(debits, b, draws)
              && WithRows(debits, b, draws)[DebitKey(b, d.purchase)]
                 == Row(debits, DebitKey(b, d.purchase)) + d.hours
    ensures forall k: DebitKey | k.booking != b || (forall d | d in draws :: d.purchase != k.purchase) ::
              (k in WithRows(debits, b, draws) <==> k in debits)
              && Row(WithRows(debits, b, draws), k) == Row(debits, k)
  {
    if draws != [] {
      var init, d := draws[..|draws| - 1], draws[|draws| - 1];
      var rows, k := WithRows(debits, b, init), DebitKey(b, d.purchase);
      assert WithRows(debits, b, draws) == rows[k := Row(rows, k) + d.hours];
      hide WithRows;
      assert draws == init + [d];
      forall e | e in init ensures e.purchase != d.purchase {
        var i :| 0 <= i < |init| && draws[i] == e;
      }
      DrawnRows(debits, b, init);
    }
  }
}
